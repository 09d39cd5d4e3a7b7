/** The backlash machine of hdl/drv8825.vhd: how long an episode lasts and what it leaves alone. */
module BacklashEpisode {
  import opened Drv8825

  /** The state of the run after `n` ticks of an episode entered in state `s`. */
  ghost predicate InEpisode(s: Regs, r: Regs, n: nat) {
    && r.backlash.state == Processing
    && r.backlash.cnt == n <= s.slack.duration
    && r.slack.duration == s.slack.duration
    && r.slack.tick == s.slack.tick
    && r.slack.mode == s.slack.mode
  }

  lemma EpisodeTick(s: Regs, r: Regs, n: nat, i: Ctrl)
    requires InEpisode(s, r, n)
    ensures !StepCounted(r, i)
    ensures Tick(r, i).backlash.period == s.slack.tick
    ensures Tick(r, i).backlash.modeOut == s.slack.mode
    ensures Tick(r, i).slack.duration == s.slack.duration
    ensures if n < s.slack.duration then InEpisode(s, Tick(r, i), n + 1)
            else Tick(r, i).backlash.state == Done
  {
    NotEnabled(r.loader, i, r.motor.state, r.clock.step, r.position);
  }

  lemma NotEnabled(l: Loader, i: Ctrl, motor: MotorState, step: bool, position: Word30)
    ensures var l' := NextLoader(l, i, motor, Processing, step, position);
            l'.loadCount || !l'.cntEnable
  {
  }

  lemma {:induction false} DuringEpisode(s: Regs, r: Regs, n: nat, ins: seq<Ctrl>)
    requires InEpisode(s, r, n)
    requires n + |ins| <= s.slack.duration
    ensures InEpisode(s, Exec(r, ins), n + |ins|)
    ensures Steps(r, ins) == 0
    decreases |ins|
  {
    if ins != [] {
      EpisodeTick(s, r, n, ins[0]);
      DuringEpisode(s, Tick(r, ins[0]), n + 1, ins[1..]);
    }
  }

  lemma OneTick(s: Regs, i: Ctrl)
    ensures Exec(s, [i]) == Tick(s, i)
    ensures Steps(s, [i]) == if StepCounted(s, i) then 1 else 0
  {
    assert [i][1..] == [];
  }

  lemma WholeEpisode(e: Regs, ins: seq<Ctrl>)
    requires InEpisode(e, e, 0) && |ins| == e.slack.duration + 2
    ensures var d := e.slack.duration;
            && Exec(e, ins[..d + 1]).backlash.state == Done
            && Exec(e, ins[..d + 1]).backlash.period == e.slack.tick
            && Exec(e, ins).backlash.state == Seek
            && Steps(e, ins[..d + 1]) == 0
  {
    hide Tick;
    var d := e.slack.duration;
    DuringEpisode(e, e, 0, ins[..d]);
    var last := Exec(e, ins[..d]);
    EpisodeTick(e, last, d, ins[d]);
    OneTick(last, ins[d]);
    assert ins[..d + 1] == ins[..d] + [ins[d]];
    RunsConcatenate(e, ins[..d], [ins[d]]);
    assert ins == ins[..d + 1] + [ins[d + 1]];
    RunsConcatenate(e, ins[..d + 1], [ins[d + 1]]);
    OneTick(Exec(e, ins[..d + 1]), ins[d + 1]);
    DoneTick(Exec(e, ins[..d + 1]), ins[d + 1]);
  }

  lemma DoneTick(s: Regs, i: Ctrl)
    requires s.backlash.state == Done
    ensures Tick(s, i).backlash.state == Seek
  {
  }

  /** An episode starts with the tick on which the machine leaves seek for processing. */
  predicate Enters(s: Regs, i: Ctrl) {
    s.backlash.state == Seek && Tick(s, i).backlash.state == Processing
  }

  /** Whatever the inputs: with D the duration held on entry, the machine is in `processing` for
      exactly D + 1 ticks, then in `done` for one, then back in `seek`; tick, duration and mode
      are frozen throughout, the step clock runs on the backlash period, and no step pulse is
      counted on any of the D + 1 ticks. */
  lemma Episode(s: Regs, i: Ctrl, ins: seq<Ctrl>, n: nat)
    requires Enters(s, i)
    requires var d := Tick(s, i).slack.duration; n <= d && |ins| == d + 2
    ensures var e := Tick(s, i); var d := e.slack.duration;
            && InEpisode(e, Exec(e, ins[..n]), n)
            && Exec(e, ins[..d + 1]).backlash.state == Done
            && Exec(e, ins[..d + 1]).backlash.period == e.slack.tick
            && Exec(e, ins).backlash.state == Seek
            && Steps(e, ins[..d + 1]) == 0
  {
    Entry(s, i);
    hide Tick;
    var e := Tick(s, i);
    DuringEpisode(e, e, 0, ins[..n]);
    WholeEpisode(e, ins);
  }

  lemma Entry(s: Regs, i: Ctrl)
    requires Enters(s, i)
    ensures InEpisode(Tick(s, i), Tick(s, i), 0)
  {
  }
}
