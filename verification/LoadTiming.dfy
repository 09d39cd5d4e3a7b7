/** Loading the position counter of hdl/drv8825.vhd from outside while the step clock runs: the
    five-tick load sequence keeps the next step pulse exactly when that pulse is far enough away. */
module LoadTiming {
  import opened Drv8825
  import opened StepClock
  import opened WrapAround

  /** An external load is accepted on this tick. */
  predicate LoadAccepted(s: Regs, i: Ctrl) {
    && s.loader.state == Normal && i.loadStrobe && !s.loader.pulseLoad
    && Listening(s.motor.state, s.clock.step) && !Wraps(s.loader, s.clock.step, s.position)
  }

  lemma AcceptTick(s: Regs, m: Word30, i: Ctrl)
    requires InRange(s, m) && Allowed(i, m) && Tick(s, i).delta == 1 && LoadAccepted(s, i)
    ensures InRange(Tick(s, i), m) && Tick(s, i).loader.state == Buf0
    ensures !StepCounted(s, i)
  {
    RangeTick(s, m, i);
  }

  /** The load sequence from any of its states: no step is counted, and in the end it leaves the counter in
      range with counter_clk high. */
  lemma {:induction false} LoadSequence(s: Regs, m: Word30, ins: seq<Ctrl>)
    requires InRange(s, m) && s.loader.state != Normal && Regular(s, m, ins)
    requires |ins| <= 6 - Phase(s.loader.state)
    ensures var t := Exec(s, ins);
            InRange(t, m) && (|ins| == 6 - Phase(s.loader.state) ==>
                                t.loader.state == Normal && t.loader.counterClk && t.position <= m)
    ensures Steps(s, ins) == 0
    decreases |ins|
  {
    if ins != [] {
      SequenceTick(s, m, ins[0]);
      hide Tick, InRange;
      if s.loader.state != Buf4 {
        LoadSequence(Tick(s, ins[0]), m, ins[1..]);
      } else {
        assert ins[1..] == [];
      }
    }
  }

  lemma SequenceTick(s: Regs, m: Word30, i: Ctrl)
    requires InRange(s, m) && s.loader.state != Normal && Allowed(i, m) && Tick(s, i).delta == 1
    ensures var t := Tick(s, i);
            && InRange(t, m)
            && (s.loader.state != Buf4 ==>
                  t.loader.state != Normal && Phase(t.loader.state) == Phase(s.loader.state) + 1)
            && (s.loader.state == Buf4 ==> t.loader.state == Normal && t.loader.counterClk && t.position <= m)
    ensures !StepCounted(s, i)
  {
    RangeTick(s, m, i);
  }

  /** A low step clock stays low until it rises, and then stays high for its other half. */
  lemma {:induction false} ClockRun(s: Regs, ins: seq<Ctrl>, period: int)
    requires period >= 1 && InCycle(s.clock, period) && ConstantPeriod(s, ins, period) && !s.clock.step
    requires |ins| < ToToggle(s.clock, period) + OtherHalf(s.clock, period)
    ensures var t := Exec(s, ins);
            && InCycle(t.clock, period) && t.backlash.period == period && !Resets(t.trigger)
            && (|ins| < ToToggle(s.clock, period) ==>
                  !t.clock.step && ToToggle(t.clock, period) == ToToggle(s.clock, period) - |ins|)
            && (|ins| >= ToToggle(s.clock, period) ==>
                  && t.clock.step
                  && ToToggle(t.clock, period)
                     == ToToggle(s.clock, period) + OtherHalf(s.clock, period) - |ins|)
    decreases |ins|
  {
    if ins != [] {
      ClockTick(s.clock, s.trigger, period, NextClock(s.clock, s.trigger, period));
      ClockOf(s, ins[0]);
      hide Tick, NextClock, ToToggle, OtherHalf, SinceToggle, ToRise;
      if Tick(s, ins[0]).clock.step {
        HighRun(Tick(s, ins[0]), ins[1..], period);
      } else {
        ClockRun(Tick(s, ins[0]), ins[1..], period);
      }
    }
  }

  lemma {:induction false} HighRun(s: Regs, ins: seq<Ctrl>, period: int)
    requires period >= 1 && InCycle(s.clock, period) && ConstantPeriod(s, ins, period) && s.clock.step
    requires |ins| < ToToggle(s.clock, period)
    ensures var t := Exec(s, ins);
            && InCycle(t.clock, period) && t.backlash.period == period && !Resets(t.trigger)
            && t.clock.step && ToToggle(t.clock, period) == ToToggle(s.clock, period) - |ins|
    decreases |ins|
  {
    if ins != [] {
      ClockTick(s.clock, s.trigger, period, NextClock(s.clock, s.trigger, period));
      ClockOf(s, ins[0]);
      hide Tick, NextClock, ToToggle, OtherHalf, SinceToggle, ToRise;
      HighRun(Tick(s, ins[0]), ins[1..], period);
    }
  }

  lemma {:induction false} Split(s: Regs, m: Word30, ins: seq<Ctrl>, k: nat, period: int)
    requires Regular(s, m, ins) && ConstantPeriod(s, ins, period) && k <= |ins|
    ensures Regular(s, m, ins[..k]) && ConstantPeriod(s, ins[..k], period)
    ensures Regular(Exec(s, ins[..k]), m, ins[k..]) && ConstantPeriod(Exec(s, ins[..k]), ins[k..], period)
    decreases k
  {
    hide Tick, Allowed;
    if k == 0 {
      assert ins[..0] == [] && ins[0..] == ins;
    } else {
      Split(Tick(s, ins[0]), m, ins[1..], k - 1, period);
      assert ins[..k][0] == ins[0] && ins[..k][1..] == ins[1..][..k - 1] && ins[k..] == ins[1..][k - 1..];
    }
  }

  /** The tick that accepts a load and the five of the sequence. */
  lemma Loaded(s: Regs, m: Word30, ins: seq<Ctrl>)
    requires InRange(s, m) && Regular(s, m, ins) && |ins| == 6 && LoadAccepted(s, ins[0])
    ensures var t := Exec(s, ins);
            InRange(t, m) && t.loader.state == Normal && t.loader.counterClk && t.position <= m
    ensures Steps(s, ins) == 0
  {
    AcceptTick(s, m, ins[0]);
    hide Tick, InRange, LoadAccepted;
    LoadSequence(Tick(s, ins[0]), m, ins[1..]);
  }

  lemma OneTick(s: Regs, i: Ctrl)
    ensures Exec(s, [i]) == Tick(s, i)
  {
    assert [i][1..] == [];
  }

  // ---------------------------------------------------------------------------------
  // The pulse behind a load
  // ---------------------------------------------------------------------------------

  lemma LowTick(s: Regs, m: Word30, i: Ctrl)
    requires InRange(s, m) && s.loader.state == Normal && s.position <= m && !s.clock.step
    requires Allowed(i, m) && !i.loadStrobe && Tick(s, i).delta == 1
    ensures var t := Tick(s, i);
            InRange(t, m) && t.loader.state == Normal && t.position <= m && !t.loader.counterClk
    ensures !StepCounted(s, i)
  {
    RangeTick(s, m, i);
  }

  /** From there to the next rise. */
  lemma {:induction false} UntilRise(s: Regs, m: Word30, ins: seq<Ctrl>, period: int)
    requires InRange(s, m) && s.loader.state == Normal && s.position <= m && !s.clock.step
    requires period >= 1 && InCycle(s.clock, period)
    requires Regular(s, m, ins) && ConstantPeriod(s, ins, period) && NoLoads(ins)
    requires |ins| == ToToggle(s.clock, period)
    ensures var h := Exec(s, ins);
            h.loader.state == Normal && h.clock.step && !h.loader.counterClk
    ensures Steps(s, ins) == 0
    decreases |ins|
  {
    ClockTick(s.clock, s.trigger, period, NextClock(s.clock, s.trigger, period));
    ClockOf(s, ins[0]);
    LowTick(s, m, ins[0]);
    hide Tick, NextClock, ToToggle, OtherHalf, SinceToggle, ToRise, InRange;
    if |ins| == 1 {
      assert ins[1..] == [];
    } else {
      UntilRise(Tick(s, ins[0]), m, ins[1..], period);
    }
  }

  lemma RiseIsFollowed(s: Regs, i: Ctrl)
    requires s.loader.state == Normal && s.clock.step && !s.loader.counterClk
    ensures StepCounted(s, i) <==> s.motor.state != Idle && s.backlash.state != Processing
  {
  }

  lemma UpTick(s: Regs, i: Ctrl)
    requires s.loader.state == Normal && s.clock.step && s.loader.counterClk
    ensures Tick(s, i).loader.state == Normal && Tick(s, i).loader.counterClk && !StepCounted(s, i)
  {
  }

  /** A pulse that is up when the replacement ends stays unnoticed. */
  lemma {:induction false} UntilFall(s: Regs, ins: seq<Ctrl>, period: int)
    requires s.loader.state == Normal && s.clock.step && s.loader.counterClk
    requires period >= 1 && InCycle(s.clock, period) && ConstantPeriod(s, ins, period)
    requires |ins| <= ToToggle(s.clock, period)
    ensures Steps(s, ins) == 0
    decreases |ins|
  {
    if ins != [] {
      ClockTick(s.clock, s.trigger, period, NextClock(s.clock, s.trigger, period));
      ClockOf(s, ins[0]);
      UpTick(s, ins[0]);
      hide Tick, NextClock, ToToggle, OtherHalf, SinceToggle, ToRise;
      if |ins| == 1 {
        assert ins[1..] == [];
      } else {
        UntilFall(Tick(s, ins[0]), ins[1..], period);
      }
    }
  }

  lemma AtLeastOne(c: Clock, period: int)
    requires period >= 1 && InCycle(c, period)
    ensures ToToggle(c, period) >= 1 && OtherHalf(c, period) >= 1
    ensures ToToggle(c, period) + OtherHalf(c, period) <= period + 1
  {
  }

  lemma NoLoadsAfter(ins: seq<Ctrl>, k: nat)
    requires NoLoads(ins) && k <= |ins|
    ensures NoLoads(ins[..k]) && NoLoads(ins[k..])
  {
  }

  /** A pulse that rises at least seven ticks after an accepted load is counted like any other, for
      every period, and nothing is counted before it. */
  lemma PulseAfterLoad(s: Regs, m: Word30, ins: seq<Ctrl>, period: int)
    requires period >= 1 && InRange(s, m) && InCycle(s.clock, period)
    requires ins != [] && LoadAccepted(s, ins[0]) && NoLoads(ins[1..])
    requires Regular(s, m, ins) && ConstantPeriod(s, ins, period)
    requires ToToggle(s.clock, period) >= 7 && |ins| == ToToggle(s.clock, period) + 1
    ensures Steps(s, ins[..|ins| - 1]) == 0
    ensures var r := Exec(s, ins[..|ins| - 1]);
            && r.clock.step
            && (StepCounted(r, ins[|ins| - 1]) <==> r.motor.state != Idle && r.backlash.state != Processing)
  {
    hide *;
    StepIsLow(s, ins[0]);
    AtLeastOne(s.clock, period);
    var n := |ins| - 1;
    var load, rest := ins[..6], ins[..n][6..];
    assert ins[..n] == load + rest && ins[..n][..6] == load && load[0] == ins[0];
    Split(s, m, ins, n, period);
    Split(s, m, ins[..n], 6, period);
    Loaded(s, m, load);
    ClockRun(s, load, period);
    LaterLoadsOff(ins, n);
    UntilRise(Exec(s, load), m, rest, period);
    RunsConcatenate(s, load, rest);
    RiseIsFollowed(Exec(s, ins[..n]), ins[n]);
  }

  lemma StepIsLow(s: Regs, i: Ctrl)
    requires LoadAccepted(s, i)
    ensures !s.clock.step
  {
  }

  lemma LaterLoadsOff(ins: seq<Ctrl>, n: nat)
    requires ins != [] && NoLoads(ins[1..]) && 6 <= n < |ins|
    ensures NoLoads(ins[..n][6..])
  {
    assert forall k :: 0 <= k < n - 6 ==> ins[..n][6..][k] == ins[1..][k + 5];
  }

  /** A pulse that rises within six ticks is lost, for every period: nothing is counted until it is
      over. */
  lemma PulseLostToLoad(s: Regs, m: Word30, ins: seq<Ctrl>, period: int)
    requires period >= 1 && InRange(s, m) && InCycle(s.clock, period)
    requires ins != [] && LoadAccepted(s, ins[0])
    requires Regular(s, m, ins) && ConstantPeriod(s, ins, period)
    requires ToToggle(s.clock, period) <= 6
    requires |ins| == ToToggle(s.clock, period) + OtherHalf(s.clock, period)
    ensures Steps(s, ins) == 0
  {
    hide *;
    StepIsLow(s, ins[0]);
    AtLeastOne(s.clock, period);
    if |ins| <= 6 {
      LoadedInPart(s, m, ins);
    } else {
      var load, rest := ins[..6], ins[6..];
      assert ins == load + rest && load[0] == ins[0];
      Split(s, m, ins, 6, period);
      Loaded(s, m, load);
      ClockRun(s, load, period);
      UntilFall(Exec(s, load), rest, period);
      RunsConcatenate(s, load, rest);
    }
  }

  lemma LoadedInPart(s: Regs, m: Word30, ins: seq<Ctrl>)
    requires InRange(s, m) && Regular(s, m, ins) && 1 <= |ins| <= 6 && LoadAccepted(s, ins[0])
    ensures Steps(s, ins) == 0
  {
    AcceptTick(s, m, ins[0]);
    hide Tick, InRange, LoadAccepted;
    LoadSequence(Tick(s, ins[0]), m, ins[1..]);
  }
}
