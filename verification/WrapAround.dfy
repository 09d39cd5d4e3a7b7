/** The position counter of hdl/drv8825.vhd with a maximum M loaded and one unit per step: it
    leaves 0..M by one unit at most, is then reloaded before the next step is counted, and, for
    periods that leave room for the load sequence, no step pulse is lost to it. */
module WrapAround {
  import opened Drv8825
  import opened StepClock

  predicate Out(x: Word30, m: Word30) {
    x == m + 1 || x == WORD30 - 1
  }

  /** What an out-of-range position is replaced by. */
  function Reload(x: Word30, m: Word30): int {
    if x == m + 1 then 2 else m - 1
  }

  predicate Loads(l: LoadState) {
    l == Buf1 || l == Buf2 || l == Buf3 || l == Buf4
  }

  /** What may be loaded: with M = 1 the replacement 2 lies outside the range itself. */
  predicate Loadable(x: Word30, m: Word30) {
    x <= m || (m == 1 && x == 2)
  }

  /** The range invariant, for M from 1 to 2^30 - 2: a position outside 0..M is either waiting for
      the step clock to go low, or about to be overwritten. */
  ghost predicate Ranged(s: Regs, m: Word30) {
    && 1 <= m <= WORD30 - 2
    && s.loader.max == m + 1 && !s.loader.maskStrobe
    && (s.position <= m || Out(s.position, m))
    && (s.loader.state == Normal && Out(s.position, m) && s.clock.step ==> s.loader.counterClk)
    && (s.loader.state != Normal ==> Loadable(s.loader.loadCounter, m))
    && (s.loader.state == Buf0 && Out(s.position, m) ==> s.loader.loadCounter == Reload(s.position, m))
    && (Loads(s.loader.state) ==> s.position == s.loader.loadCounter)
    && (s.loader.state == Buf0 || s.loader.state == Buf2 || s.loader.state == Buf4 ==> !s.loader.counterClk)
    && (s.loader.state == Buf1 || s.loader.state == Buf3 ==> s.loader.counterClk)
  }

  /** The same where the replacements are inside the range and the two ends apart. */
  ghost predicate InRange(s: Regs, m: Word30) {
    2 <= m <= WORD30 - 3 && Ranged(s, m)
  }

  /** Loads stay in range and the maximum is left alone. */
  predicate Allowed(i: Ctrl, m: Word30) {
    (i.loadStrobe ==> i.load <= m) && !i.maxStrobe
  }

  lemma RangeTick(s: Regs, m: Word30, i: Ctrl)
    requires InRange(s, m) && Allowed(i, m) && Tick(s, i).delta == 1
    ensures InRange(Tick(s, i), m)
    ensures Out(s.position, m) ==> !StepCounted(s, i)
    ensures Out(s.position, m) ==>
              Tick(s, i).position == s.position || Tick(s, i).position == Reload(s.position, m)
  {
    RangedTick(s, m, i);
    hide Ranged, Tick;
  }

  lemma RangedTick(s: Regs, m: Word30, i: Ctrl)
    requires Ranged(s, m) && Allowed(i, m) && Tick(s, i).delta == 1
    ensures Ranged(Tick(s, i), m)
    ensures Out(s.position, m) ==> !StepCounted(s, i)
    ensures Out(s.position, m) ==>
              Tick(s, i).position == s.position || Tick(s, i).position == Reload(s.position, m)
  {
    var s' := Tick(s, i);
    if s.loader.state == Normal {
      if StepCounted(s, i) {
        assert s'.loader.state == Normal && s.position <= m;
      } else {
        assert s'.position == s.position;
      }
    } else if s.loader.state == Buf0 || s.loader.state == Buf2 || s.loader.state == Buf4 {
      assert s'.position == s.loader.loadCounter;
    } else {
      assert s'.position == s.position;
    }
  }

  /** Loading a maximum M from 1 to 2^30 - 2 while the position is within 0..M establishes the
      invariant. */
  lemma MaximumLoaded(s: Regs, i: Ctrl)
    requires s.loader.state == Normal && s.loader.maskStrobe && 1 <= s.loader.mask <= WORD30 - 2
    requires s.motor.state == Idle || s.motor.state == Tracking
    requires !s.clock.step && s.position <= s.loader.mask && s.position != s.loader.max
    requires !i.maxStrobe && (i.loadStrobe ==> s.loader.pulseLoad)
    ensures Ranged(Tick(s, i), s.loader.mask)
    ensures 2 <= s.loader.mask <= WORD30 - 3 ==> InRange(Tick(s, i), s.loader.mask)
  {
    var s' := Tick(s, i);
    assert s'.loader.max == s.loader.mask + 1 && s'.position == s.position;
  }

  /** A run with one unit per step and allowed inputs. */
  ghost predicate Regular(s: Regs, m: Word30, ins: seq<Ctrl>)
    decreases |ins|
  {
    s.delta == 1 &&
    (ins != [] ==> Allowed(ins[0], m) && Regular(Tick(s, ins[0]), m, ins[1..]))
  }

  /** Whatever commands, directions, speeds, backlash and loads do: every state of the run is
      in range, and no step is counted out of range. */
  lemma {:induction false} RangeInEveryRun(s: Regs, m: Word30, ins: seq<Ctrl>, i: Ctrl)
    requires Ranged(s, m) && Regular(s, m, ins)
    ensures var r := Exec(s, ins);
            && Ranged(r, m)
            && (0 <= r.position <= m || r.position == m + 1 || r.position == WORD30 - 1)
            && (Out(r.position, m) ==> !StepCounted(r, i))
    decreases |ins|
  {
    if ins == [] {
      if Out(s.position, m) {
        NothingCountedOut(s, m, i);
      }
    } else {
      RangedTick(s, m, ins[0]);
      RangeInEveryRun(Tick(s, ins[0]), m, ins[1..], i);
    }
  }

  /** With M = 0 this fails: the first position above the range is replaced by 2. */
  lemma ZeroMaximum(s: Regs, i: Ctrl, j: Ctrl)
    requires s.loader.max == 1 && s.position == 1 && s.loader.state == Normal && !s.clock.step
    ensures Exec(s, [i, j]).position == 2
  {
    var t := Tick(s, i);
    assert t.loader.state == Buf0 && t.loader.loadCounter == 2;
    assert [i, j][1..] == [j] && [j][1..] == [];
    assert Exec(s, [i, j]) == Exec(t, [j]) == Exec(Tick(t, j), []);
  }

  lemma NothingCountedOut(s: Regs, m: Word30, i: Ctrl)
    requires Ranged(s, m) && Out(s.position, m)
    ensures !StepCounted(s, i)
  {
  }

  /** Ticks until an out-of-range position has been replaced. */
  function ToReload(s: Regs, period: int): int {
    if s.loader.state == Buf0 then 1
    else if s.clock.step then ToToggle(s.clock, period) + 2
    else 2
  }

  /** The replacement comes within one half cycle and two ticks, by 2 at the top and M - 1 at the
      bottom, with no step counted in between. */
  lemma {:induction false} OutIsReplaced(s: Regs, m: Word30, ins: seq<Ctrl>, period: int)
    requires InRange(s, m) && Regular(s, m, ins)
    requires period >= 1 && InCycle(s.clock, period) && ConstantPeriod(s, ins, period)
    requires Out(s.position, m) && |ins| == ToReload(s, period)
    ensures Exec(s, ins).position == Reload(s.position, m)
    ensures Steps(s, ins) == 0
    decreases |ins|
  {
    ClockTick(s.clock, s.trigger, period, NextClock(s.clock, s.trigger, period));
    RangeTick(s, m, ins[0]);
    NothingCountedOut(s, m, ins[0]);
    var s' := Tick(s, ins[0]);
    if s.loader.state == Buf0 {
      assert s'.position == s.loader.loadCounter;
      assert ins[1..] == [];
    } else {
      assert s.loader.state == Normal;
      assert s'.position == s.position;
      if !s.clock.step {
        assert s'.loader.state == Buf0;
      }
      OutIsReplaced(s', m, ins[1..], period);
    }
  }

  // ---------------------------------------------------------------------------------
  // No pulse is lost
  // ---------------------------------------------------------------------------------

  /** Position of a state in the load sequence. */
  function Phase(l: LoadState): int {
    match l
    case Normal => 0
    case Buf0 => 1
    case Buf1 => 2
    case Buf2 => 3
    case Buf3 => 4
    case Buf4 => 5
  }

  /** A load sequence starts one tick after the clock has fallen and keeps step with it. */
  ghost predicate Synced(s: Regs, m: Word30, period: int) {
    && period >= 13
    && InRange(s, m) && InCycle(s.clock, period)
    && (s.loader.state == Normal && Out(s.position, m) && !s.clock.step ==> SinceToggle(s.clock, period) == 0)
    && (s.loader.state != Normal ==>
          !s.clock.step && SinceToggle(s.clock, period) == Phase(s.loader.state))
  }

  lemma SyncedTick(s: Regs, m: Word30, i: Ctrl, period: int)
    requires Synced(s, m, period) && Allowed(i, m) && !i.loadStrobe && Tick(s, i).delta == 1
    requires s.backlash.period == period && !Resets(s.trigger)
    ensures Synced(Tick(s, i), m, period)
    ensures Rises(s, i) ==> Tick(s, i).loader.state == Normal && !Tick(s, i).loader.counterClk
  {
    RangeTick(s, m, i);
    ClockTick(s.clock, s.trigger, period, NextClock(s.clock, s.trigger, period));
    HalvesAreLong(s.clock, period);
    var s' := Tick(s, i);
    if s.loader.state == Normal {
      if s'.loader.state == Buf0 {
        assert Out(s.position, m) && !s.clock.step;
      } else if Out(s'.position, m) && !Out(s.position, m) {
        assert s.clock.step;
      }
    } else {
      assert s'.position <= m;
    }
  }

  lemma HalvesAreLong(c: Clock, period: int)
    requires period >= 13 && InCycle(c, period)
    ensures SinceToggle(c, period) + ToToggle(c, period) >= 7
  {
  }

  ghost predicate NoLoads(ins: seq<Ctrl>) {
    forall k :: 0 <= k < |ins| ==> !ins[k].loadStrobe
  }

  lemma {:induction false} SyncedRun(s: Regs, m: Word30, ins: seq<Ctrl>, period: int)
    requires Synced(s, m, period)
    requires Regular(s, m, ins) && ConstantPeriod(s, ins, period) && NoLoads(ins)
    ensures Synced(Exec(s, ins), m, period)
    ensures Exec(s, ins).backlash.period == period && !Resets(Exec(s, ins).trigger)
    decreases |ins|
  {
    if ins != [] {
      SyncedTick(s, m, ins[0], period);
      SyncedRun(Tick(s, ins[0]), m, ins[1..], period);
    }
  }

  /** With a constant period P >= 13 and no loads from outside: whenever the step clock rises,
      in any reachable state, the counter follows on the next tick, and counts the pulse exactly
      when the motor is in use and no backlash is being taken up. */
  lemma NoPulseLost(s: Regs, m: Word30, ins: seq<Ctrl>, i: Ctrl, i': Ctrl, period: int)
    requires Synced(s, m, period)
    requires Regular(s, m, ins) && ConstantPeriod(s, ins, period) && NoLoads(ins)
    requires Allowed(i, m) && !i.loadStrobe && Tick(Exec(s, ins), i).delta == 1
    requires Rises(Exec(s, ins), i)
    ensures var r := Tick(Exec(s, ins), i);
            StepCounted(r, i') <==> r.motor.state != Idle && r.backlash.state != Processing
  {
    SyncedRun(s, m, ins, period);
    SyncedTick(Exec(s, ins), m, i, period);
  }

  // ---------------------------------------------------------------------------------
  // Commands that never end
  // ---------------------------------------------------------------------------------

  /** A target that this direction never meets from here: going up the counter leaves the range at
      M + 1 and is put back to 2, going down it leaves at 2^30 - 1 and is put back to M - 1. */
  predicate OutOfReach(position: Word30, target: Word30, up: bool, m: Word30) {
    if up then position <= m + 1 && (m + 1 < target || (target <= 1 && target < position))
    else
      || (target == m && (position < m || position == WORD30 - 1))
      || (m < target < WORD30 - 1 && (position <= m || position == WORD30 - 1))
  }

  ghost predicate Chasing(s: Regs, m: Word30) {
    && InRange(s, m)
    && OutOfReach(s.position, s.motor.target, s.motor.direction, m)
    && (s.loader.state != Normal ==> OutOfReach(s.loader.loadCounter, s.motor.target, s.motor.direction, m))
    && (s.motor.buf == Command || s.motor.buf == Park) && !s.settings.cancel
    && (s.motor.state == Idle || (s.motor.state == s.motor.buf && s.pipe.dir0 == s.motor.direction))
  }

  lemma ChasingTick(s: Regs, m: Word30, i: Ctrl)
    requires Chasing(s, m) && Allowed(i, m) && !i.loadStrobe && !i.cancel && Tick(s, i).delta == 1
    ensures Chasing(Tick(s, i), m) && Tick(s, i).motor.buf == s.motor.buf
  {
    RangeTick(s, m, i);
    StillChasing(s.motor, s.settings, s.clock.step, s.position, s.loader.max2);
    StaysOutOfReach(s, m, i);
    hide NextMotor, NextLoader, NextClock, NextBacklash, OutOfReach;
  }

  lemma StillChasing(motor: Motor, settings: Settings, step: bool, position: Word30, max2: Word30)
    requires (motor.buf == Command || motor.buf == Park) && motor.target != position && !settings.cancel
    ensures var r := NextMotor(motor, settings, step, position, max2);
            r.state == r.buf == motor.buf && r.target == motor.target && r.direction == motor.direction
  {
  }

  lemma StaysOutOfReach(s: Regs, m: Word30, i: Ctrl)
    requires Chasing(s, m) && !i.loadStrobe && Tick(s, i).delta == 1
    ensures OutOfReach(Tick(s, i).position, s.motor.target, s.motor.direction, m)
    ensures Tick(s, i).loader.state != Normal ==>
              OutOfReach(Tick(s, i).loader.loadCounter, s.motor.target, s.motor.direction, m)
  {
    hide NextMotor, NextClock, NextBacklash, NextSettings, NextSlack;
  }

  ghost predicate NeitherLoadNorCancel(ins: seq<Ctrl>) {
    forall k :: 0 <= k < |ins| ==> !ins[k].loadStrobe && !ins[k].cancel
  }

  lemma {:induction false} ChasingForEver(s: Regs, m: Word30, ins: seq<Ctrl>)
    requires Chasing(s, m) && Regular(s, m, ins) && NeitherLoadNorCancel(ins)
    ensures Exec(s, ins).motor.buf == s.motor.buf
    decreases |ins|
  {
    if ins != [] {
      ChasingTick(s, m, ins[0]);
      ChasingForEver(Tick(s, ins[0]), m, ins[1..]);
    }
  }

  /** With M loaded, a command or a park that has just been accepted never ends unless it is
      cancelled when its target is out of reach: 0 or 1 going up from beyond it, M going down from
      below, and anything outside the range but the first position there. */
  lemma NeverEnds(s: Regs, m: Word30, ins: seq<Ctrl>)
    requires InRange(s, m) && s.loader.state == Normal && s.position <= m
    requires s.motor.state == Idle && (s.motor.buf == Command || s.motor.buf == Park) && !s.settings.cancel
    requires OutOfReach(s.position, s.motor.target, s.motor.direction, m)
    requires Regular(s, m, ins) && NeitherLoadNorCancel(ins)
    ensures Exec(s, ins).motor.buf == s.motor.buf
  {
    ChasingForEver(s, m, ins);
  }

  lemma IdleCountsNothing(s: Regs, i: Ctrl)
    requires s.motor.state == Idle && s.loader.state == Normal
    ensures Tick(s, i).position == s.position && !Tick(s, i).settings.cancel
  {
    assert !NextLoader(s.loader, i, Idle, s.backlash.state, s.clock.step, s.position).cntEnable;
  }

  /** A command, relative or absolute, is accepted on the next tick. */
  predicate Commanded(s: Regs) {
    s.motor.state == Idle && s.motor.buf == Idle && !s.motor.cmdBuf && s.settings.cmd
  }

  lemma AcceptedCommand(s: Regs, i: Ctrl)
    requires Commanded(s) && s.loader.state == Normal
    ensures var a := Tick(s, i);
            && a.motor.state == Idle && a.motor.buf == Command && !a.settings.cancel
            && a.motor.direction == s.settings.direction && a.position == s.position
            && a.motor.target
               == if s.settings.goto then s.settings.duration
                  else RelativeTarget(s.position, s.settings.duration, s.settings.direction, s.loader.max2)
  {
    IdleCountsNothing(s, i);
  }

  lemma StaysNormal(s: Regs, m: Word30, i: Ctrl)
    requires InRange(s, m) && s.loader.state == Normal && s.position <= m && !i.loadStrobe
    ensures Tick(s, i).loader.state == Normal
  {
  }

  /** A relative command down by exactly the present position is not a command to position 0: its
      target is M, and from below M it never ends. */
  lemma DownToZeroNeverEnds(s: Regs, m: Word30, i: Ctrl, ins: seq<Ctrl>)
    requires InRange(s, m) && s.loader.state == Normal && s.loader.max2 == m
    requires s.position < m && s.position == s.settings.duration
    requires Commanded(s) && !s.settings.goto && !s.settings.direction
    requires Allowed(i, m) && Regular(Tick(s, i), m, ins) && NeitherLoadNorCancel([i] + ins)
    ensures Exec(Tick(s, i), ins).motor.buf == Command
  {
    RestAllowed(s, m, i, ins);
    hide Tick, InRange;
    AcceptedCommand(s, i);
    NeverEnds(Tick(s, i), m, ins);
  }

  /** A relative command up by just enough to reach M + 1: its target is 1, and from 2 or more it
      never ends. */
  lemma UpToOneNeverEnds(s: Regs, m: Word30, i: Ctrl, ins: seq<Ctrl>)
    requires InRange(s, m) && s.loader.state == Normal && s.loader.max2 == m
    requires 2 <= s.position <= m && s.position + s.settings.duration == m + 1
    requires Commanded(s) && !s.settings.goto && s.settings.direction
    requires Allowed(i, m) && Regular(Tick(s, i), m, ins) && NeitherLoadNorCancel([i] + ins)
    ensures Exec(Tick(s, i), ins).motor.buf == Command
  {
    RestAllowed(s, m, i, ins);
    hide Tick, InRange;
    AcceptedCommand(s, i);
    NeverEnds(Tick(s, i), m, ins);
  }

  lemma RestAllowed(s: Regs, m: Word30, i: Ctrl, ins: seq<Ctrl>)
    requires InRange(s, m) && s.loader.state == Normal && s.position <= m
    requires Allowed(i, m) && Regular(Tick(s, i), m, ins) && NeitherLoadNorCancel([i] + ins)
    ensures InRange(Tick(s, i), m) && Tick(s, i).loader.state == Normal && NeitherLoadNorCancel(ins)
    ensures 2 <= m <= WORD30 - 3
  {
    assert ([i] + ins)[0] == i;
    StaysNormal(s, m, i);
    RangeTick(s, m, i);
    forall k | 0 <= k < |ins| ensures !ins[k].loadStrobe && !ins[k].cancel {
      assert ([i] + ins)[k + 1] == ins[k];
    }
  }

  // ---------------------------------------------------------------------------------
  // Maxima 0 and 1
  // ---------------------------------------------------------------------------------

  /** A position that is its own replacement: 2 with M = 1, and 2^30 - 1 with M = 0. */
  ghost predicate Stuck(s: Regs) {
    && ((s.loader.max == 2 && s.position == 2) || (s.loader.max == 1 && s.position == WORD30 - 1))
    && (s.loader.state == Normal ==> (s.clock.step ==> s.loader.counterClk))
    && (s.loader.state != Normal ==> s.loader.loadCounter == s.position)
    && (s.loader.state == Buf0 || s.loader.state == Buf2 || s.loader.state == Buf4 ==> !s.loader.counterClk)
    && (s.loader.state == Buf1 || s.loader.state == Buf3 ==> s.loader.counterClk)
  }

  lemma StuckTick(s: Regs, i: Ctrl)
    requires Stuck(s)
    ensures Stuck(Tick(s, i)) && Tick(s, i).position == s.position && !StepCounted(s, i)
  {
    hide NextMotor, NextClock, NextBacklash, NextSettings, NextSlack;
  }

  /** Whatever the inputs, commands, loads and new maxima included, no step is counted again. */
  lemma {:induction false} StuckForEver(s: Regs, ins: seq<Ctrl>)
    requires Stuck(s)
    ensures Exec(s, ins).position == s.position && Steps(s, ins) == 0
    decreases |ins|
  {
    if ins != [] {
      hide Stuck, Tick;
      StuckTick(s, ins[0]);
      StuckForEver(Tick(s, ins[0]), ins[1..]);
    }
  }

  /** The first step up from M = 1, or down from M = 0, gets there. */
  lemma GetsStuck(s: Regs, i: Ctrl)
    requires StepCounted(s, i) && s.loader.state == Normal && Tick(s, i).delta == 1
    requires if Tick(s, i).pipe.dir0 then s.loader.max == 2 && s.position == 1
             else s.loader.max == 1 && s.position == 0
    requires s.clock.step && Tick(s, i).loader.state == Normal
    ensures Stuck(Tick(s, i))
  {
    assert Tick(s, i).loader.max == s.loader.max;
  }
}
