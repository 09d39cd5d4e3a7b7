/** Tracking with hdl/drv8825.vhd, from the sampled control ports alone: where the ports take the
    motor, at which rate and in which direction it counts steps, and how it stops. */
module Tracking {
  import opened Drv8825
  import opened StepClock
  import opened RelativeCommand

  /** What the ports ask for. */
  datatype Course = Course(direction: bool, mode: nat, tick: Word30, pecEnable: bool, pec: int, isTmc: bool)

  function Period(g: Course): int {
    g.tick + if g.pecEnable then g.pec else 0
  }

  /** Tracking is enabled on this course, with no command, park, load or backlash. */
  predicate Asks(i: Ctrl, g: Course) {
    && i.trackEnable && i.trackDirection == g.direction && i.trackMode == g.mode && i.trackTick == g.tick
    && i.pecEnable == g.pecEnable && (g.pecEnable ==> i.pec == g.pec) && i.isTmc == g.isTmc
    && !i.go && !i.park && !i.loadStrobe && i.backlashDuration == 0
  }

  predicate AllAsk(ins: seq<Ctrl>, g: Course) {
    forall k :: 0 <= k < |ins| ==> Asks(ins[k], g)
  }

  /** The position is not one that the counter replaces. */
  predicate Inside(s: Regs) {
    MaxLoaded(s.loader) ==> s.position != s.loader.max && s.position != WORD30 - 1
  }

  /** It stays so throughout the run. */
  predicate StaysInside(s: Regs, ins: seq<Ctrl>)
    decreases |ins|
  {
    ins != [] ==> Inside(s) && StaysInside(Tick(s, ins[0]), ins[1..])
  }

  predicate InUse(m: MotorState) {
    m == Idle || m == Tracking
  }

  /** No command or park is executing or about to start, no load and no backlash. */
  predicate AtRest(s: Regs) {
    && InUse(s.motor.state) && InUse(s.motor.buf)
    && (s.settings.cmd ==> s.motor.cmdBuf) && (s.settings.park ==> s.motor.parkBuf)
    && NoBacklash(s) && s.loader.state == Normal && s.clock.count >= 0
  }

  /** How far the ports have come after n ticks. */
  predicate Come(s: Regs, n: nat, g: Course) {
    && AtRest(s) && Period(g) >= 1
    && (n >= 1 ==>
          && s.settings.trackEnabled && s.settings.trackDirection == g.direction && s.settings.trackMode == g.mode
          && s.settings.trackTick == g.tick && s.settings.pecEnable == g.pecEnable
          && (g.pecEnable ==> s.settings.trackPec == g.pec) && !s.settings.cmd && !s.settings.park)
    && (n >= 2 ==>
          && s.motor.buf == MotorState.Tracking && s.motor.direction == g.direction && s.motor.mode == g.mode
          && s.motor.speed == Period(g))
    && (n >= 3 ==>
          && s.motor.state == MotorState.Tracking && s.pipe.dir0 == g.direction && s.pipe.speed0 == Period(g)
          && s.pipe.modeBuf == g.mode)
    && (n >= 4 ==> s.pipe.speed1 == Period(g) && s.backlash.modeOut == g.mode)
    && (n >= 5 ==> s.backlash.period == Period(g) && !Resets(s.trigger) && s.delta == DeltaOf(g.mode, g.isTmc))
    && (n >= 6 ==> InCycle(s.clock, Period(g)))
    && (n >= 7 ==> (Pending(s) <==> ToRise(s.clock, Period(g)) == Period(g) + 1))
  }

  lemma MotorTick(s: Regs, n: nat, i: Ctrl, g: Course)
    requires Come(s, n, g) && Asks(i, g)
    ensures var t := Tick(s, i);
            && InUse(t.motor.state) && InUse(t.motor.buf) && NoBacklash(t)
            && !t.settings.cmd && !t.settings.park
            && t.settings.trackEnabled && t.settings.trackDirection == g.direction && t.settings.trackMode == g.mode
            && t.settings.trackTick == g.tick && t.settings.pecEnable == g.pecEnable
            && (g.pecEnable ==> t.settings.trackPec == g.pec)
            && (n >= 1 ==>
                  && t.motor.buf == MotorState.Tracking && t.motor.direction == g.direction && t.motor.mode == g.mode
                  && t.motor.speed == Period(g))
            && (n >= 2 ==> t.motor.state == MotorState.Tracking)
  {
    hide NextLoader, NextClock, NextPosition, NextTrigger;
  }

  lemma PipeTick(s: Regs, n: nat, i: Ctrl, g: Course)
    requires Come(s, n, g) && Asks(i, g)
    ensures var t := Tick(s, i);
            && (n >= 2 ==> t.pipe.dir0 == g.direction && t.pipe.speed0 == Period(g) && t.pipe.modeBuf == g.mode)
            && (n >= 3 ==> t.pipe.speed1 == Period(g) && t.backlash.modeOut == g.mode)
            && (n >= 4 ==> t.backlash.period == Period(g) && !Resets(t.trigger) && t.delta == DeltaOf(g.mode, g.isTmc))
  {
    hide NextLoader, NextClock, NextPosition, NextSettings, NextMotor, DeltaOf;
  }

  lemma LoaderTick(s: Regs, i: Ctrl)
    requires s.loader.state == Normal && !i.loadStrobe && Inside(s)
    ensures Tick(s, i).loader.state == Normal && Tick(s, i).loader.counterClk == s.clock.step
    ensures !Tick(s, i).loader.loadCount
  {
    hide NextClock, NextPosition, NextSettings, NextMotor, NextBacklash;
  }

  lemma ClockStays(c: Clock, trigger: Trigger, period: int)
    requires c.count >= 0
    ensures NextClock(c, trigger, period).count >= 0
    ensures period >= 1 && !Resets(trigger) ==> InCycle(NextClock(c, trigger, period), period)
  {
  }

  lemma ComeTick(s: Regs, n: nat, i: Ctrl, g: Course)
    requires Come(s, n, g) && Asks(i, g) && Inside(s)
    ensures Come(Tick(s, i), n + 1, g)
  {
    MotorTick(s, n, i, g);
    PipeTick(s, n, i, g);
    LoaderTick(s, i);
    ClockOf(s, i);
    ClockStays(s.clock, s.trigger, s.backlash.period);
    if n >= 6 {
      PhaseTick(s, n, i, g);
    }
    hide Tick, NextClock, NoBacklash, ToRise, Period, DeltaOf;
  }

  /** A pulse is due exactly on the tick after the clock has risen. */
  lemma PhaseTick(s: Regs, n: nat, i: Ctrl, g: Course)
    requires Come(s, n, g) && n >= 6 && Asks(i, g) && Inside(s)
    ensures Pending(Tick(s, i)) <==> ToRise(Tick(s, i).clock, Period(g)) == Period(g) + 1
    ensures ToRise(Tick(s, i).clock, Period(g))
            == (if ToRise(s.clock, Period(g)) == 1 then Period(g) + 1 else ToRise(s.clock, Period(g)) - 1)
    ensures 1 <= ToRise(s.clock, Period(g)) <= Period(g) + 1
  {
    ClockOf(s, i);
    LoaderTick(s, i);
    ClockTick(s.clock, s.trigger, Period(g), NextClock(s.clock, s.trigger, Period(g)));
    hide Tick, NextClock;
  }

  lemma {:induction false} ComeRun(s: Regs, n: nat, ins: seq<Ctrl>, g: Course)
    requires Come(s, n, g) && AllAsk(ins, g) && StaysInside(s, ins)
    ensures Come(Exec(s, ins), n + |ins|, g)
    decreases |ins|
  {
    hide Come, Tick, Inside;
    if ins != [] {
      hide Asks;
      ComeTick(s, n, ins[0], g);
      ComeRun(Tick(s, ins[0]), n + 1, ins[1..], g);
    }
  }

  /** From rest: seven ticks after the ports ask for it, whatever the motor did before, it tracks in
      their direction, mode and period, and the step clock runs on that period. */
  lemma TrackingStarts(s: Regs, ins: seq<Ctrl>, g: Course)
    requires AtRest(s) && Period(g) >= 1 && AllAsk(ins, g) && StaysInside(s, ins) && |ins| >= 7
    ensures var t := Exec(s, ins);
            && Come(t, 7, g)
            && t.motor.state == MotorState.Tracking && t.pipe.dir0 == g.direction
            && t.backlash.modeOut == g.mode && t.delta == DeltaOf(g.mode, g.isTmc)
            && t.backlash.period == g.tick + (if g.pecEnable then g.pec else 0)
            && InCycle(t.clock, t.backlash.period)
  {
    ComeRun(s, 0, ins, g);
    hide Tick, AtRest;
  }

  // ---------------------------------------------------------------------------------
  // Motion
  // ---------------------------------------------------------------------------------

  /** Ticks until the next step is counted, not counting the tick that does it. */
  function Wait(s: Regs, g: Course): int {
    if ToRise(s.clock, Period(g)) == Period(g) + 1 then 0 else ToRise(s.clock, Period(g))
  }

  /** The position after k steps of the course. */
  function Reached(x: Word30, g: Course, k: nat): Word30 {
    var way := DeltaOf(g.mode, g.isTmc) * k;
    (if g.direction then x + way else x - way) % WORD30
  }

  lemma CountingTick(s: Regs, n: nat, i: Ctrl, g: Course)
    requires Come(s, n, g) && n >= 7 && Asks(i, g) && Inside(s)
    ensures StepCounted(s, i) <==> Wait(s, g) == 0
    ensures Wait(Tick(s, i), g) == if Wait(s, g) == 0 then Period(g) else Wait(s, g) - 1
    ensures 0 <= Wait(s, g) <= Period(g)
    ensures Tick(s, i).position == Reached(s.position, g, if StepCounted(s, i) then 1 else 0)
  {
    PhaseTick(s, n, i, g);
    LoaderTick(s, i);
    MotorTick(s, n, i, g);
    PipeTick(s, n, i, g);
    Counted(s, i);
    hide NextLoader, NextClock, NextSettings, NextMotor, NextBacklash, ToRise, Period;
  }

  lemma Counted(s: Regs, i: Ctrl)
    requires s.loader.state == Normal && s.motor.state != Idle && s.backlash.state == Disabled
    ensures StepCounted(s, i) <==> Pending(s)
    ensures Tick(s, i).loader.cntEnable
  {
  }

  lemma {:induction false} MoreSteps(x: Word30, g: Course, j: nat, k: nat)
    ensures Reached(Reached(x, g, j), g, k) == Reached(x, g, j + k)
  {
    hide DeltaOf;
    var d := DeltaOf(g.mode, g.isTmc);
    assert d * (j + k) == d * j + d * k;
    if g.direction {
      ModTwice(x + d * j, d * k);
    } else {
      ModTwice(x - d * j, -(d * k));
    }
  }

  lemma ModTwice(a: int, b: int)
    ensures (a % WORD30 + b) % WORD30 == (a + b) % WORD30
  {
  }

  lemma NotMoved(x: Word30, g: Course)
    ensures Reached(x, g, 0) == x
  {
  }

  /** Steps within n ticks of which the first comes after w. */
  function Beats(w: int, period: int, n: nat): nat
    decreases n
  {
    if n == 0 then 0 else if w == 0 then 1 + Beats(period, period, n - 1) else Beats(w - 1, period, n - 1)
  }

  lemma {:induction false} BeatsInClosedForm(w: int, period: int, n: nat)
    requires period >= 1 && 0 <= w <= period
    ensures Beats(w, period, n) == (n + period - w) / (period + 1)
    decreases n
  {
    if n == 0 {
      DivisionIsUnique(period - w, period + 1, 0, period - w);
    } else if w == 0 {
      BeatsInClosedForm(period, period, n - 1);
      CycleCount(n - 1, period + 1);
    } else {
      BeatsInClosedForm(w - 1, period, n - 1);
    }
  }

  lemma OneBeat(w: int, period: int)
    requires period >= 1 && 0 <= w <= period
    ensures Beats(w, period, period + 1) == 1
  {
    BeatsInClosedForm(w, period, period + 1);
    DivisionIsUnique(period + 1 + period - w, period + 1, 1, period - w);
  }

  lemma {:induction false} CountedOnTheBeat(s: Regs, n: nat, ins: seq<Ctrl>, g: Course)
    requires Come(s, n, g) && n >= 7 && AllAsk(ins, g) && StaysInside(s, ins)
    ensures Steps(s, ins) == Beats(Wait(s, g), Period(g), |ins|)
    ensures Exec(s, ins).position == Reached(s.position, g, Steps(s, ins))
    decreases |ins|
  {
    hide Come, Tick, Inside, StepCounted, Reached, Wait, Period;
    if ins == [] {
      NotMoved(s.position, g);
    } else {
      hide Asks;
      CountingTick(s, n, ins[0], g);
      ComeTick(s, n, ins[0], g);
      var t := Tick(s, ins[0]);
      CountedOnTheBeat(t, n + 1, ins[1..], g);
      MoreSteps(s.position, g, if StepCounted(s, ins[0]) then 1 else 0, Steps(t, ins[1..]));
    }
  }

  lemma WaitBounds(s: Regs, n: nat, g: Course)
    requires Come(s, n, g) && n >= 7
    ensures 0 <= Wait(s, g) <= Period(g) && Period(g) >= 1
  {
    ClockTick(s.clock, s.trigger, Period(g), NextClock(s.clock, s.trigger, Period(g)));
  }

  /** From there on the steps are counted at exactly the period, and every one moves the position by
      the mode's units in the direction of the ports. */
  lemma TrackingMoves(s: Regs, n: nat, ins: seq<Ctrl>, g: Course)
    requires Come(s, n, g) && n >= 7 && AllAsk(ins, g) && StaysInside(s, ins)
    ensures Period(g) >= 1
    ensures Steps(s, ins) == (|ins| + Period(g) - Wait(s, g)) / (Period(g) + 1)
    ensures Exec(s, ins).position == Reached(s.position, g, Steps(s, ins))
  {
    hide *;
    WaitBounds(s, n, g);
    CountedOnTheBeat(s, n, ins, g);
    BeatsInClosedForm(Wait(s, g), Period(g), |ins|);
  }

  /** Exactly one step in every period + 1 ticks, by the mode's units in the direction of the ports. */
  lemma OneStepPerPeriod(s: Regs, before: seq<Ctrl>, cycle: seq<Ctrl>, g: Course)
    requires AtRest(s) && Period(g) >= 1 && |before| >= 7 && |cycle| == Period(g) + 1
    requires AllAsk(before, g) && StaysInside(s, before)
    requires AllAsk(cycle, g) && StaysInside(Exec(s, before), cycle)
    ensures var t := Exec(s, before);
            && Steps(t, cycle) == 1
            && Exec(t, cycle).position
               == (if g.direction then t.position + DeltaOf(g.mode, g.isTmc)
                   else t.position - DeltaOf(g.mode, g.isTmc)) % WORD30
  {
    hide *;
    TrackingStarts(s, before, g);
    var t := Exec(s, before);
    WaitBounds(t, 7, g);
    CountedOnTheBeat(t, 7, cycle, g);
    OneBeat(Wait(t, g), Period(g));
    OneReached(t.position, g);
  }

  lemma OneReached(x: Word30, g: Course)
    ensures Reached(x, g, 1)
            == (if g.direction then x + DeltaOf(g.mode, g.isTmc) else x - DeltaOf(g.mode, g.isTmc)) % WORD30
  {
  }

  // ---------------------------------------------------------------------------------
  // Stopping
  // ---------------------------------------------------------------------------------

  predicate Off(i: Ctrl) {
    !i.trackEnable && !i.go && !i.park && !i.loadStrobe && i.backlashDuration == 0
  }

  predicate AllOff(ins: seq<Ctrl>) {
    forall k :: 0 <= k < |ins| ==> Off(ins[k])
  }

  predicate Stopping(s: Regs, n: nat) {
    && AtRest(s)
    && (n >= 1 ==> !s.settings.trackEnabled && !s.settings.cmd && !s.settings.park)
    && (n >= 2 ==> s.motor.buf == Idle)
    && (n >= 3 ==> s.motor.state == Idle)
  }

  lemma StoppingTick(s: Regs, n: nat, i: Ctrl)
    requires Stopping(s, n) && Off(i) && Inside(s)
    ensures Stopping(Tick(s, i), n + 1)
    ensures n >= 3 ==> !StepCounted(s, i) && Tick(s, i).position == s.position
  {
    LoaderTick(s, i);
    ClockOf(s, i);
    ClockStays(s.clock, s.trigger, s.backlash.period);
    StopMotor(s, n, i);
    if n >= 3 {
      IdleIsStill(s, i);
    }
    hide Tick, NoBacklash, StepCounted;
  }

  lemma StopMotor(s: Regs, n: nat, i: Ctrl)
    requires Stopping(s, n) && Off(i)
    ensures var t := Tick(s, i);
            && InUse(t.motor.state) && InUse(t.motor.buf) && NoBacklash(t)
            && !t.settings.trackEnabled && !t.settings.cmd && !t.settings.park
            && (n >= 1 ==> t.motor.buf == Idle) && (n >= 2 ==> t.motor.state == Idle)
  {
    hide NextLoader, NextClock, NextPosition;
  }

  lemma IdleIsStill(s: Regs, i: Ctrl)
    requires s.motor.state == Idle && s.loader.state == Normal
    ensures !StepCounted(s, i) && Tick(s, i).position == s.position
  {
    assert !NextLoader(s.loader, i, Idle, s.backlash.state, s.clock.step, s.position).cntEnable;
  }

  lemma {:induction false} StoppingRun(s: Regs, n: nat, ins: seq<Ctrl>)
    requires Stopping(s, n) && AllOff(ins) && StaysInside(s, ins)
    ensures Stopping(Exec(s, ins), n + |ins|)
    ensures n >= 3 ==> Steps(s, ins) == 0 && Exec(s, ins).position == s.position
    decreases |ins|
  {
    if ins != [] {
      hide Stopping, Tick, Inside, StepCounted, Off;
      StoppingTick(s, n, ins[0]);
      StoppingRun(Tick(s, ins[0]), n + 1, ins[1..]);
    }
  }

  /** Three ticks after tracking is switched off the motor is idle, and while it stays off no step is
      counted again. */
  lemma TrackingStops(s: Regs, first: seq<Ctrl>, rest: seq<Ctrl>)
    requires AtRest(s) && |first| == 3 && AllOff(first) && AllOff(rest)
    requires StaysInside(s, first) && StaysInside(Exec(s, first), rest)
    ensures var t := Exec(s, first);
            && t.motor.state == Idle && Exec(t, rest).motor.state == Idle
            && Steps(t, rest) == 0 && Exec(t, rest).position == t.position
  {
    StoppingRun(s, 0, first);
    StoppingRun(Exec(s, first), 3, rest);
    hide Tick, AtRest, Inside, StepCounted;
  }
}
