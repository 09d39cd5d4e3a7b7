/** A command of hdl/drv8825.vhd, relative or absolute, from the tick on which it is accepted to the tick on
    which the controller is idle again: it makes exactly the commanded number of counted steps,
    through every pipeline delay and whatever the old speed and phase of the step clock. */
module RelativeCommand {
  import opened Drv8825
  import opened StepClock

  /** The command: `count` steps of `delta` units from `start`. */
  datatype Plan = Plan(start: Word30, up: bool, delta: nat, count: nat, period: int, isTmc: bool)

  /** The position after j of the steps. */
  function Along(p: Plan, j: int): int {
    if p.up then p.start + p.delta * j else p.start - p.delta * j
  }

  ghost predicate Clear(p: Plan, l: Loader) {
    forall j :: 0 <= j <= p.count ==>
      && 0 <= Along(p, j) < WORD30
      && (MaxLoaded(l) ==> Along(p, j) != l.max && Along(p, j) != WORD30 - 1)
  }

  /** Inputs during the run: no cancel, no backlash, motor type unchanged. */
  predicate Quiet(i: Ctrl, p: Plan) {
    i.isTmc == p.isTmc && !i.cancel && i.backlashDuration == 0
  }

  predicate ModesAgree(s: Regs, p: Plan) {
    && DeltaOf(s.motor.mode, p.isTmc) == p.delta
    && DeltaOf(s.pipe.modeBuf, p.isTmc) == p.delta
    && DeltaOf(s.backlash.modeOut, p.isTmc) == p.delta
  }

  predicate NoBacklash(s: Regs) {
    && s.backlash.state == Disabled
    && s.slack.duration == 0
    && s.slack.durationIn == 0
  }

  /** The command is executing and j of its steps have been counted. */
  ghost predicate Running(s: Regs, p: Plan, j: nat) {
    && j <= p.count && p.delta >= 1
    && s.motor.state == Command && s.motor.buf == Command
    && s.motor.direction == p.up && s.pipe.dir0 == p.up
    && s.motor.target == Along(p, p.count)
    && s.motor.speed == p.period && s.pipe.speed0 == p.period
    && ModesAgree(s, p) && NoBacklash(s) && !s.settings.cancel
    && s.loader.state == Normal && Clear(p, s.loader)
    && s.position == Along(p, j)
  }

  /** The step clock has risen and the counter is about to follow. */
  predicate Pending(s: Regs) {
    s.clock.step && !s.loader.counterClk
  }

  lemma StepsApart(p: Plan, i: int, j: int)
    requires p.delta >= 1 && i < j
    ensures Along(p, i) != Along(p, j)
  {
    ProductIsPositive(p.delta, j - i);
    assert p.delta * (j - i) == p.delta * j - p.delta * i;
  }

  lemma ProductIsPositive(a: int, b: int)
    requires a >= 1 && b >= 1
    ensures a * b >= 1
  {
  }

  lemma NextAlong(p: Plan, j: int)
    ensures Along(p, j + 1) == if p.up then Along(p, j) + p.delta else Along(p, j) - p.delta
  {
    assert p.delta * (j + 1) == p.delta * j + p.delta;
  }

  /** The command has just been given up by state_motor_buf; state_motor still follows it. */
  ghost predicate Leaving(s: Regs, p: Plan) {
    && s.motor.state == Command && s.motor.buf == Idle
    && s.backlash.state == Disabled
    && s.loader.state == Normal && !s.loader.counterClk && !s.clock.step && Clear(p, s.loader)
    && s.position == Along(p, p.count)
  }

  /** What one tick does to the command, leaving the step clock aside. */
  lemma CommandTick(s: Regs, p: Plan, j: nat, i: Ctrl)
    requires Running(s, p, j) && Quiet(i, p)
    requires Pending(s) ==> j < p.count
    ensures StepCounted(s, i) <==> Pending(s)
    ensures Tick(s, i).loader.counterClk == s.clock.step
    ensures Tick(s, i).position == Along(p, if Pending(s) then j + 1 else j)
    ensures !(j == p.count && !s.clock.step) ==> Running(Tick(s, i), p, if Pending(s) then j + 1 else j)
    ensures j == p.count && !s.clock.step && !Tick(s, i).clock.step ==> Leaving(Tick(s, i), p)
  {
    if j < p.count {
      StepsApart(p, j, p.count);
    }
    NextAlong(p, j);
    var s' := Tick(s, i);
    assert Along(p, j) == s.position;
    assert s'.loader.state == Normal && s'.loader.cntEnable && !s'.loader.loadCount;
    if Pending(s) {
      assert 0 <= Along(p, j + 1) < WORD30;
    }
  }

  /** After leaving: the counter is still enabled for one tick and nothing is counted. */
  lemma LeavingTicks(s: Regs, p: Plan, i: Ctrl, i': Ctrl)
    requires Leaving(s, p)
    ensures !StepCounted(s, i) && !StepCounted(Tick(s, i), i')
    ensures Tick(s, i).position == Tick(Tick(s, i), i').position == Along(p, p.count)
    ensures Tick(s, i).motor.state == Idle
  {
    assert Along(p, p.count) == s.position;
    var a := Tick(s, i);
    assert a.loader.state == Normal && !a.loader.counterClk;
    assert Tick(a, i').loader.cntEnable == false;
  }

  // ---------------------------------------------------------------------------------
  // With the step clock
  // ---------------------------------------------------------------------------------

  predicate SteadyClock(s: Regs, period: int) {
    && s.pipe.speed1 == period && s.backlash.period == period
    && !Resets(s.trigger) && InCycle(s.clock, period)
  }

  /** When the last step has been counted, the clock is still high, or has only just fallen. */
  predicate EndsCleanly(s: Regs, p: Plan, j: nat) {
    j == p.count ==> if s.clock.step then s.loader.counterClk else SinceToggle(s.clock, p.period) == 0
  }

  ghost predicate Steadily(s: Regs, p: Plan, j: nat) {
    && p.period >= 3
    && Running(s, p, j) && SteadyClock(s, p.period) && EndsCleanly(s, p, j)
  }

  lemma SteadyTick(s: Regs, p: Plan, j: nat, i: Ctrl)
    requires Steadily(s, p, j) && Quiet(i, p)
    ensures StepCounted(s, i) <==> Pending(s)
    ensures Pending(s) ==> j < p.count
    ensures if j == p.count && !s.clock.step then Leaving(Tick(s, i), p)
            else Steadily(Tick(s, i), p, if Pending(s) then j + 1 else j)
  {
    CommandTick(s, p, j, i);
    ClockTick(s.clock, s.trigger, p.period, NextClock(s.clock, s.trigger, p.period));
  }

  lemma ClockAfter(a: Regs, i: Ctrl)
    ensures Tick(a, i).clock == NextClock(a.clock, a.trigger, a.backlash.period)
  {
  }

  function Cycles(n: int, period: int): int {
    n * (period + 1)
  }

  lemma CyclesStep(n: int, period: int)
    ensures Cycles(n, period) == Cycles(n - 1, period) + period + 1
  {
  }

  /** An upper bound on the ticks until the command is given up. */
  function Budget(s: Regs, p: Plan, j: nat): int {
    var rises := p.count - j - (if Pending(s) then 1 else 0);
    if rises >= 1 then ToRise(s.clock, p.period) + Cycles(rises - 1, p.period) + p.period + 2
    else if s.clock.step then ToToggle(s.clock, p.period) + 1
    else 1
  }

  lemma BudgetShrinks(s: Regs, p: Plan, j: nat, i: Ctrl)
    requires Steadily(s, p, j) && Quiet(i, p)
    requires !(j == p.count && !s.clock.step)
    ensures var j' := if Pending(s) then j + 1 else j;
            0 < Budget(Tick(s, i), p, j') < Budget(s, p, j)
  {
    hide Tick, NextClock;
    ClockAfter(s, i);
    CommandTick(s, p, j, i);
    SteadyTick(s, p, j, i);
    var c' := NextClock(s.clock, s.trigger, p.period);
    ClockTick(s.clock, s.trigger, p.period, c');
    ClockTick(c', Steady, p.period, NextClock(c', Steady, p.period));
    var j' := if Pending(s) then j + 1 else j;
    var rises := p.count - j - (if Pending(s) then 1 else 0);
    var rises' := p.count - j' - (if Pending(Tick(s, i)) then 1 else 0);
    CyclesStep(rises - 1, p.period);
    CyclesArePositive(rises - 1, p.period);
    CyclesArePositive(rises' - 1, p.period);
  }

  lemma CyclesArePositive(n: int, period: int)
    requires period >= 0
    ensures n >= 0 ==> Cycles(n, period) >= 0
  {
  }

  lemma UnfoldRun(s: Regs, ins: seq<Ctrl>, m: nat)
    requires 1 <= m <= |ins|
    ensures Exec(s, ins[..m]) == Exec(Tick(s, ins[0]), ins[1..][..m - 1])
    ensures Steps(s, ins[..m]) == (if StepCounted(s, ins[0]) then 1 else 0)
                                  + Steps(Tick(s, ins[0]), ins[1..][..m - 1])
  {
    assert ins[..m][0] == ins[0];
    assert ins[..m][1..] == ins[1..][..m - 1];
  }

  /** The promise about the rest of a run in which j steps have been counted: state_motor_buf
      gives the command up after exactly u ticks and not before; up to two ticks after that the
      position is start plus or minus delta for every counted step; the steps are then
      p.count in all, and state_motor is idle. */
  ghost predicate Delivers(s: Regs, p: Plan, j: nat, ins: seq<Ctrl>, u: nat) {
    && u + 2 <= |ins|
    && (forall m :: 0 <= m < u ==> Exec(s, ins[..m]).motor.buf == Command)
    && Exec(s, ins[..u]).motor.buf == Idle
    && Exec(s, ins[..u + 1]).motor.state == Idle
    && (forall m :: 0 <= m <= u + 2 ==>
          && Exec(s, ins[..m]).position == Along(p, j + Steps(s, ins[..m]))
          && j + Steps(s, ins[..m]) <= p.count)
    && (forall m :: u <= m <= u + 2 ==> j + Steps(s, ins[..m]) == p.count)
  }

  lemma LeavingDelivers(s: Regs, p: Plan, ins: seq<Ctrl>)
    requires Leaving(s, p) && |ins| >= 2
    ensures Delivers(s, p, p.count, ins, 0)
  {
    LeavingTicks(s, p, ins[0], ins[1]);
    var a := Tick(s, ins[0]);
    UnfoldRun(s, ins, 1);
    UnfoldRun(s, ins, 2);
    UnfoldRun(a, ins[1..], 1);
    forall m | 0 <= m <= 2
      ensures Steps(s, ins[..m]) == 0 && Exec(s, ins[..m]).position == Along(p, p.count)
    {
      assert m == 0 || m == 1 || m == 2;
    }
  }

  lemma DeliversOneTickEarlier(s: Regs, p: Plan, j: nat, ins: seq<Ctrl>, u: nat)
    requires ins != [] && s.motor.buf == Command && j <= p.count && s.position == Along(p, j)
    requires Delivers(Tick(s, ins[0]), p, if StepCounted(s, ins[0]) then j + 1 else j, ins[1..], u)
    ensures Delivers(s, p, j, ins, u + 1)
  {
    hide Tick, Along, StepCounted;
    var t, rest := Tick(s, ins[0]), ins[1..];
    forall m | 1 <= m <= u + 3
      ensures Exec(s, ins[..m]) == Exec(t, rest[..m - 1])
      ensures Steps(s, ins[..m]) == (if StepCounted(s, ins[0]) then 1 else 0) + Steps(t, rest[..m - 1])
    {
      UnfoldRun(s, ins, m);
    }
    assert ins[..0] == [];
    forall m | 0 <= m <= u + 3
      ensures Exec(s, ins[..m]).position == Along(p, j + Steps(s, ins[..m]))
      ensures j + Steps(s, ins[..m]) <= p.count
    {
      if m > 0 {
        assert Exec(t, rest[..m - 1]).position == Exec(s, ins[..m]).position;
      }
    }
    forall m | 0 <= m < u + 1 ensures Exec(s, ins[..m]).motor.buf == Command {
      if m > 0 {
        assert Exec(t, rest[..m - 1]).motor.buf == Command;
      }
    }
    forall m | u + 1 <= m <= u + 3 ensures j + Steps(s, ins[..m]) == p.count {
      assert rest[..m - 1] == ins[..m][1..];
    }
  }

  ghost predicate AllQuiet(ins: seq<Ctrl>, p: Plan) {
    forall m :: 0 <= m < |ins| ==> Quiet(ins[m], p)
  }

  lemma {:induction false} SteadyRun(s: Regs, p: Plan, j: nat, ins: seq<Ctrl>) returns (u: nat)
    requires Steadily(s, p, j) && AllQuiet(ins, p)
    requires |ins| >= Budget(s, p, j) + 2
    ensures u <= Budget(s, p, j) && Delivers(s, p, j, ins, u)
    decreases |ins|
  {
    hide Tick, NextClock;
    ClockTick(s.clock, s.trigger, p.period, NextClock(s.clock, s.trigger, p.period));
    CyclesArePositive(p.count - j - (if Pending(s) then 1 else 0) - 1, p.period);
    SteadyTick(s, p, j, ins[0]);
    var s' := Tick(s, ins[0]);
    if j == p.count && !s.clock.step {
      LeavingDelivers(s', p, ins[1..]);
      u := 1;
    } else {
      BudgetShrinks(s, p, j, ins[0]);
      var u' := SteadyRun(s', p, if Pending(s) then j + 1 else j, ins[1..]);
      u := u' + 1;
    }
    DeliversOneTickEarlier(s, p, j, ins, u - 1);
  }

  // ---------------------------------------------------------------------------------
  // From the accepting tick
  // ---------------------------------------------------------------------------------

  /** The controller at rest, with the rising edge of the command bit about to be seen. */
  predicate Accepts(s: Regs, p: Plan) {
    && s.motor.state == Idle && s.motor.buf == Idle && !s.motor.cmdBuf
    && s.settings.cmd
    && s.settings.direction == p.up && s.settings.tick == p.period
    && s.pipe.speed0 == s.pipe.speed1 == s.motor.speed == s.backlash.period
    && !Resets(s.trigger)
    && ModesAgree(s, p) && DeltaOf(s.settings.mode, p.isTmc) == p.delta
    && NoBacklash(s)
    && s.loader.state == Normal && !s.loader.maskStrobe
    && s.position == p.start
    && (s.backlash.period == p.period ==> InCycle(s.clock, p.period))
  }

  /** The target that accepting the command sets. */
  function TargetOf(s: Regs): Word30 {
    if s.settings.goto then s.settings.duration
    else RelativeTarget(s.position, s.settings.duration, s.settings.direction, s.loader.max2)
  }

  /** The plan ends at the target and stays inside the range. */
  ghost predicate Aims(s: Regs, p: Plan) {
    TargetOf(s) == Along(p, p.count) && Clear(p, s.loader)
  }

  /** A relative command over delta * count units. */
  predicate Relative(s: Regs, p: Plan) {
    !s.settings.goto && s.settings.duration == p.delta * p.count
  }

  /** The path meets neither end of the range; with no maximum in force max_counter2 is 0. */
  predicate PathDoesNotWrap(s: Regs, p: Plan) {
    var n, l := p.delta * p.count, s.loader;
    && (MaxLoaded(l) ==> l.max == l.max2 + 1)
    && (if p.up then p.start + n < WORD30 && (p.start + n <= l.max2 || l.max2 == 0)
        else p.start > n || (p.start == n && l.max2 == 0))
    && (MaxLoaded(l) ==> p.start <= l.max2 && (p.up ==> p.start + n <= l.max2))
  }

  lemma PathIsClear(s: Regs, p: Plan)
    requires Accepts(s, p) && Relative(s, p) && PathDoesNotWrap(s, p)
    ensures Aims(s, p)
  {
    forall j | 0 <= j <= p.count
      ensures 0 <= p.delta * j <= p.delta * p.count
    {
      ProductIsMonotone(p.delta, j, p.count);
    }
  }

  lemma ProductIsMonotone(a: int, i: int, j: int)
    requires a >= 0 && 0 <= i <= j
    ensures 0 <= a * i <= a * j
  {
    assert a * j - a * i == a * (j - i);
  }

  /** The first two ticks: state_motor_buf, then state_motor follow the command; nothing can be
      counted yet, and the new direction and speed reach the head of their pipelines. */
  lemma AcceptTick(s: Regs, p: Plan, i: Ctrl)
    requires p.delta >= 1
    requires Accepts(s, p) && Aims(s, p) && Quiet(i, p) && !i.loadStrobe && !i.maxStrobe
    ensures !StepCounted(s, i)
    ensures var a := Tick(s, i);
            && a.motor.state == Idle && a.motor.buf == Command && a.motor.direction == p.up
            && a.motor.target == Along(p, p.count) && a.motor.speed == p.period
            && a.pipe.speed0 == a.pipe.speed1 == a.backlash.period == s.backlash.period
            && !Resets(a.trigger) && ModesAgree(a, p) && NoBacklash(a) && !a.settings.cancel
            && a.loader.state == Normal && !a.loader.maskStrobe && Clear(p, a.loader)
            && a.position == p.start
            && a.clock == NextClock(s.clock, s.trigger, s.backlash.period)
  {
    ProductIsMonotone(p.delta, 0, p.count);
    StartOfPath(p);
    var a := Tick(s, i);
    assert a.loader.state == Normal && a.loader.max == s.loader.max && !a.loader.cntEnable;
  }

  lemma SecondTick(s: Regs, a: Regs, p: Plan, i: Ctrl)
    requires p.delta >= 1 && p.count >= 1
    requires a.motor.state == Idle && a.motor.buf == Command && a.motor.direction == p.up
    requires a.motor.target == Along(p, p.count) && a.motor.speed == p.period
    requires a.pipe.speed0 == a.pipe.speed1 == a.backlash.period
    requires !Resets(a.trigger) && ModesAgree(a, p) && NoBacklash(a) && !a.settings.cancel
    requires a.loader.state == Normal && !a.loader.maskStrobe && Clear(p, a.loader)
    requires a.position == p.start
    requires Quiet(i, p) && !i.loadStrobe
    ensures !StepCounted(a, i)
    ensures Running(Tick(a, i), p, 0) && !Resets(Tick(a, i).trigger)
    ensures Tick(a, i).pipe.speed1 == Tick(a, i).backlash.period == a.backlash.period
    ensures Tick(a, i).clock == NextClock(a.clock, a.trigger, a.backlash.period)
  {
    StepsApart(p, 0, p.count);
    StartOfPath(p);
    var b := Tick(a, i);
    assert b.motor.state == Command && b.motor.buf == Command;
    assert b.loader.state == Normal && !b.loader.cntEnable && b.loader.max == a.loader.max;
    assert b.position == a.position;
  }

  lemma StartOfPath(p: Plan)
    ensures Along(p, 0) == p.start
  {
  }

  /** The new speed travels for two more ticks; then the step clock restarts with it.  At most
      one pulse of the old clock is counted meanwhile. */
  lemma SpeedTravels(s: Regs, p: Plan, i: Ctrl) returns (j: nat)
    requires p.count >= 1 && Running(s, p, 0) && !Resets(s.trigger) && Quiet(i, p)
    requires s.pipe.speed1 == s.backlash.period != p.period
    ensures j == if StepCounted(s, i) then 1 else 0
    ensures Running(Tick(s, i), p, j) && (j == p.count ==> Tick(s, i).loader.counterClk)
    ensures Tick(s, i).pipe.speed1 == p.period && Resets(Tick(s, i).trigger)
  {
    CommandTick(s, p, 0, i);
    j := if Pending(s) then 1 else 0;
  }

  lemma ClockRestarts(a: Regs, p: Plan, j: nat, i: Ctrl) returns (j': nat)
    requires p.period >= 3 && Running(a, p, j) && (j == p.count ==> a.loader.counterClk) && Quiet(i, p)
    requires a.pipe.speed1 == p.period && Resets(a.trigger)
    ensures j' == if StepCounted(a, i) then j + 1 else j
    ensures if j == p.count && !a.clock.step then Leaving(Tick(a, i), p) && j' == p.count
            else Steadily(Tick(a, i), p, j')
  {
    CommandTick(a, p, j, i);
    j' := if Pending(a) then j + 1 else j;
    var b := Tick(a, i);
    assert b.clock == Clock(false, 0) && b.backlash.period == p.period && b.pipe.speed1 == p.period;
    assert b.trigger == NextTrigger(a.pipe) && !Resets(b.trigger);
  }

  lemma RestartedRun(a: Regs, p: Plan, j: nat, ins: seq<Ctrl>) returns (u: nat)
    requires p.period >= 3 && Running(a, p, j) && (j == p.count ==> a.loader.counterClk)
    requires a.pipe.speed1 == p.period && Resets(a.trigger)
    requires AllQuiet(ins, p) && |ins| >= Cycles(p.count, p.period) + p.period + 5
    ensures u <= Cycles(p.count, p.period) + p.period + 3 && Delivers(a, p, j, ins, u)
  {
    CyclesArePositive(p.count, p.period);
    var b := Tick(a, ins[0]);
    var j' := ClockRestarts(a, p, j, ins[0]);
    var u': nat;
    if j == p.count && !a.clock.step {
      LeavingDelivers(b, p, ins[1..]);
      u' := 0;
    } else {
      BudgetBound(b, p, j');
      u' := SteadyRun(b, p, j', ins[1..]);
    }
    DeliversOneTickEarlier(a, p, j, ins, u');
    u := u' + 1;
  }

  lemma SpeedTakesOver(s: Regs, p: Plan, ins: seq<Ctrl>) returns (u: nat)
    requires p.period >= 3 && p.count >= 1
    requires Running(s, p, 0) && !Resets(s.trigger)
    requires s.pipe.speed1 == s.backlash.period != p.period
    requires AllQuiet(ins, p) && |ins| >= Cycles(p.count, p.period) + p.period + 6
    ensures u <= Cycles(p.count, p.period) + p.period + 4 && Delivers(s, p, 0, ins, u)
  {
    CyclesArePositive(p.count, p.period);
    var j := SpeedTravels(s, p, ins[0]);
    var u' := RestartedRun(Tick(s, ins[0]), p, j, ins[1..]);
    DeliversOneTickEarlier(s, p, 0, ins, u');
    u := u' + 1;
  }

  lemma BudgetBound(s: Regs, p: Plan, j: nat)
    requires Steadily(s, p, j)
    ensures Budget(s, p, j) <= Cycles(p.count, p.period) + p.period + 2
  {
    ClockTick(s.clock, s.trigger, p.period, NextClock(s.clock, s.trigger, p.period));
    var rises := p.count - j - (if Pending(s) then 1 else 0);
    CyclesArePositive(p.count, p.period);
    if rises >= 1 {
      CyclesStep(rises, p.period);
      CyclesGrow(rises, p.count, p.period);
    }
  }

  lemma CyclesGrow(i: int, j: int, period: int)
    requires i <= j && period >= 0
    ensures Cycles(i, period) <= Cycles(j, period)
  {
    ProductIsMonotone(period + 1, 0, j - i);
    assert (j - i) * (period + 1) == j * (period + 1) - i * (period + 1);
  }

  /** The theorem: period P >= 3, at least one step, a target that is reached inside the range, no
      cancel, no backlash, modes of equal step size.  The command is given up within
      count * (P + 1) + P + 6 ticks; at every tick the position is start plus or minus delta
      times the steps counted so far, never past the target; exactly `count` steps are counted,
      also across the ticks on which the counter is still enabled afterwards. */
  lemma StepsToTarget(s: Regs, p: Plan, ins: seq<Ctrl>) returns (u: nat)
    requires p.period >= 3 && p.count >= 1 && p.delta >= 1
    requires Accepts(s, p) && Aims(s, p)
    requires AllQuiet(ins, p) && |ins| >= Cycles(p.count, p.period) + p.period + 8
    requires !ins[0].loadStrobe && !ins[0].maxStrobe && !ins[1].loadStrobe
    ensures u <= Cycles(p.count, p.period) + p.period + 5
    ensures Delivers(Tick(s, ins[0]), p, 0, ins[1..], u)
  {
    hide Tick;
    CyclesArePositive(p.count, p.period);
    AcceptTick(s, p, ins[0]);
    var a := Tick(s, ins[0]);
    SecondTick(s, a, p, ins[1]);
    var b := Tick(a, ins[1]);
    var rest := ins[2..];
    assert ins[1..][1..] == rest;
    var u': nat;
    if s.backlash.period == p.period {
      ClockTick(s.clock, s.trigger, p.period, a.clock);
      ClockTick(a.clock, a.trigger, p.period, b.clock);
      BudgetBound(b, p, 0);
      u' := SteadyRun(b, p, 0, rest);
    } else {
      u' := SpeedTakesOver(b, p, rest);
    }
    assert Along(p, 0) == p.start;
    DeliversOneTickEarlier(a, p, 0, ins[1..], u');
    u := u' + 1;
  }

  /** A relative command over `count` steps whose path does not wrap makes exactly `count`. */
  lemma ExactSteps(s: Regs, p: Plan, ins: seq<Ctrl>) returns (u: nat)
    requires p.period >= 3 && p.count >= 1 && p.delta >= 1
    requires Accepts(s, p) && Relative(s, p) && PathDoesNotWrap(s, p)
    requires AllQuiet(ins, p) && |ins| >= Cycles(p.count, p.period) + p.period + 8
    requires !ins[0].loadStrobe && !ins[0].maxStrobe && !ins[1].loadStrobe
    ensures u <= Cycles(p.count, p.period) + p.period + 5
    ensures Delivers(Tick(s, ins[0]), p, 0, ins[1..], u)
  {
    hide *;
    PathIsClear(s, p);
    u := StepsToTarget(s, p, ins);
  }

  // ---------------------------------------------------------------------------------
  // Zero steps
  // ---------------------------------------------------------------------------------

  /** The state after the accepting tick, for a command of no steps. */
  ghost predicate AcceptedZero(a: Regs, p: Plan) {
    && a.motor.state == Idle && a.motor.buf == Command && a.motor.direction == p.up
    && a.motor.target == Along(p, p.count) && a.motor.speed == p.period
    && a.pipe.speed0 == a.pipe.speed1 == a.backlash.period
    && !Resets(a.trigger) && ModesAgree(a, p) && NoBacklash(a) && !a.settings.cancel
    && a.loader.state == Normal && !a.loader.maskStrobe && Clear(p, a.loader)
    && a.position == p.start && p.count == 0 && p.delta >= 1
  }

  /** One tick of the old clock, as long as the new speed has not arrived. */
  lemma OldClock(s: Regs, i: Ctrl)
    requires !Resets(s.trigger)
    ensures Tick(s, i).clock == NextClock(s.clock, Steady, s.backlash.period)
  {
  }

  lemma ClockOfAccepted(a: Regs, p: Plan, i: Ctrl)
    requires AcceptedZero(a, p)
    ensures Tick(a, i).clock == NextClock(a.clock, Steady, a.backlash.period)
  {
    OldClock(a, i);
  }

  /** The clock is low: state_motor_buf gives the command up at once. */
  lemma UpAtOnce(a: Regs, p: Plan, i: Ctrl)
    requires AcceptedZero(a, p) && !a.clock.step && Quiet(i, p) && !i.loadStrobe
    ensures var b := Tick(a, i);
            && b.motor.buf == Idle && b.motor.state == Command
            && b.loader.state == Normal && !b.loader.counterClk
            && b.backlash.state == Disabled && ModesAgree(b, p)
            && b.position == p.start && !StepCounted(a, i)
    ensures !Tick(a, i).clock.step ==> Leaving(Tick(a, i), p)
  {
    StartOfPath(p);
    var b := Tick(a, i);
    assert Clear(p, a.loader) && Along(p, 0) == a.position;
    assert b.loader.max == a.loader.max;
  }

  lemma Overrun(b: Regs, p: Plan, i: Ctrl)
    requires b.motor.state == Command && b.loader.state == Normal && !b.loader.counterClk
    requires b.clock.step && b.backlash.state == Disabled && b.position == p.start
    requires ModesAgree(b, p) && 1 <= p.delta && i.isTmc == p.isTmc
    ensures Tick(b, i).position != p.start
  {
    var d := DeltaOf(b.backlash.modeOut, i.isTmc);
    assert 1 <= d <= 32;
    WrapMoves(b.position, d);
  }

  lemma WrapMoves(x: Word30, d: int)
    requires 1 <= d <= 32
    ensures (x + d) % WORD30 != x && (x - d) % WORD30 != x
  {
  }

  lemma ZeroLow(a: Regs, p: Plan, ins: seq<Ctrl>) returns (u: nat)
    requires AcceptedZero(a, p) && !a.clock.step && AllQuiet(ins, p) && |ins| >= 3 && !ins[0].loadStrobe
    ensures u == 1 && Exec(a, ins[..1]).motor.buf == Idle
    ensures if NextClock(a.clock, Steady, a.backlash.period).step then Exec(a, ins[..2]).position != p.start
            else Delivers(a, p, 0, ins, u)
  {
    ClockOfAccepted(a, p, ins[0]);
    UpAtOnce(a, p, ins[0]);
    StartOfPath(p);
    hide Tick;
    u := 1;
    var b := Tick(a, ins[0]);
    UnfoldRun(a, ins, 1);
    UnfoldRun(a, ins, 2);
    UnfoldRun(b, ins[1..], 1);
    if b.clock.step {
      Overrun(b, p, ins[1]);
    } else {
      LeavingDelivers(b, p, ins[1..]);
      DeliversOneTickEarlier(a, p, 0, ins, 0);
    }
  }

  lemma WaitForLow(a: Regs, p: Plan, i: Ctrl)
    requires AcceptedZero(a, p) && a.clock.step && Quiet(i, p)
    requires a.backlash.period == p.period >= 3 && InCycle(a.clock, p.period)
    ensures Steadily(Tick(a, i), p, 0) && !StepCounted(a, i)
  {
    StartOfPath(p);
    ClockTick(a.clock, a.trigger, p.period, NextClock(a.clock, a.trigger, p.period));
    var b := Tick(a, i);
    assert b.loader.state == Normal && !b.loader.cntEnable && b.loader.counterClk;
    assert b.loader.max == a.loader.max && b.position == a.position;
  }

  /** A command of no steps, at an unchanged speed.  state_motor_buf may give it up one tick
      after accepting it, while state_motor is still on its way into `command`; a pulse that
      rises on exactly that tick is counted although nothing was asked for.  So the promise
      holds if and only if the step clock is not two ticks short of rising. */
  lemma ZeroSteps(s: Regs, p: Plan, ins: seq<Ctrl>) returns (u: nat)
    requires p.period >= 3 && p.count == 0 && p.delta >= 1
    requires Accepts(s, p) && Aims(s, p) && s.backlash.period == p.period
    requires AllQuiet(ins, p) && |ins| >= p.period + 8
    requires !ins[0].loadStrobe && !ins[0].maxStrobe && !ins[1].loadStrobe
    ensures ToRise(s.clock, p.period) != 2 ==> Delivers(Tick(s, ins[0]), p, 0, ins[1..], u)
    ensures ToRise(s.clock, p.period) == 2 ==>
              && Exec(s, ins[..2]).motor.buf == Idle
              && Exec(s, ins[..3]).position != p.start
  {
    hide Tick;
    AcceptTick(s, p, ins[0]);
    var a := Tick(s, ins[0]);
    ClockTick(s.clock, s.trigger, p.period, a.clock);
    ClockAfter(a, ins[1]);
    var b := Tick(a, ins[1]);
    ClockTick(a.clock, a.trigger, p.period, b.clock);
    StartOfPath(p);
    if a.clock.step {
      WaitForLow(a, p, ins[1]);
      BudgetBound(b, p, 0);
      u := SteadyRun(b, p, 0, ins[2..]);
      assert ins[1..][1..] == ins[2..];
      DeliversOneTickEarlier(a, p, 0, ins[1..], u);
      u := u + 1;
    } else {
      ClockOfAccepted(a, p, ins[1]);
      u := ZeroLow(a, p, ins[1..]);
      UnfoldRun(s, ins, 2);
      UnfoldRun(s, ins, 3);
    }
  }

  /** The old step clock, which runs on for three ticks: it rises on the second, or falls on the
      second and rises again on the third. */
  predicate RisesTooSoon(c: Clock, period: int) {
    var c1 := NextClock(c, Steady, period);
    var c2 := NextClock(c1, Steady, period);
    var c3 := NextClock(c2, Steady, period);
    if c1.step then !c2.step && c3.step else c2.step
  }

  lemma TooSoon(c: Clock, period: int)
    ensures var c1 := NextClock(c, Steady, period);
            var c2 := NextClock(c1, Steady, period);
            var c3 := NextClock(c2, Steady, period);
            RisesTooSoon(c, period) == if c1.step then !c2.step && c3.step else c2.step
  {
  }

  /** The clock is high: the command starts, and waits for it to fall. */
  lemma StartsHigh(a: Regs, p: Plan, i: Ctrl)
    requires AcceptedZero(a, p) && a.clock.step && Quiet(i, p) && !i.loadStrobe
    ensures var b := Tick(a, i);
            && Running(b, p, 0) && b.loader.counterClk && !StepCounted(a, i)
            && b.pipe.speed1 == b.backlash.period == a.backlash.period && !Resets(b.trigger)
  {
    StartOfPath(p);
    var b := Tick(a, i);
    assert b.loader.state == Normal && !b.loader.cntEnable && b.loader.max == a.loader.max;
  }

  /** The clock has fallen on the second tick. */
  lemma FallsOnSecond(b: Regs, p: Plan, i: Ctrl)
    requires p.count == 0 && Running(b, p, 0) && b.loader.counterClk && !b.clock.step && Quiet(i, p)
    ensures var c := Tick(b, i);
            && c.motor.buf == Idle && c.motor.state == Command
            && c.loader.state == Normal && !c.loader.counterClk
            && c.backlash.state == Disabled && ModesAgree(c, p)
            && c.position == p.start && !StepCounted(b, i)
    ensures !Tick(b, i).clock.step ==> Leaving(Tick(b, i), p)
  {
    StartOfPath(p);
    CommandTick(b, p, 0, i);
  }

  /** The clock is still high on the second tick, and the new speed resets it on the fourth. */
  lemma StaysHigh(b: Regs, p: Plan, i: Ctrl)
    requires p.count == 0 && Running(b, p, 0) && b.loader.counterClk && b.clock.step && Quiet(i, p)
    requires !Resets(b.trigger) && b.pipe.speed1 != p.period
    ensures var c := Tick(b, i);
            && Running(c, p, 0) && c.loader.counterClk && !StepCounted(b, i)
            && c.pipe.speed1 == p.period && Resets(c.trigger)
  {
    CommandTick(b, p, 0, i);
  }

  lemma QuietParts(ins: seq<Ctrl>, p: Plan)
    requires AllQuiet(ins, p) && ins != []
    ensures Quiet(ins[0], p) && AllQuiet(ins[1..], p)
  {
  }

  lemma ZeroAccepted(s: Regs, p: Plan, i: Ctrl)
    requires p.count == 0 && p.delta >= 1
    requires Accepts(s, p) && Aims(s, p) && Quiet(i, p) && !i.loadStrobe && !i.maxStrobe
    ensures AcceptedZero(Tick(s, i), p) && Tick(s, i).backlash.period == s.backlash.period
    ensures Tick(s, i).clock == NextClock(s.clock, Steady, s.backlash.period)
  {
    OldClock(s, i);
    AcceptTick(s, p, i);
    StartOfPath(p);
    hide Tick, NextClock;
  }

  /** The first n prefixes of a run, one tick later. */
  lemma Unfolded(s: Regs, ins: seq<Ctrl>, n: nat)
    requires n <= |ins|
    ensures forall m :: 1 <= m <= n ==> Exec(s, ins[..m]) == Exec(Tick(s, ins[0]), ins[1..][..m - 1])
  {
    hide Tick;
    forall m | 1 <= m <= n ensures Exec(s, ins[..m]) == Exec(Tick(s, ins[0]), ins[1..][..m - 1]) {
      UnfoldRun(s, ins, m);
    }
  }

  lemma ZeroHighRun(b: Regs, p: Plan, ins: seq<Ctrl>) returns (u: nat)
    requires p.count == 0 && p.period >= 3 && Running(b, p, 0) && b.loader.counterClk && !Resets(b.trigger)
    requires b.pipe.speed1 == b.backlash.period != p.period
    requires AllQuiet(ins, p) && |ins| >= p.period + 7
    ensures if !b.clock.step && NextClock(b.clock, Steady, b.backlash.period).step then
              u == 1 && Exec(b, ins[..1]).motor.buf == Idle && Exec(b, ins[..2]).position != p.start
            else Delivers(b, p, 0, ins, u)
  {
    OldClock(b, ins[0]);
    StartOfPath(p);
    CyclesArePositive(0, p.period);
    var c := Tick(b, ins[0]);
    hide Tick, NextClock;
    Unfolded(b, ins, 2);
    UnfoldRun(c, ins[1..], 1);
    if b.clock.step {
      StaysHigh(b, p, ins[0]);
      u := RestartedRun(c, p, 0, ins[1..]);
      DeliversOneTickEarlier(b, p, 0, ins, u);
      u := u + 1;
    } else {
      FallsOnSecond(b, p, ins[0]);
      u := 1;
      if c.clock.step {
        Overrun(c, p, ins[1]);
      } else {
        LeavingDelivers(c, p, ins[1..]);
        DeliversOneTickEarlier(b, p, 0, ins, 0);
      }
    }
  }

  lemma ZeroHigh(a: Regs, p: Plan, ins: seq<Ctrl>) returns (u: nat)
    requires AcceptedZero(a, p) && a.clock.step && a.backlash.period != p.period && p.period >= 3
    requires AllQuiet(ins, p) && |ins| >= p.period + 8 && !ins[0].loadStrobe
    ensures var c2 := NextClock(a.clock, Steady, a.backlash.period);
            var c3 := NextClock(c2, Steady, a.backlash.period);
            if !c2.step && c3.step then
              u == 2 && Exec(a, ins[..2]).motor.buf == Idle && Exec(a, ins[..3]).position != p.start
            else Delivers(a, p, 0, ins, u)
  {
    ClockOfAccepted(a, p, ins[0]);
    StartsHigh(a, p, ins[0]);
    StartOfPath(p);
    var b := Tick(a, ins[0]);
    hide Tick, NextClock, Delivers;
    u := ZeroHighRun(b, p, ins[1..]);
    Unfolded(a, ins, 3);
    if u == 1 && Exec(b, ins[1..][..2]).position != p.start {
    } else {
      DeliversOneTickEarlier(a, p, 0, ins, u);
    }
    u := u + 1;
  }

  /** A command of no steps that changes the speed: the promise holds if and only if the old step
      clock does not rise too soon.  Otherwise a pulse is counted after the command has been given
      up. */
  lemma ZeroStepsNewSpeed(s: Regs, p: Plan, ins: seq<Ctrl>) returns (u: nat)
    requires p.period >= 3 && p.count == 0 && p.delta >= 1
    requires Accepts(s, p) && Aims(s, p) && s.backlash.period != p.period
    requires AllQuiet(ins, p) && |ins| >= p.period + 9
    requires !ins[0].loadStrobe && !ins[0].maxStrobe && !ins[1].loadStrobe
    ensures !RisesTooSoon(s.clock, s.backlash.period) ==> Delivers(Tick(s, ins[0]), p, 0, ins[1..], u)
    ensures RisesTooSoon(s.clock, s.backlash.period) ==>
              && u <= 3 && Exec(s, ins[..u]).motor.buf == Idle && Exec(s, ins[..u + 1]).position != p.start
  {
    hide *;
    QuietParts(ins, p);
    ZeroAccepted(s, p, ins[0]);
    var a := Tick(s, ins[0]);
    Unfolded(s, ins, 4);
    if a.clock.step {
      u := ZeroHigh(a, p, ins[1..]);
    } else {
      u := ZeroLow(a, p, ins[1..]);
    }
    TooSoon(s.clock, s.backlash.period);
    if RisesTooSoon(s.clock, s.backlash.period) {
      u := u + 1;
    }
  }
}
