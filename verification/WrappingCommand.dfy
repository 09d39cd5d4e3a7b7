/** Commands of hdl/drv8825.vhd with a maximum M loaded and one unit per step, also those whose way
    leads over an end of the range: how many steps are counted until they end, and where. */
module WrappingCommand {
  import opened Drv8825
  import opened StepClock
  import opened RelativeCommand
  import opened WrapAround

  /** A command on its way: direction, target, period and the loaded maximum. */
  datatype Aim = Aim(m: Word30, up: bool, target: Word30, period: int, isTmc: bool)

  /** The targets that the motor meets from position x.  Going up the wrap skips 0 and 1, going down
      it skips M; the position just outside the range is met before it is replaced. */
  predicate Meets(g: Aim, x: Word30) {
    && 2 <= g.m <= WORD30 - 3
    && if g.up then x <= g.target <= 1 || 2 <= g.target <= g.m + 1
       else g.target <= g.m - 1 || g.target == WORD30 - 1
  }

  /** The way to the target leads over the end of the range. */
  predicate WrapAhead(g: Aim, x: Word30) {
    if g.up then x > g.target else g.target != WORD30 - 1 && (x == WORD30 - 1 || x < g.target)
  }

  /** What the position is replaced by outside the range. */
  function Restart(g: Aim): Word30
    requires 2 <= g.m
  {
    if g.up then 2 else g.m - 1
  }

  /** The steps still to be counted from a position. */
  function Remaining(g: Aim, x: Word30): int {
    if g.up then
      if x <= g.target then g.target - x else g.m + 1 - x + g.target - 2
    else if g.target == WORD30 - 1 then
      if x == WORD30 - 1 then 0 else x + 1
    else if x == WORD30 - 1 then g.m - 1 - g.target
    else if x >= g.target then x - g.target
    else x + 1 + g.m - 1 - g.target
  }

  /** Where the position comes to rest: a target outside the range is replaced after all. */
  function Rest(g: Aim): Word30
    requires 2 <= g.m
  {
    if Out(g.target, g.m) then Restart(g) else g.target
  }

  /** The end of the range that the other direction leaves by. */
  predicate WrongEnd(g: Aim, x: Word30) {
    x == if g.up then WORD30 - 1 else g.m + 1
  }

  /** The command executes, apart from the step clock. */
  ghost predicate Heads(s: Regs, g: Aim) {
    && Meets(g, s.position) && InRange(s, g.m) && !WrongEnd(g, s.position)
    && s.motor.state == Command && s.motor.buf == Command
    && s.motor.direction == g.up && s.pipe.dir0 == g.up && s.motor.target == g.target
    && s.motor.speed == g.period && s.pipe.speed0 == g.period
    && DeltaOf(s.motor.mode, g.isTmc) == 1 && DeltaOf(s.pipe.modeBuf, g.isTmc) == 1
    && DeltaOf(s.backlash.modeOut, g.isTmc) == 1
    && NoBacklash(s) && !s.settings.cancel
    && (s.loader.state != Normal ==> s.loader.loadCounter == Restart(g))
    && (s.loader.state == Buf0 ==> Out(s.position, g.m) && s.position != g.target)
  }

  /** No cancel, no load, no new maximum, no backlash, motor type unchanged. */
  predicate Calm(i: Ctrl, g: Aim) {
    i.isTmc == g.isTmc && !i.cancel && i.backlashDuration == 0 && !i.loadStrobe && !i.maxStrobe
  }

  /** A pulse is about to be counted. */
  predicate Due(s: Regs) {
    s.loader.state == Normal && s.clock.step && !s.loader.counterClk
  }

  /** The command has been given up at its target; state_motor still follows it. */
  ghost predicate GivenUp(s: Regs, g: Aim) {
    && s.motor.state == Command && s.motor.buf == Idle && s.position == g.target && 2 <= g.m
    && (s.loader.state == Normal ==>
          && MaxLoaded(s.loader) && s.position != s.loader.max && s.position != WORD30 - 1
          && !Due(s) && Rest(g) == g.target)
    && (s.loader.state != Normal ==> s.loader.loadCounter == Rest(g))
    && (s.loader.state == Buf0 ==> !s.loader.counterClk)
    && (s.loader.state != Normal && s.loader.state != Buf0 ==> s.position == s.loader.loadCounter)
  }

  lemma OneStep(g: Aim, x: Word30)
    requires Meets(g, x) && x <= g.m && x != g.target
    ensures var y: Word30 := if g.up then (x + 1) % WORD30 else (x - 1) % WORD30;
            && Meets(g, y) && !WrongEnd(g, y) && (y <= g.m || Out(y, g.m))
            && Remaining(g, y) == Remaining(g, x) - 1 && WrapAhead(g, y) == WrapAhead(g, x)
    ensures Remaining(g, x) >= 1
  {
  }

  lemma Replaced(g: Aim, x: Word30)
    requires Meets(g, x) && Out(x, g.m) && !WrongEnd(g, x)
    ensures Reload(x, g.m) == Restart(g)
    ensures x != g.target ==>
              && Meets(g, Restart(g)) && WrapAhead(g, x) && !WrapAhead(g, Restart(g))
              && Remaining(g, Restart(g)) == Remaining(g, x)
    ensures x == g.target ==> Rest(g) == Restart(g)
    ensures Remaining(g, x) >= 0
  {
  }

  lemma NotNegative(g: Aim, x: Word30)
    requires Meets(g, x) && (x <= g.m || Out(x, g.m)) && !WrongEnd(g, x)
    ensures Remaining(g, x) >= 0 && (x == g.target ==> Remaining(g, x) == 0)
    ensures x <= g.m && x != g.target ==> Remaining(g, x) >= 1
    ensures x == g.target ==> !WrapAhead(g, x)
    ensures x <= g.m ==> !Out(x, g.m)
    ensures !Out(g.target, g.m) ==> Rest(g) == g.target
  {
  }

  /** What one tick does to the motor. */
  lemma MotorTick(s: Regs, g: Aim, i: Ctrl)
    requires Heads(s, g) && Calm(i, g)
    ensures var m' := Tick(s, i).motor;
            && m'.state == Command && m'.direction == g.up && m'.target == g.target && m'.speed == g.period
            && m'.mode == s.motor.mode
            && m'.buf == if s.position == g.target && !s.clock.step then Idle else Command
    ensures !Tick(s, i).settings.cancel && NoBacklash(Tick(s, i))
    ensures Tick(s, i).pipe.dir0 == g.up && Tick(s, i).pipe.speed0 == g.period
    ensures Tick(s, i).pipe.modeBuf == s.motor.mode && Tick(s, i).backlash.modeOut == s.pipe.modeBuf
    ensures Tick(s, i).delta == 1
  {
    hide NextLoader, NextClock, NextPosition, InRange, Meets, WrongEnd;
  }

  /** What one tick does to the counter. */
  lemma CounterTick(s: Regs, g: Aim, i: Ctrl)
    requires Heads(s, g) && Calm(i, g) && Tick(s, i).delta == 1 && Tick(s, i).pipe.dir0 == g.up
    ensures StepCounted(s, i) <==> Due(s)
    ensures Due(s) ==> s.position <= g.m
    ensures Due(s) ==> Tick(s, i).position == if g.up then (s.position + 1) % WORD30 else (s.position - 1) % WORD30
    ensures !Due(s) ==> Tick(s, i).position == s.position
                        || (s.loader.state == Buf0 && Tick(s, i).position == Reload(s.position, g.m))
    ensures var l, l' := s.loader, Tick(s, i).loader;
            && (l.state == Normal ==>
                  && l'.state == (if Out(s.position, g.m) && !s.clock.step then Buf0 else Normal)
                  && l'.counterClk == s.clock.step
                  && (l'.state == Buf0 ==> l'.loadCounter == Reload(s.position, g.m)))
            && (l.state != Normal ==>
                  && l'.loadCounter == l.loadCounter && l'.state != Buf0
                  && l'.state == (match l.state { case Buf0 => Buf1 case Buf1 => Buf2 case Buf2 => Buf3
                                                  case Buf3 => Buf4 case _ => Normal }))
  {
    hide NextMotor, NextClock, NextSettings, NextSlack;
  }

  lemma HeadsTick(s: Regs, g: Aim, i: Ctrl)
    requires Heads(s, g) && Calm(i, g) && (Due(s) ==> s.position != g.target)
    ensures StepCounted(s, i) <==> Due(s)
    ensures Remaining(g, Tick(s, i).position) == Remaining(g, s.position) - if Due(s) then 1 else 0
    ensures !(s.position == g.target && !s.clock.step) ==> Heads(Tick(s, i), g)
    ensures Remaining(g, s.position) >= 0
  {
    hide Tick, Reload, Remaining, StepCounted, InRange, Calm, Meets, WrapAhead, Rest;
    MotorTick(s, g, i);
    CounterTick(s, g, i);
    RangeAgain(s, g, i);
    NotNegative(g, s.position);
    if Due(s) {
      OneStep(g, s.position);
    }
    if Out(s.position, g.m) {
      Replaced(g, s.position);
    }
  }

  lemma RangeAgain(s: Regs, g: Aim, i: Ctrl)
    requires InRange(s, g.m) && Calm(i, g) && Tick(s, i).delta == 1
    ensures InRange(Tick(s, i), g.m)
    ensures s.position <= g.m || Out(s.position, g.m)
    ensures s.loader.state == Normal || s.loader.state == Buf0 || s.position == s.loader.loadCounter <= g.m
  {
    RangeTick(s, g.m, i);
  }

  // ---------------------------------------------------------------------------------
  // With the step clock
  // ---------------------------------------------------------------------------------

  /** At the target no further pulse is due, nor can one come before the command is given up. */
  predicate Settled(s: Regs, g: Aim) {
    s.position == g.target && s.loader.state == Normal ==>
      if s.clock.step then s.loader.counterClk else ToToggle(s.clock, g.period) >= 2
  }

  ghost predicate Underway(s: Regs, g: Aim) {
    g.period >= 3 && Heads(s, g) && SteadyClock(s, g.period) && Settled(s, g)
  }

  /** The rises among the next n ticks, n <= 5, of which the next comes after r ticks. */
  function RisesWithin(r: int, n: int, period: int): int {
    if r > n then 0 else if r + period + 1 > n then 1 else 2
  }

  /** How many rises the load sequence may still cost: those during it are not counted. */
  function MayBeLost(s: Regs, g: Aim): int {
    if s.loader.state != Normal then RisesWithin(ToRise(s.clock, g.period), 6 - Phase(s.loader.state), g.period)
    else if WrapAhead(g, s.position) then 3 else 0
  }

  function RisesLeft(s: Regs, g: Aim): int {
    Remaining(g, s.position) + MayBeLost(s, g) - if Due(s) then 1 else 0
  }

  /** An upper bound on the ticks until the command is given up. */
  function TicksLeft(s: Regs, g: Aim): int {
    Cycles(RisesLeft(s, g), g.period) + ToRise(s.clock, g.period)
  }

  lemma Halves(c: Clock, period: int)
    requires period >= 3 && InCycle(c, period)
    ensures OtherHalf(c, period) >= 2 && ToToggle(c, period) >= 1
    ensures ToRise(c, period) == ToToggle(c, period) + if c.step then OtherHalf(c, period) else 0
  {
  }

  lemma SpeedTick(s: Regs, g: Aim, i: Ctrl)
    requires SteadyClock(s, g.period) && s.pipe.speed0 == g.period && s.motor.speed == g.period
    requires NoBacklash(s)
    ensures var s' := Tick(s, i);
            && s'.pipe.speed1 == g.period && s'.backlash.period == g.period && !Resets(s'.trigger)
            && s'.clock == NextClock(s.clock, s.trigger, g.period)
  {
    hide NextLoader, NextMotor, NextPosition, NextSettings, NextSlack, NextClock;
  }

  lemma CounterState(s: Regs, g: Aim, i: Ctrl)
    requires Heads(s, g) && Calm(i, g)
    ensures var l, l' := s.loader, Tick(s, i).loader;
            && (l.state == Normal ==>
                  && l'.state == (if Out(s.position, g.m) && !s.clock.step then Buf0 else Normal)
                  && l'.counterClk == s.clock.step)
            && (l.state != Normal ==> Phase(l'.state) == (if l.state == Buf4 then 0 else Phase(l.state) + 1))
    ensures !Due(s) && s.loader.state != Buf0 ==> Tick(s, i).position == s.position
    ensures s.loader.state == Buf0 ==> Out(s.position, g.m)
    ensures s.loader.state != Normal ==> Tick(s, i).position <= g.m
    ensures s.loader.state != Normal && s.loader.state != Buf0 ==> s.loader.loadCounter == s.position
    ensures Tick(s, i).loader.state != Normal && s.loader.state != Normal ==>
              Tick(s, i).loader.loadCounter == s.loader.loadCounter
  {
    MotorTick(s, g, i);
    CounterTick(s, g, i);
    RangeTick(s, g.m, i);
    hide NextLoader, NextMotor, NextClock, NextBacklash, NextSettings, NextSlack, NextPosition;
  }

  /** What keeps the parts of Underway. */
  lemma AtTarget(s: Regs, g: Aim)
    requires Underway(s, g)
    ensures Heads(s, g) && SteadyClock(s, g.period)
    ensures Due(s) ==> s.position != g.target && s.position <= g.m
    ensures s.position <= g.m || Out(s.position, g.m)
    ensures s.motor.speed == g.period && s.pipe.speed0 == g.period && NoBacklash(s) && s.motor.target == g.target
    ensures g.period >= 3 && InCycle(s.clock, g.period) && s.backlash.period == g.period && !Resets(s.trigger)
  {
    NotNegative(g, s.position);
  }

  lemma ClockOn(s: Regs, g: Aim, i: Ctrl)
    requires Underway(s, g)
    ensures SteadyClock(Tick(s, i), g.period)
    ensures var c, c', p := s.clock, Tick(s, i).clock, g.period;
            && 1 <= ToToggle(c, p)
            && (c'.step != c.step <==> ToToggle(c, p) == 1)
            && (c'.step == c.step ==> ToToggle(c', p) == ToToggle(c, p) - 1)
            && (c'.step != c.step ==> ToToggle(c', p) >= 2)
            && (c'.step && !c.step <==> ToRise(c, p) == 1)
            && ToRise(c', p) == (if ToRise(c, p) == 1 then p + 1 else ToRise(c, p) - 1)
            && ToRise(c, p) >= 1
  {
    hide *;
    AtTarget(s, g);
    SpeedTick(s, g, i);
    var c' := NextClock(s.clock, s.trigger, g.period);
    ClockTick(s.clock, s.trigger, g.period, c');
    Halves(s.clock, g.period);
    SteadyFrom(Tick(s, i), g);
  }

  lemma SteadyFrom(s: Regs, g: Aim)
    requires s.pipe.speed1 == g.period && s.backlash.period == g.period && !Resets(s.trigger)
    requires InCycle(s.clock, g.period)
    ensures SteadyClock(s, g.period)
  {
  }

  lemma StaysSettled(s: Regs, g: Aim, i: Ctrl)
    requires Underway(s, g) && Calm(i, g) && !(s.position == g.target && !s.clock.step)
    ensures Settled(Tick(s, i), g)
  {
    AtTarget(s, g);
    ClockOn(s, g, i);
    CounterState(s, g, i);
    hide Tick, Heads, ToToggle, ToRise, Calm, Out;
  }

  lemma GivesUp(s: Regs, g: Aim, i: Ctrl)
    requires Underway(s, g) && Calm(i, g) && s.position == g.target && !s.clock.step
    ensures GivenUp(Tick(s, i), g)
  {
    AtTarget(s, g);
    ClockOn(s, g, i);
    CounterState(s, g, i);
    MotorTick(s, g, i);
    MaxStays(s, g, i);
    NotNegative(g, s.position);
    if Out(s.position, g.m) {
      Replaced(g, s.position);
    }
    hide Tick, ToToggle, ToRise, Calm, InRange, Heads, Meets, WrapAhead, Rest, Restart, Remaining, Reload;
  }

  lemma MaxStays(s: Regs, g: Aim, i: Ctrl)
    requires Heads(s, g) && Calm(i, g)
    ensures Tick(s, i).loader.max == g.m + 1 && 2 <= g.m <= WORD30 - 3
    ensures s.loader.state != Normal ==> Tick(s, i).loader.loadCounter == s.loader.loadCounter == Restart(g)
    ensures s.loader.state == Normal && Tick(s, i).loader.state == Buf0 ==>
              Tick(s, i).loader.loadCounter == Reload(s.position, g.m)
  {
    MotorTick(s, g, i);
    CounterTick(s, g, i);
    hide NextMotor, NextClock, NextBacklash, NextSettings, NextSlack, NextPosition;
  }

  /** The bound runs down on every tick. */
  lemma Countdown(s: Regs, g: Aim, i: Ctrl)
    requires Underway(s, g) && Calm(i, g) && !(s.position == g.target && !s.clock.step)
    ensures TicksLeft(Tick(s, i), g) <= TicksLeft(s, g) - 1
  {
    AtTarget(s, g);
    ClockOn(s, g, i);
    FewerRises(s, g, i);
    var n, n' := RisesLeft(s, g), RisesLeft(Tick(s, i), g);
    CyclesStep(n, g.period);
    CyclesGrow(n', if ToRise(s.clock, g.period) == 1 then n - 1 else n, g.period);
    hide Tick, Heads, ToToggle, ToRise, Calm, RisesLeft, Cycles;
  }

  /** A rise is counted, or it is one of those that the load sequence may cost. */
  lemma FewerRises(s: Regs, g: Aim, i: Ctrl)
    requires Underway(s, g) && Calm(i, g) && !(s.position == g.target && !s.clock.step)
    ensures RisesLeft(Tick(s, i), g) <= RisesLeft(s, g) - if ToRise(s.clock, g.period) == 1 then 1 else 0
  {
    AtTarget(s, g);
    HeadsTick(s, g, i);
    ClockOn(s, g, i);
    CounterState(s, g, i);
    SameWrap(s, g, i);
    hide Tick, Heads, ToToggle, ToRise, Calm, Remaining, StepCounted, WrapAhead;
  }

  lemma SameWrap(s: Regs, g: Aim, i: Ctrl)
    requires Heads(s, g) && Calm(i, g) && (Due(s) ==> s.position != g.target)
    ensures s.loader.state == Normal ==> WrapAhead(g, Tick(s, i).position) == WrapAhead(g, s.position)
    ensures s.loader.state == Normal && Out(s.position, g.m) && s.position != g.target ==> WrapAhead(g, s.position)
    ensures s.loader.state == Buf4 ==> !WrapAhead(g, Tick(s, i).position)
  {
    MotorTick(s, g, i);
    CounterTick(s, g, i);
    RangeAgain(s, g, i);
    NotNegative(g, s.position);
    if Due(s) {
      OneStep(g, s.position);
    }
    if Out(s.position, g.m) {
      Replaced(g, s.position);
    }
    hide Tick, Reload, Remaining, StepCounted, InRange, Calm, Rest;
  }

  lemma TimeIsLeft(s: Regs, g: Aim)
    requires Underway(s, g)
    ensures TicksLeft(s, g) >= 1 && RisesLeft(s, g) >= 0
    ensures RisesLeft(s, g) <= Remaining(g, s.position) + 3
  {
    AtTarget(s, g);
    NotNegative(g, s.position);
    Halves(s.clock, g.period);
    CyclesArePositive(RisesLeft(s, g), g.period);
    hide Remaining, Cycles;
  }

  lemma UnderwayTick(s: Regs, g: Aim, i: Ctrl)
    requires Underway(s, g) && Calm(i, g)
    ensures StepCounted(s, i) <==> Due(s)
    ensures Remaining(g, Tick(s, i).position) == Remaining(g, s.position) - if Due(s) then 1 else 0
    ensures if s.position == g.target && !s.clock.step then GivenUp(Tick(s, i), g)
            else Underway(Tick(s, i), g) && TicksLeft(Tick(s, i), g) <= TicksLeft(s, g) - 1
  {
    hide *;
    AtTarget(s, g);
    HeadsTick(s, g, i);
    if s.position == g.target && !s.clock.step {
      GivesUp(s, g, i);
    } else {
      ClockOn(s, g, i);
      StaysSettled(s, g, i);
      Countdown(s, g, i);
      UnderwayFrom(Tick(s, i), g);
    }
  }

  lemma UnderwayFrom(s: Regs, g: Aim)
    requires g.period >= 3 && Heads(s, g) && SteadyClock(s, g.period) && Settled(s, g)
    ensures Underway(s, g)
  {
  }

  /** The promise about a run: state_motor_buf gives the command up after exactly u ticks and not
      before, at the target; n steps are then counted in all, also across the two ticks on which the
      counter is still enabled; by then the position has come to `rest`. */
  ghost predicate Ends(s: Regs, ins: seq<Ctrl>, u: nat, n: int, target: Word30, rest: Word30) {
    && u + 2 <= |ins|
    && (forall k :: 0 <= k < u ==> Exec(s, ins[..k]).motor.buf == Command)
    && Exec(s, ins[..u]).motor.buf == Idle && Exec(s, ins[..u + 1]).motor.state == Idle
    && Exec(s, ins[..u]).position == target
    && (forall k :: u <= k <= u + 2 ==> Steps(s, ins[..k]) == n)
    && (forall k :: u + 1 <= k <= u + 2 ==> Exec(s, ins[..k]).position == rest)
  }

  lemma EndsOneTickEarlier(s: Regs, ins: seq<Ctrl>, u: nat, n: int, target: Word30, rest: Word30)
    requires ins != [] && s.motor.buf == Command && Ends(Tick(s, ins[0]), ins[1..], u, n, target, rest)
    ensures Ends(s, ins, u + 1, n + if StepCounted(s, ins[0]) then 1 else 0, target, rest)
  {
    hide Tick, StepCounted;
    var t, later := Tick(s, ins[0]), ins[1..];
    forall k | 1 <= k <= u + 3
      ensures Exec(s, ins[..k]) == Exec(t, later[..k - 1])
      ensures Steps(s, ins[..k]) == (if StepCounted(s, ins[0]) then 1 else 0) + Steps(t, later[..k - 1])
    {
      UnfoldRun(s, ins, k);
    }
    assert ins[..0] == [];
    forall k | 0 <= k < u + 1 ensures Exec(s, ins[..k]).motor.buf == Command {
      if k > 0 {
        assert Exec(t, later[..k - 1]).motor.buf == Command;
      }
    }
    forall k | u + 1 <= k <= u + 3
      ensures Steps(s, ins[..k]) == n + if StepCounted(s, ins[0]) then 1 else 0
      ensures k > u + 1 ==> Exec(s, ins[..k]).position == rest
    {
      assert later[..k - 1] == ins[..k][1..];
    }
  }

  lemma GivenUpTicks(s: Regs, g: Aim, i: Ctrl, j: Ctrl)
    requires GivenUp(s, g)
    ensures !StepCounted(s, i) && !StepCounted(Tick(s, i), j)
    ensures Tick(s, i).position == Tick(Tick(s, i), j).position == Rest(g)
    ensures Tick(s, i).motor.state == Idle
  {
    var a := Tick(s, i);
    hide Rest, NextClock, NextBacklash, NextSettings, NextSlack;
    assert a.position == Rest(g);
    assert a.loader.state == Normal ==> !Tick(a, j).loader.cntEnable;
    assert a.loader.state != Normal ==> a.loader.loadCounter == Rest(g);
  }

  lemma GivenUpEnds(s: Regs, g: Aim, ins: seq<Ctrl>)
    requires GivenUp(s, g) && |ins| >= 2
    ensures 2 <= g.m && Ends(s, ins, 0, 0, g.target, Rest(g))
  {
    GivenUpTicks(s, g, ins[0], ins[1]);
    hide Tick, StepCounted, Rest;
    UnfoldRun(s, ins, 1);
    UnfoldRun(s, ins, 2);
    UnfoldRun(Tick(s, ins[0]), ins[1..], 1);
    assert ins[..0] == [];
    forall k | 0 <= k <= 2 ensures Steps(s, ins[..k]) == 0 && (k > 0 ==> Exec(s, ins[..k]).position == Rest(g)) {
      assert k == 0 || k == 1 || k == 2;
    }
  }

  ghost predicate AllCalm(ins: seq<Ctrl>, g: Aim) {
    forall k :: 0 <= k < |ins| ==> Calm(ins[k], g)
  }

  /** From any point of a command whose speed has arrived. */
  lemma {:induction false} UnderwayRun(s: Regs, g: Aim, ins: seq<Ctrl>) returns (u: nat)
    requires Underway(s, g) && AllCalm(ins, g) && |ins| >= TicksLeft(s, g) + 2
    ensures 2 <= g.m && u <= TicksLeft(s, g) && Ends(s, ins, u, Remaining(g, s.position), g.target, Rest(g))
    decreases |ins|
  {
    hide *;
    TimeIsLeft(s, g);
    CalmParts(ins, g);
    UnderwayTick(s, g, ins[0]);
    UnderwayFacts(s, g);
    var t := Tick(s, ins[0]);
    var ends := s.position == g.target && !s.clock.step;
    if ends {
      GivenUpEnds(t, g, ins[1..]);
      u := 0;
    } else {
      u := UnderwayRun(t, g, ins[1..]);
    }
    EndsOneTickEarlier(s, ins, u, if ends then 0 else Remaining(g, t.position), g.target, Rest(g));
    u := u + 1;
  }

  lemma CalmParts(ins: seq<Ctrl>, g: Aim)
    requires AllCalm(ins, g) && ins != []
    ensures Calm(ins[0], g) && AllCalm(ins[1..], g)
  {
  }

  lemma UnderwayFacts(s: Regs, g: Aim)
    requires Underway(s, g)
    ensures s.motor.buf == Command && 2 <= g.m
    ensures s.position == g.target && !s.clock.step ==> Remaining(g, s.position) == 0 && !Due(s)
  {
    NotNegative(g, s.position);
  }

  // ---------------------------------------------------------------------------------
  // From the accepting tick
  // ---------------------------------------------------------------------------------

  /** The controller at rest inside the range, about to accept the command. */
  ghost predicate Ready(s: Regs, g: Aim) {
    && 2 <= g.m <= WORD30 - 3 && g.period >= 3
    && InRange(s, g.m) && s.loader.state == Normal && s.loader.max2 == g.m && s.position <= g.m
    && Commanded(s) && TargetOf(s) == g.target
    && s.settings.direction == g.up && s.settings.tick == g.period
    && s.pipe.speed0 == s.pipe.speed1 == s.motor.speed == s.backlash.period
    && !Resets(s.trigger)
    && DeltaOf(s.motor.mode, g.isTmc) == 1 && DeltaOf(s.pipe.modeBuf, g.isTmc) == 1
    && DeltaOf(s.backlash.modeOut, g.isTmc) == 1 && DeltaOf(s.settings.mode, g.isTmc) == 1
    && NoBacklash(s)
    && (s.backlash.period == g.period ==> InCycle(s.clock, g.period))
  }

  /** Its target is met, but not yet. */
  ghost predicate Begins(s: Regs, g: Aim) {
    Ready(s, g) && Meets(g, s.position) && s.position != g.target
  }

  /** After the accepting tick. */
  ghost predicate Begun(a: Regs, g: Aim) {
    && Meets(g, a.position) && g.period >= 3
    && InRange(a, g.m) && a.loader.state == Normal && a.position <= g.m && a.position != g.target
    && a.motor.state == Idle && a.motor.buf == Command && a.motor.direction == g.up && a.motor.target == g.target
    && a.motor.speed == g.period && !a.settings.cancel
    && a.pipe.speed0 == a.pipe.speed1 == a.backlash.period
    && !Resets(a.trigger) && NoBacklash(a)
    && DeltaOf(a.motor.mode, g.isTmc) == 1 && DeltaOf(a.pipe.modeBuf, g.isTmc) == 1
    && DeltaOf(a.backlash.modeOut, g.isTmc) == 1
  }

  lemma FirstTick(s: Regs, g: Aim, i: Ctrl)
    requires Begins(s, g) && Calm(i, g)
    ensures Begun(Tick(s, i), g) && !StepCounted(s, i)
    ensures var a := Tick(s, i);
            a.position == s.position && a.backlash.period == s.backlash.period
            && a.clock == NextClock(s.clock, Steady, s.backlash.period)
  {
    OldClock(s, i);
    AcceptedCommand(s, i);
    RangeTick(s, g.m, i);
    hide NextClock, NextPosition, InRange, RelativeTarget;
  }

  lemma SecondTick(a: Regs, g: Aim, i: Ctrl)
    requires Begun(a, g) && Calm(i, g)
    ensures var b := Tick(a, i);
            && Heads(b, g) && !StepCounted(a, i) && b.position == a.position && b.loader.state == Normal
            && b.pipe.speed1 == b.backlash.period == a.backlash.period && !Resets(b.trigger)
            && b.clock == NextClock(a.clock, Steady, a.backlash.period)
  {
    OldClock(a, i);
    IdleCountsNothing(a, i);
    RangeTick(a, g.m, i);
    hide NextClock, NextPosition, InRange;
  }

  lemma UnderwayAtOnce(b: Regs, g: Aim)
    requires Heads(b, g) && b.position <= g.m && b.loader.state == Normal && b.position != g.target
    requires SteadyClock(b, g.period) && g.period >= 3
    ensures Underway(b, g)
  {
  }

  /** The new speed is one register short of counter_buf: the step clock restarts on this tick. */
  ghost predicate Restarts(c: Regs, g: Aim) {
    && Heads(c, g) && c.loader.state == Normal && g.period >= 3
    && c.pipe.speed1 == g.period && Resets(c.trigger)
    && (c.position == g.target ==> c.loader.counterClk)
  }

  lemma SpeedTravels(b: Regs, g: Aim, i: Ctrl)
    requires Heads(b, g) && Calm(i, g) && b.position <= g.m && b.loader.state == Normal && b.position != g.target
    requires b.pipe.speed1 == b.backlash.period != g.period && g.period >= 3
    ensures Restarts(Tick(b, i), g)
  {
    hide Heads, InRange, Remaining, Tick, StepCounted;
    HeadsTick(b, g, i);
    CounterState(b, g, i);
    HeadsFacts(b, g);
    PipeMoves(b, g, i);
    assert !Out(b.position, g.m);
  }

  lemma PipeMoves(b: Regs, g: Aim, i: Ctrl)
    requires Heads(b, g)
    ensures Tick(b, i).pipe.speed1 == g.period && Tick(b, i).trigger == NextTrigger(b.pipe)
    ensures b.pipe.speed1 != g.period ==> Resets(Tick(b, i).trigger)
    ensures b.pipe.speed1 == g.period ==> !Resets(Tick(b, i).trigger)
    ensures Tick(b, i).backlash.period == b.pipe.speed1
  {
  }

  lemma ClockRestarts(c: Regs, g: Aim, i: Ctrl)
    requires Restarts(c, g) && Calm(i, g)
    ensures Remaining(g, Tick(c, i).position) == Remaining(g, c.position) - if StepCounted(c, i) then 1 else 0
    ensures if c.position == g.target && !c.clock.step then GivenUp(Tick(c, i), g) && !StepCounted(c, i)
            else Underway(Tick(c, i), g) && ToRise(Tick(c, i).clock, g.period) <= g.period
  {
    HeadsTick(c, g, i);
    CounterState(c, g, i);
    PipeMoves(c, g, i);
    NotNegative(g, c.position);
    MotorTick(c, g, i);
    MaxStays(c, g, i);
    ResetClock(c, i);
    hide Heads, InRange, Remaining, NextLoader, NextMotor, NextClock, NextPosition, NextSettings, NextBacklash;
  }

  lemma ResetClock(c: Regs, i: Ctrl)
    requires Resets(c.trigger)
    ensures Tick(c, i).clock == Clock(false, 0)
  {
  }

  lemma RestartedRun(c: Regs, g: Aim, ins: seq<Ctrl>) returns (u: nat)
    requires Restarts(c, g) && AllCalm(ins, g)
    requires |ins| >= Limit(g, c.position) + 2
    ensures u <= Limit(g, c.position)
    ensures 2 <= g.m && Ends(c, ins, u, Remaining(g, c.position), g.target, Rest(g))
  {
    hide *;
    RemainingHere(c, g);
    LimitIs(g, c.position);
    CalmParts(ins, g);
    ClockRestarts(c, g, ins[0]);
    var d := Tick(c, ins[0]);
    var ends := c.position == g.target && !c.clock.step;
    if ends {
      GivenUpEnds(d, g, ins[1..]);
      u := 0;
    } else {
      AtMost(d, g, Remaining(g, c.position));
      u := UnderwayRun(d, g, ins[1..]);
    }
    EndsOneTickEarlier(c, ins, u, if ends then 0 else Remaining(g, d.position), g.target, Rest(g));
    u := u + 1;
  }

  lemma RemainingHere(c: Regs, g: Aim)
    requires Restarts(c, g)
    ensures Remaining(g, c.position) >= 0 && (c.position == g.target ==> Remaining(g, c.position) == 0)
    ensures g.period >= 3 && c.motor.buf == Command && 2 <= g.m
  {
    NotNegative(g, c.position);
  }

  /** Ticks within which a command ends that restarts the step clock at position x: a cycle for
      every step, three for the rises that a load sequence may cost, and one to begin with. */
  function Limit(g: Aim, x: Word30): int {
    Cycles(Remaining(g, x) + 3, g.period) + g.period + 2
  }

  lemma LimitIs(g: Aim, x: Word30)
    requires Remaining(g, x) >= 0 && g.period >= 3
    ensures Limit(g, x) == Cycles(Remaining(g, x) + 3, g.period) + g.period + 2 >= g.period + 2
  {
    CyclesArePositive(Remaining(g, x) + 3, g.period);
  }

  lemma AtMost(d: Regs, g: Aim, n: int)
    requires Underway(d, g) && Remaining(g, d.position) <= n
    ensures TicksLeft(d, g) <= Cycles(n + 3, g.period) + g.period + 1
  {
    TimeIsLeft(d, g);
    AtTarget(d, g);
    Halves(d.clock, g.period);
    ClockTick(d.clock, Steady, g.period, NextClock(d.clock, Steady, g.period));
    CyclesGrow(RisesLeft(d, g), n + 3, g.period);
    hide Remaining, Cycles, Heads, NextClock, RisesLeft;
  }

  /** Every command whose target is met, also if the way leads over an end of the range: with period
      P >= 3 and no outside load it is given up within bounded time, at the target, after exactly
      the steps that Remaining says, whatever the pulses that the load sequence costs.  A target
      inside the range is where the position stays; one just outside is replaced by 2 or M - 1. */
  lemma StepsOverTheEnd(s: Regs, g: Aim, ins: seq<Ctrl>) returns (u: nat)
    requires Begins(s, g) && AllCalm(ins, g)
    requires ins != [] && |ins| >= Limit(g, s.position) + 5
    ensures u <= Limit(g, s.position) + 2
    ensures 2 <= g.m && Ends(Tick(s, ins[0]), ins[1..], u, Remaining(g, s.position), g.target, Rest(g))
  {
    hide *;
    AtBegin(s, g);
    LimitIs(g, s.position);
    CalmParts(ins, g);
    FirstTick(s, g, ins[0]);
    var a := Tick(s, ins[0]);
    CalmParts(ins[1..], g);
    SecondTick(a, g, ins[1..][0]);
    BegunFacts(a, g);
    var b := Tick(a, ins[1..][0]);
    if s.backlash.period == g.period {
      ClockTick(s.clock, Steady, g.period, a.clock);
      ClockTick(a.clock, Steady, g.period, b.clock);
      SteadyFrom(b, g);
      UnderwayAtOnce(b, g);
      AtMost(b, g, Remaining(g, s.position));
      u := UnderwayRun(b, g, ins[1..][1..]);
    } else {
      u := Later(b, g, ins[1..][1..]);
    }
    EndsOneTickEarlier(a, ins[1..], u, Remaining(g, s.position), g.target, Rest(g));
    u := u + 1;
  }

  lemma AtBegin(s: Regs, g: Aim)
    requires Begins(s, g)
    ensures Remaining(g, s.position) >= 0 && g.period >= 3 && s.position <= g.m && s.position != g.target
    ensures s.backlash.period == g.period ==> InCycle(s.clock, g.period)
    ensures !Resets(Steady) && 2 <= g.m
  {
    NotNegative(g, s.position);
  }

  lemma BegunFacts(a: Regs, g: Aim)
    requires Begun(a, g)
    ensures a.motor.buf == Command
  {
  }

  lemma Later(b: Regs, g: Aim, ins: seq<Ctrl>) returns (u: nat)
    requires Heads(b, g) && b.position <= g.m && b.loader.state == Normal && b.position != g.target
    requires g.period >= 3 && b.pipe.speed1 == b.backlash.period != g.period && !Resets(b.trigger)
    requires AllCalm(ins, g) && ins != [] && |ins| >= Limit(g, b.position) + 3
    ensures u <= Limit(g, b.position) + 1
    ensures 2 <= g.m && Ends(b, ins, u, Remaining(g, b.position), g.target, Rest(g))
  {
    hide *;
    HeadsFacts(b, g);
    LimitIs(g, b.position);
    CalmParts(ins, g);
    SpeedTravels(b, g, ins[0]);
    HeadsTick(b, g, ins[0]);
    var c := Tick(b, ins[0]);
    RemainingHere(c, g);
    LimitIs(g, c.position);
    CyclesGrow(Remaining(g, c.position) + 3, Remaining(g, b.position) + 3, g.period);
    u := RestartedRun(c, g, ins[1..]);
    EndsOneTickEarlier(b, ins, u, Remaining(g, c.position), g.target, Rest(g));
    u := u + 1;
  }

  lemma HeadsFacts(b: Regs, g: Aim)
    requires Heads(b, g)
    ensures Remaining(g, b.position) >= 0 && b.motor.buf == Command && 2 <= g.m <= WORD30 - 3
  {
    NotNegative(g, b.position);
  }

  // ---------------------------------------------------------------------------------
  // Relative commands
  // ---------------------------------------------------------------------------------

  /** A relative command over n units that passes an end of the range once, aimed at a position that
      the wrap does not skip.  Going up the wrap makes up for one of the n steps. */
  predicate PassesEnd(s: Regs, m: Word30, n: int) {
    && s.position <= m && n < m && s.loader.max2 == m && !s.settings.goto && s.settings.duration == n
    && (if s.settings.direction then m + 2 <= s.position + n < WORD30 else s.position < n)
  }

  function AimOf(s: Regs, m: Word30, isTmc: bool): Aim {
    Aim(m, s.settings.direction, TargetOf(s), s.settings.tick, isTmc)
  }

  lemma AimIsMet(s: Regs, m: Word30, n: int, isTmc: bool)
    requires PassesEnd(s, m, n) && 2 <= m <= WORD30 - 3
    ensures Meets(AimOf(s, m, isTmc), s.position)
    ensures TargetOf(s) == (if s.settings.direction then s.position + n - m else s.position - n + m) != s.position
    ensures Remaining(AimOf(s, m, isTmc), s.position) == if s.settings.direction then n - 1 else n
    ensures Rest(AimOf(s, m, isTmc)) == TargetOf(s)
  {
  }

  /** All relative commands that pass an end of the range once: upward n - 1 steps are counted,
      downward exactly n. */
  lemma RelativeOverTheEnd(s: Regs, m: Word30, n: int, isTmc: bool, ins: seq<Ctrl>) returns (u: nat)
    requires PassesEnd(s, m, n) && Begins(s, AimOf(s, m, isTmc)) && AllCalm(ins, AimOf(s, m, isTmc))
    requires ins != [] && |ins| >= Cycles(n + 3, s.settings.tick) + s.settings.tick + 7
    ensures Ends(Tick(s, ins[0]), ins[1..], u, if s.settings.direction then n - 1 else n, TargetOf(s), TargetOf(s))
  {
    hide *;
    MaximumIs(s, m, isTmc);
    AimIsMet(s, m, n, isTmc);
    var g := AimOf(s, m, isTmc);
    AtBegin(s, g);
    LimitIs(g, s.position);
    CyclesGrow(Remaining(g, s.position) + 3, n + 3, g.period);
    u := StepsOverTheEnd(s, g, ins);
  }

  lemma MaximumIs(s: Regs, m: Word30, isTmc: bool)
    requires Begins(s, AimOf(s, m, isTmc))
    ensures 2 <= m <= WORD30 - 3
    ensures AimOf(s, m, isTmc).period == s.settings.tick && AimOf(s, m, isTmc).target == TargetOf(s)
    ensures 3 <= s.settings.tick
  {
  }

  /** Relative commands over M or more do not go round: they make the n - M steps that are left, none
      for n = M. */
  lemma MoreThanARound(s: Regs, p: Plan, m: Word30)
    requires InRange(s, m) && s.loader.max2 == m && s.position == p.start <= m && p.delta == 1
    requires !s.settings.goto && s.settings.direction == p.up && s.settings.duration == m + p.count
    requires if p.up then 1 <= p.start + p.count && p.start + p.count <= m && p.start + m + p.count < WORD30
             else p.count <= p.start
    ensures Aims(s, p)
  {
  }
}
