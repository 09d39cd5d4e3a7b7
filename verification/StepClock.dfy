/** The step clock of hdl/drv8825.vhd over arbitrary runs with a constant period. */
module StepClock {
  import opened Drv8825

  /** Ticks until stepping_clk toggles next. */
  function ToToggle(c: Clock, period: int): int {
    if c.count <= period / 2 then period / 2 + 1 - c.count else period + 1 - c.count
  }

  /** Ticks since it toggled last. */
  function SinceToggle(c: Clock, period: int): int {
    if c.count <= period / 2 then c.count else c.count - period / 2 - 1
  }

  /** Length of the half cycle that follows the present one. */
  function OtherHalf(c: Clock, period: int): int {
    if c.count <= period / 2 then period - period / 2 else period / 2 + 1
  }

  /** Ticks until stepping_clk rises next. */
  function ToRise(c: Clock, period: int): int {
    if c.step then ToToggle(c, period) + OtherHalf(c, period) else ToToggle(c, period)
  }

  predicate InCycle(c: Clock, period: int) {
    0 <= c.count <= period
  }

  /** One tick without a reset: the countdowns run, and the half cycles alternate whatever the
      phase of the clock. */
  lemma ClockTick(c: Clock, trigger: Trigger, period: int, c': Clock)
    requires period >= 1 && InCycle(c, period) && !Resets(trigger)
    requires c' == NextClock(c, trigger, period)
    ensures InCycle(c', period)
    ensures 1 <= ToToggle(c, period)
    ensures SinceToggle(c, period) + ToToggle(c, period) + OtherHalf(c, period) == period + 1
    ensures c'.step != c.step <==> ToToggle(c, period) == 1
    ensures c'.step == c.step ==>
              && ToToggle(c', period) == ToToggle(c, period) - 1
              && SinceToggle(c', period) == SinceToggle(c, period) + 1
              && OtherHalf(c', period) == OtherHalf(c, period)
    ensures c'.step != c.step ==>
              && SinceToggle(c', period) == 0
              && ToToggle(c', period) == OtherHalf(c, period)
              && OtherHalf(c', period) == SinceToggle(c, period) + 1
    ensures c'.step && !c.step <==> ToRise(c, period) == 1
    ensures ToRise(c', period) == (if ToRise(c, period) == 1 then period + 1 else ToRise(c, period) - 1)
  {
  }

  predicate Rises(s: Regs, i: Ctrl) {
    !s.clock.step && Tick(s, i).clock.step
  }

  function RisingEdges(s: Regs, ins: seq<Ctrl>): nat
    decreases |ins|
  {
    if ins == [] then 0
    else (if Rises(s, ins[0]) then 1 else 0) + RisingEdges(Tick(s, ins[0]), ins[1..])
  }

  lemma CycleCount(m: int, cycle: int)
    requires cycle > 0
    ensures (m + cycle) / cycle == m / cycle + 1
  {
    assert m == (m / cycle) * cycle + m % cycle;
    assert m + cycle == (m / cycle + 1) * cycle + m % cycle;
    DivisionIsUnique(m + cycle, cycle, m / cycle + 1, m % cycle);
  }

  lemma DivisionIsUnique(n: int, cycle: int, q: int, r: int)
    requires cycle > 0 && n == q * cycle + r && 0 <= r < cycle
    ensures n / cycle == q
  {
    var k := n / cycle;
    assert k * cycle + n % cycle == n;
    MultipleIsFar(k - q, cycle);
  }

  lemma MultipleIsFar(x: int, cycle: int)
    requires cycle > 0
    ensures x > 0 ==> x * cycle >= cycle
    ensures x < 0 ==> x * cycle <= -cycle
  {
  }

  /** Rising edges of a clock that runs on for n ticks. */
  function Edges(c: Clock, period: int, n: nat): nat
    decreases n
  {
    if n == 0 then 0
    else
      var c' := NextClock(c, Steady, period);
      (if !c.step && c'.step then 1 else 0) + Edges(c', period, n - 1)
  }

  /** Closed form: the first rising edge comes after ToRise ticks, then there is exactly one in
      every period + 1 ticks. */
  lemma {:induction false} EdgesInClosedForm(c: Clock, period: int, n: nat)
    requires period >= 1 && InCycle(c, period)
    ensures Edges(c, period, n) == (n + period + 1 - ToRise(c, period)) / (period + 1)
    decreases n
  {
    hide NextClock;
    var c' := NextClock(c, Steady, period);
    ClockTick(c, Steady, period, c');
    if n == 0 {
      DivisionIsUnique(period + 1 - ToRise(c, period), period + 1, 0, period + 1 - ToRise(c, period));
    } else {
      EdgesInClosedForm(c', period, n - 1);
      CycleCount(n - 1, period + 1);
    }
  }

  /** One whole cycle holds exactly one rising edge, in any phase. */
  lemma OneEdge(c: Clock, period: int)
    requires period >= 1 && InCycle(c, period)
    ensures Edges(c, period, period + 1) == 1
  {
    EdgesInClosedForm(c, period, period + 1);
    ClockTick(c, Steady, period, NextClock(c, Steady, period));
    var r := period + 1 - ToRise(c, period);
    DivisionIsUnique(period + 1 + r, period + 1, 1, r);
  }

  /** Over any run of the controller. */
  lemma {:induction false} EdgesOfRun(s: Regs, ins: seq<Ctrl>, period: int)
    requires ConstantPeriod(s, ins, period)
    ensures RisingEdges(s, ins) == Edges(s.clock, period, |ins|)
    decreases |ins|
  {
    hide Tick, NextClock;
    if ins != [] {
      ClockOf(s, ins[0]);
      UnresetClock(s.clock, s.trigger, period);
      EdgesOfRun(Tick(s, ins[0]), ins[1..], period);
    }
  }

  lemma EdgeCount(s: Regs, ins: seq<Ctrl>, period: int)
    requires period >= 1 && InCycle(s.clock, period) && ConstantPeriod(s, ins, period)
    ensures RisingEdges(s, ins) == Edges(s.clock, period, |ins|)
    ensures RisingEdges(s, ins) == (|ins| + period + 1 - ToRise(s.clock, period)) / (period + 1)
  {
    hide *;
    EdgesOfRun(s, ins, period);
    EdgesInClosedForm(s.clock, period, |ins|);
  }

  lemma UnresetClock(c: Clock, trigger: Trigger, period: int)
    requires !Resets(trigger)
    ensures NextClock(c, trigger, period) == NextClock(c, Steady, period)
  {
  }

  lemma ClockOf(s: Regs, i: Ctrl)
    ensures Tick(s, i).clock == NextClock(s.clock, s.trigger, s.backlash.period)
  {
  }

  /** Any period + 1 consecutive ticks hold exactly one rising edge. */
  lemma OneEdgePerCycle(s: Regs, ins: seq<Ctrl>, period: int)
    requires period >= 1 && InCycle(s.clock, period) && ConstantPeriod(s, ins, period)
    requires |ins| == period + 1
    ensures RisingEdges(s, ins) == 1
  {
    EdgeCount(s, ins, period);
    OneEdge(s.clock, period);
  }

  // ---------------------------------------------------------------------------------
  // A new speed
  // ---------------------------------------------------------------------------------

  /** The three ticks after issue_speed has changed: the new period reaches counter_buf on the
      very tick on which the step clock is reset, so no cycle mixes two periods. */
  lemma SpeedChange(s: Regs, i: Ctrl, j: Ctrl, k: Ctrl)
    requires s.pipe.speed0 == s.pipe.speed1 != s.motor.speed
    requires Tick(s, i).motor.speed == s.motor.speed
    requires s.backlash.state == Disabled && Tick(s, i).backlash.state == Disabled
    requires Tick(Tick(s, i), j).backlash.state == Disabled
    ensures var r := Exec(s, [i, j, k]);
            r.backlash.period == s.motor.speed && r.clock == Clock(false, 0)
    ensures !Resets(Tick(s, i).trigger) && !Resets(Exec(s, [i, j, k]).trigger)
  {
    hide NextLoader, NextMotor, NextPosition, NextSettings, NextSlack;
    var a := Tick(s, i);
    var b := Tick(a, j);
    assert a.pipe.speed0 == s.motor.speed != a.pipe.speed1;
    assert Resets(b.trigger);
    assert b.pipe.speed0 == b.pipe.speed1 == s.motor.speed;
    assert [i, j, k][1..] == [j, k] && [j, k][1..] == [k] && [k][1..] == [];
    assert Exec(s, [i, j, k]) == Exec(a, [j, k]) == Exec(b, [k]) == Tick(b, k);
  }
}
