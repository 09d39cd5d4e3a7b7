/** Which step pulses the wraps of hdl/drv8825.vhd cost, for every period: the pulse after the one
    that leaves 0..M is lost if and only if the step clock is low for at most six ticks between
    them. */
module PulseAfterWrap {
  import opened Drv8825
  import opened StepClock
  import opened WrapAround
  import opened LoadTiming

  /** The pulse counted on this tick takes the position out of 0..M, at either end. */
  predicate WrapCounted(s: Regs, m: Word30, i: Ctrl) {
    StepCounted(s, i) && Out(Tick(s, i).position, m)
  }

  /** The low part of the step clock before its next rise: what is left of it or all of it. */
  function LowAhead(c: Clock, period: int): int {
    if c.step then OtherHalf(c, period) else ToToggle(c, period)
  }

  /** The length of the next high part. */
  function HighAhead(c: Clock, period: int): int {
    period + 1 - if c.step then OtherHalf(c, period) else period + 1 - OtherHalf(c, period)
  }

  /** The bound on the period: from 13 on the low part is long enough, up to 11 it never is, and with
      12 it is when the wrapping pulse is counted in the shorter half of the cycle. */
  lemma WhichPeriods(c: Clock, period: int)
    requires period >= 1 && InCycle(c, period)
    ensures period >= 13 && c.step ==> LowAhead(c, period) >= 7
    ensures period <= 11 ==> LowAhead(c, period) <= 6
    ensures period == 12 && c.step ==> (LowAhead(c, period) >= 7 <==> c.count >= 7)
  {
  }

  /** Outside the range, waiting for the step clock to go low. */
  ghost predicate Waits(s: Regs, m: Word30) {
    InRange(s, m) && s.loader.state == Normal && s.loader.counterClk && Out(s.position, m)
  }

  lemma AtWrap(s: Regs, m: Word30, i: Ctrl)
    requires InRange(s, m) && Allowed(i, m) && Tick(s, i).delta == 1 && WrapCounted(s, m, i)
    ensures Waits(Tick(s, i), m)
  {
    RangeTick(s, m, i);
  }

  lemma WaitTick(s: Regs, m: Word30, i: Ctrl)
    requires Waits(s, m) && s.clock.step && Allowed(i, m) && Tick(s, i).delta == 1
    ensures Waits(Tick(s, i), m) && !StepCounted(s, i)
  {
    RangeTick(s, m, i);
  }

  /** The rest of the pulse that was counted. */
  lemma {:induction false} WaitForLow(s: Regs, m: Word30, ins: seq<Ctrl>, period: int)
    requires Waits(s, m) && s.clock.step && period >= 1 && InCycle(s.clock, period)
    requires Regular(s, m, ins) && ConstantPeriod(s, ins, period) && |ins| == ToToggle(s.clock, period)
    ensures var f := Exec(s, ins);
            && Waits(f, m) && !f.clock.step && InCycle(f.clock, period)
            && ToToggle(f.clock, period) == OtherHalf(s.clock, period)
            && OtherHalf(f.clock, period) == period + 1 - OtherHalf(s.clock, period)
    ensures Steps(s, ins) == 0
    decreases |ins|
  {
    ClockTick(s.clock, s.trigger, period, NextClock(s.clock, s.trigger, period));
    ClockOf(s, ins[0]);
    WaitTick(s, m, ins[0]);
    hide Tick, NextClock, ToToggle, OtherHalf, SinceToggle, ToRise, Waits;
    if |ins| == 1 {
      assert ins[1..] == [];
    } else {
      WaitForLow(Tick(s, ins[0]), m, ins[1..], period);
    }
  }

  lemma ReplaceTick(s: Regs, m: Word30, i: Ctrl)
    requires Waits(s, m) && !s.clock.step && Allowed(i, m) && Tick(s, i).delta == 1
    ensures InRange(Tick(s, i), m) && Tick(s, i).loader.state == Buf0 && !StepCounted(s, i)
  {
    RangeTick(s, m, i);
  }

  /** The replacement takes six ticks from there. */
  lemma Replacement(s: Regs, m: Word30, ins: seq<Ctrl>)
    requires Waits(s, m) && !s.clock.step && Regular(s, m, ins) && 1 <= |ins| <= 6
    ensures Steps(s, ins) == 0
    ensures |ins| == 6 ==>
              var g := Exec(s, ins);
              InRange(g, m) && g.loader.state == Normal && g.loader.counterClk && g.position <= m
  {
    ReplaceTick(s, m, ins[0]);
    hide Tick, InRange, Waits;
    LoadSequence(Tick(s, ins[0]), m, ins[1..]);
  }

  /** Enough time: from the first low tick, the next pulse is counted as usual. */
  lemma LongLow(f: Regs, m: Word30, ins: seq<Ctrl>, i: Ctrl, period: int)
    requires Waits(f, m) && !f.clock.step && period >= 1 && InCycle(f.clock, period)
    requires Regular(f, m, ins) && ConstantPeriod(f, ins, period) && NoLoads(ins)
    requires |ins| == ToToggle(f.clock, period) >= 7
    ensures Steps(f, ins) == 0
    ensures var h := Exec(f, ins);
            h.clock.step && (StepCounted(h, i) <==> h.motor.state != Idle && h.backlash.state != Processing)
  {
    hide *;
    var load, rest := ins[..6], ins[6..];
    assert ins == load + rest;
    AtLeastOne(f.clock, period);
    Split(f, m, ins, 6, period);
    Replacement(f, m, load);
    ClockRun(f, load, period);
    NoLoadsAfter(ins, 6);
    UntilRise(Exec(f, load), m, rest, period);
    RunsConcatenate(f, load, rest);
    RiseIsFollowed(Exec(f, ins), i);
  }

  /** Too little: from the first low tick to the end of the next pulse nothing is counted. */
  lemma ShortLow(f: Regs, m: Word30, ins: seq<Ctrl>, period: int)
    requires Waits(f, m) && !f.clock.step && period >= 1 && InCycle(f.clock, period)
    requires Regular(f, m, ins) && ConstantPeriod(f, ins, period)
    requires ToToggle(f.clock, period) <= 6
    requires |ins| == ToToggle(f.clock, period) + OtherHalf(f.clock, period)
    ensures Steps(f, ins) == 0
  {
    hide *;
    AtLeastOne(f.clock, period);
    if |ins| <= 6 {
      Replacement(f, m, ins);
    } else {
      var load, rest := ins[..6], ins[6..];
      assert ins == load + rest;
      Split(f, m, ins, 6, period);
      Replacement(f, m, load);
      ClockRun(f, load, period);
      UntilFall(Exec(f, load), rest, period);
      RunsConcatenate(f, load, rest);
    }
  }

  /** Ticks from the wrapping step to the first low state. */
  function ToLow(c: Clock, period: int): int {
    if c.step then ToToggle(c, period) else 0
  }

  lemma Ahead(c: Clock, period: int)
    requires period >= 1 && InCycle(c, period)
    ensures ToLow(c, period) == if c.step then ToToggle(c, period) else 0
    ensures ToRise(c, period) == ToLow(c, period) + LowAhead(c, period)
    ensures LowAhead(c, period) == if c.step then OtherHalf(c, period) else ToToggle(c, period)
    ensures HighAhead(c, period) == if c.step then period + 1 - OtherHalf(c, period) else OtherHalf(c, period)
    ensures ToLow(c, period) >= 0 && LowAhead(c, period) >= 1 && HighAhead(c, period) >= 1
  {
  }

  /** The run up to the first low state. */
  lemma FirstLow(t: Regs, m: Word30, ins: seq<Ctrl>, period: int)
    requires Waits(t, m) && period >= 1 && InCycle(t.clock, period)
    requires Regular(t, m, ins) && ConstantPeriod(t, ins, period) && |ins| == ToLow(t.clock, period)
    ensures var f := Exec(t, ins);
            && Waits(f, m) && !f.clock.step && InCycle(f.clock, period)
            && ToToggle(f.clock, period) == LowAhead(t.clock, period)
            && OtherHalf(f.clock, period) == HighAhead(t.clock, period)
    ensures Steps(t, ins) == 0
  {
    hide *;
    Ahead(t.clock, period);
    if t.clock.step {
      WaitForLow(t, m, ins, period);
    } else {
      NoTicks(t, ins);
    }
  }

  lemma NoTicks(s: Regs, ins: seq<Ctrl>)
    requires ins == []
    ensures Exec(s, ins) == s && Steps(s, ins) == 0
  {
  }

  /** For every period and both wraps, from the tick that counts the wrapping pulse, with no load
      from outside: if the step clock is then low for at least seven ticks, nothing is counted
      before it rises again, and the next tick counts that pulse exactly when the motor is in use
      and no backlash is taken up; if it is low for at most six, nothing is counted until that
      pulse is over. */
  lemma PulseAfterWrap(s: Regs, m: Word30, i: Ctrl, ins: seq<Ctrl>, period: int)
    requires InRange(s, m) && Allowed(i, m) && WrapCounted(s, m, i)
    requires var t := Tick(s, i);
             && Regular(t, m, ins) && ConstantPeriod(t, ins, period) && NoLoads(ins)
             && period >= 1 && InCycle(t.clock, period)
             && |ins| == ToRise(t.clock, period) + HighAhead(t.clock, period)
    ensures var t := Tick(s, i);
            var r := ToRise(t.clock, period);
            var h := Exec(t, ins[..r]);
            && 0 < r < |ins| && h.clock.step
            && (LowAhead(t.clock, period) >= 7 ==>
                  && Steps(t, ins[..r]) == 0
                  && (StepCounted(h, ins[r]) <==> h.motor.state != Idle && h.backlash.state != Processing))
            && (LowAhead(t.clock, period) <= 6 ==> Steps(t, ins) == 0)
  {
    hide *;
    var t := Tick(s, i);
    DeltaIsOne(t, m, ins);
    AtWrap(s, m, i);
    Ahead(t.clock, period);
    var n, r := ToLow(t.clock, period), ToRise(t.clock, period);
    var high, rest := ins[..n], ins[n..];
    assert ins == high + rest;
    Split(t, m, ins, n, period);
    FirstLow(t, m, high, period);
    var f := Exec(t, high);
    RunsConcatenate(t, high, rest);
    var low := rest[..r - n];
    assert ins[..r] == high + low;
    RunsConcatenate(t, high, low);
    Split(f, m, rest, r - n, period);
    NoLoadsAfter(ins, n);
    NoLoadsAfter(rest, r - n);
    ClockRun(f, low, period);
    if LowAhead(t.clock, period) >= 7 {
      LongLow(f, m, low, ins[r], period);
    } else {
      ShortLow(f, m, rest, period);
    }
  }

  lemma DeltaIsOne(t: Regs, m: Word30, ins: seq<Ctrl>)
    requires Regular(t, m, ins)
    ensures t.delta == 1
  {
  }
}
