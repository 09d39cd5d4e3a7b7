/** The step pin of hdl/drv8825.vhd against the position counter: how many pulses a command puts on
    drv8825_step, and how many of them are counted. */
module StepPin {
  import opened Drv8825
  import opened StepClock
  import opened RelativeCommand

  /** What registered_output clocks into drv8825_step on the next tick. */
  predicate Pin(s: Regs) {
    s.motor.state != Idle && s.clock.step
  }

  predicate PinRises(s: Regs, i: Ctrl) {
    !Pin(s) && Pin(Tick(s, i))
  }

  function PinPulses(s: Regs, ins: seq<Ctrl>): nat
    decreases |ins|
  {
    if ins == [] then 0 else (if PinRises(s, ins[0]) then 1 else 0) + PinPulses(Tick(s, ins[0]), ins[1..])
  }

  /** A pulse is on the pin that the counter has still to count. */
  function Owed(s: Regs): nat {
    if s.motor.state == Command && Pending(s) then 1 else 0
  }

  lemma CountsOwed(s: Regs, i: Ctrl)
    requires s.motor.state == Command && s.loader.state == Normal && s.backlash.state == Disabled
    ensures StepCounted(s, i) <==> Pending(s)
    ensures Tick(s, i).loader.counterClk == s.clock.step
  {
  }

  /** While the command drives the pin, a pulse begins exactly when one is owed afterwards. */
  lemma DrivingTick(s: Regs, p: Plan, j: nat, i: Ctrl)
    requires Running(s, p, j) && Quiet(i, p)
    ensures var t := Tick(s, i);
            && t.motor.state == Command && t.loader.state == Normal && t.backlash.state == Disabled
            && (PinRises(s, i) <==> Pending(t))
    ensures j == p.count && !s.clock.step ==> Tick(s, i).motor.buf == Idle
  {
    CountsOwed(s, i);
    StaysClear(s, p, j, i);
    hide NextLoader, NextClock, NextPosition, NextSettings;
  }

  lemma StaysClear(s: Regs, p: Plan, j: nat, i: Ctrl)
    requires Running(s, p, j)
    ensures Tick(s, i).loader.state == Normal && s.position == Along(p, j)
  {
    assert s.position == Along(p, j);
    hide NextMotor, NextClock, NextPosition, NextSettings, NextBacklash, NextSlack;
  }

  lemma UnfoldPin(s: Regs, ins: seq<Ctrl>, m: nat)
    requires 1 <= m <= |ins|
    ensures PinPulses(s, ins[..m])
            == (if PinRises(s, ins[0]) then 1 else 0) + PinPulses(Tick(s, ins[0]), ins[1..][..m - 1])
  {
    assert ins[..m][0] == ins[0];
    assert ins[..m][1..] == ins[1..][..m - 1];
  }

  /** The promise about a run holds one tick later too. */
  lemma DeliversOneTickLater(s: Regs, p: Plan, j: nat, ins: seq<Ctrl>, u: nat)
    requires ins != [] && u >= 1 && Delivers(s, p, j, ins, u)
    ensures Delivers(Tick(s, ins[0]), p, if StepCounted(s, ins[0]) then j + 1 else j, ins[1..], u - 1)
  {
    hide Tick, Along, StepCounted;
    var t, rest := Tick(s, ins[0]), ins[1..];
    forall m | 0 <= m <= u + 1
      ensures Exec(t, rest[..m]) == Exec(s, ins[..m + 1])
      ensures Steps(s, ins[..m + 1]) == (if StepCounted(s, ins[0]) then 1 else 0) + Steps(t, rest[..m])
    {
      UnfoldRun(s, ins, m + 1);
    }
    forall m | 0 <= m < u - 1 ensures Exec(t, rest[..m]).motor.buf == Command {
      assert Exec(s, ins[..m + 1]).motor.buf == Command;
    }
  }

  /** What a run promises about its first tick. */
  lemma FirstOfDelivered(s: Regs, p: Plan, j: nat, ins: seq<Ctrl>, u: nat)
    requires Delivers(s, p, j, ins, u)
    ensures |ins| >= u + 2
    ensures s.motor.buf == Command ==> u >= 1
    ensures u >= 2 ==> Tick(s, ins[0]).motor.buf == Command
    ensures u == 0 ==> j == p.count && Tick(s, ins[0]).motor.state == Idle && !StepCounted(s, ins[0])
    ensures u >= 1 ==> j + (if StepCounted(s, ins[0]) then 1 else 0) <= p.count
  {
    hide Tick, Along, StepCounted;
    assert ins[..0] == [] && ins[1..][..0] == [];
    UnfoldRun(s, ins, 1);
    assert u >= 2 ==> Exec(s, ins[..1]).motor.buf == Command;
    assert Steps(s, ins[..0]) == 0;
  }

  /** A driving command whose run keeps its promise: what is on the pin from now on, together with
      what is owed, is what is still to be counted. */
  lemma {:induction false} DrivenPulses(s: Regs, p: Plan, j: nat, ins: seq<Ctrl>, u: nat)
    requires Running(s, p, j) && AllQuiet(ins, p) && Delivers(s, p, j, ins, u)
    ensures u < |ins| && PinPulses(s, ins[..u + 1]) + Owed(s) == p.count - j
    decreases u
  {
    hide *;
    OneDrivenTick(s, p, j, ins, u);
    DeliversOneTickLater(s, p, j, ins, u);
    UnfoldPin(s, ins, u + 1);
    var t, j' := Tick(s, ins[0]), j + Owed(s);
    if u == 1 {
      LastPulse(t, p, j', ins[1..]);
    } else {
      DrivenPulses(t, p, j', ins[1..], u - 1);
    }
  }

  lemma OneDrivenTick(s: Regs, p: Plan, j: nat, ins: seq<Ctrl>, u: nat)
    requires Running(s, p, j) && AllQuiet(ins, p) && Delivers(s, p, j, ins, u)
    ensures 1 <= u <= |ins| - 2 && AllQuiet(ins[1..], p)
    ensures Owed(s) == if StepCounted(s, ins[0]) then 1 else 0
    ensures var t := Tick(s, ins[0]);
            && t.motor.state == Command && t.loader.state == Normal && t.backlash.state == Disabled
            && Owed(t) == (if PinRises(s, ins[0]) then 1 else 0)
            && (u > 1 ==> Running(t, p, j + Owed(s)))
  {
    FirstOfDelivered(s, p, j, ins, u);
    CountsOwed(s, ins[0]);
    CommandTick(s, p, j, ins[0]);
    DrivingTick(s, p, j, ins[0]);
    RunningFacts(s, p, j);
    hide Tick, Running, Delivers, StepCounted, Along, PinRises;
  }

  lemma RunningFacts(s: Regs, p: Plan, j: nat)
    requires Running(s, p, j)
    ensures s.motor.state == Command && s.motor.buf == Command && s.loader.state == Normal
    ensures s.backlash.state == Disabled
  {
  }

  lemma LastPulse(x: Regs, p: Plan, j: nat, ins: seq<Ctrl>)
    requires x.motor.state == Command && x.loader.state == Normal && x.backlash.state == Disabled
    requires Delivers(x, p, j, ins, 0)
    ensures |ins| >= 1 && j == p.count && Owed(x) == 0 && PinPulses(x, ins[..1]) == 0
  {
    FirstOfDelivered(x, p, j, ins, 0);
    CountsOwed(x, ins[0]);
    hide Tick, Delivers, StepCounted;
    assert ins[1..][..0] == [];
    UnfoldPin(x, ins, 1);
  }

  lemma EntersCommand(a: Regs, i: Ctrl)
    requires a.motor.state == Idle && a.motor.buf == Command
    ensures PinRises(a, i) <==> Tick(a, i).clock.step
  {
  }

  /** A whole command with its target n >= 1 steps ahead: the pin has one pulse for every counted
      step, and one more if and only if the step clock and counter_clk are both high on the tick on
      which state_motor enters `command`; that pulse moves the motor and not the counter. */
  lemma PulsesOfCommand(s: Regs, p: Plan, ins: seq<Ctrl>) returns (u: nat)
    requires p.period >= 3 && p.count >= 1 && p.delta >= 1
    requires Accepts(s, p) && Aims(s, p)
    requires AllQuiet(ins, p) && |ins| >= Cycles(p.count, p.period) + p.period + 8
    requires !ins[0].loadStrobe && !ins[0].maxStrobe && !ins[1].loadStrobe
    ensures Delivers(Tick(s, ins[0]), p, 0, ins[1..], u)
    ensures u < |ins[1..]|
    ensures var b := Tick(Tick(s, ins[0]), ins[1]);
            PinPulses(Tick(s, ins[0]), ins[1..][..u + 1])
            == p.count + if b.clock.step && b.loader.counterClk then 1 else 0
  {
    hide *;
    CyclesArePositive(p.count, p.period);
    u := StepsToTarget(s, p, ins);
    Entry(s, p, ins);
    QuietTail(ins, p);
    var a, rest := Tick(s, ins[0]), ins[1..];
    var b := Tick(a, rest[0]);
    FirstOfDelivered(a, p, 0, rest, u);
    DeliversOneTickLater(a, p, 0, rest, u);
    DrivenPulses(b, p, 0, rest[1..], u - 1);
    UnfoldPin(a, rest, u + 1);
  }

  /** The two ticks through which the command starts. */
  lemma Entry(s: Regs, p: Plan, ins: seq<Ctrl>)
    requires p.count >= 1 && p.delta >= 1 && |ins| >= 2
    requires Accepts(s, p) && Aims(s, p) && AllQuiet(ins, p)
    requires !ins[0].loadStrobe && !ins[0].maxStrobe && !ins[1].loadStrobe
    ensures var a, b := Tick(s, ins[0]), Tick(Tick(s, ins[0]), ins[1]);
            && a.motor.buf == Command && !StepCounted(a, ins[1])
            && Running(b, p, 0) && Owed(b) == (if b.clock.step && !b.loader.counterClk then 1 else 0)
            && (PinRises(a, ins[1]) <==> b.clock.step)
  {
    AcceptTick(s, p, ins[0]);
    var a := Tick(s, ins[0]);
    SecondTick(s, a, p, ins[1]);
    EntersCommand(a, ins[1]);
    RunningFacts(Tick(a, ins[1]), p, 0);
    hide Tick, Running, StepCounted, Accepts, Aims, PinRises, Clear;
  }

  lemma QuietTail(ins: seq<Ctrl>, p: Plan)
    requires AllQuiet(ins, p) && |ins| >= 2
    ensures AllQuiet(ins[1..][1..], p)
  {
  }
}
