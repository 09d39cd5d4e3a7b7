/** An accelerated motor: the levels of accel_control, the registers behind them, the backlash
    machine and the step clock of hdl/drv8825.vhd, one tick of all of them at a time. */
module LevelClock {
  import opened Bytes
  import opened Drv8825
  import opened StepClock
  import AccelLevels

  datatype Motion = Motion(accel: AccelLevels.Accel, trigger: Trigger, clock: Clock, backlash: Backlash)

  /** What the rest of the controller gives on one tick. */
  datatype Input = Input(drive: AccelLevels.Drive, slack: Slack)

  predicate Wf(m: Motion) {
    AccelLevels.Wf(m.accel)
  }

  predicate WfInputs(ins: seq<Input>) {
    forall j :: 0 <= j < |ins| ==> AccelLevels.WfDrive(ins[j].drive)
  }

  function Next(m: Motion, i: Input): (r: Motion)
    requires Wf(m) && AccelLevels.WfDrive(i.drive)
    ensures Wf(r)
  {
    Motion(AccelLevels.Next(m.accel, i.drive),
           NextTrigger(m.accel.pipe),
           NextClock(m.clock, m.trigger, m.backlash.period),
           NextBacklash(m.backlash, m.trigger, m.accel.pipe, i.slack))
  }

  function After(m: Motion, ins: seq<Input>): (r: Motion)
    requires Wf(m) && WfInputs(ins)
    ensures Wf(r)
    decreases |ins|
  {
    if ins == [] then m else After(Next(m, ins[0]), ins[1..])
  }

  /** The step pulses that begin during a run. */
  function Pulses(m: Motion, ins: seq<Input>): nat
    requires Wf(m) && WfInputs(ins)
    decreases |ins|
  {
    if ins == [] then 0
    else
      var m' := Next(m, ins[0]);
      (if !m.clock.step && m'.clock.step then 1 else 0) + Pulses(m', ins[1..])
  }

  /** The part of the controller's registers that is described here. */
  predicate PartOf(m: Motion, s: Regs) {
    m.accel.pipe == s.pipe && m.trigger == s.trigger && m.clock == s.clock && m.backlash == s.backlash
  }

  /** Without acceleration this is the same machine as Drv8825. */
  lemma SameWithoutAcceleration(m: Motion, i: Input, s: Regs, c: Ctrl)
    requires Wf(m) && AccelLevels.WfDrive(i.drive) && PartOf(m, s) && i.slack == s.slack
    requires !(i.drive.active && i.drive.accelerate)
    requires s.motor.direction == i.drive.direction && s.motor.speed == i.drive.speed
    requires s.motor.mode == i.drive.mode
    ensures PartOf(Next(m, i), Tick(s, c))
  {
    AccelLevels.PlainPipe(m.accel, i.drive, s.motor);
    hide AccelLevels.Next, NextPipe, NextClock, NextBacklash, NextTrigger, NextLoader, NextMotor, NextPosition;
    hide NextSettings, NextSlack;
  }

  // ---------------------------------------------------------------------------------
  // The period of a level reaches the step clock
  // ---------------------------------------------------------------------------------

  /** An accelerated command with this period and direction. */
  predicate Steers(i: Input, speed: nat, up: bool) {
    AccelLevels.WfDrive(i.drive) && AccelLevels.Accelerating(i.drive, speed) && i.drive.direction == up
  }

  /** The run is on one level. */
  predicate AtLevel(m: Motion, ins: seq<Input>, speed: nat, up: bool, level: nat)
    requires Wf(m)
    decreases |ins|
  {
    ins != [] ==>
      && m.accel.divider == level && Steers(ins[0], speed, up)
      && AtLevel(Next(m, ins[0]), ins[1..], speed, up, level)
  }

  lemma {:induction false} AtLevelIsWf(m: Motion, ins: seq<Input>, speed: nat, up: bool, level: nat)
    requires Wf(m) && AtLevel(m, ins, speed, up, level)
    ensures WfInputs(ins)
    decreases |ins|
  {
    if ins != [] {
      AtLevelIsWf(Next(m, ins[0]), ins[1..], speed, up, level);
      assert forall j :: 1 <= j < |ins| ==> ins[j] == ins[1..][j - 1];
    }
  }

  /** How far period and direction have come after n ticks on a level. */
  ghost predicate Come(m: Motion, n: nat, speed: nat, up: bool, level: nat) {
    && Wf(m) && AccelLevels.Sound(m.accel) && AccelLevels.Fits(speed, level) && m.clock.count >= 0
    && var pipe, period := m.accel.pipe, AccelLevels.PeriodOf(speed, level);
    && (n >= 1 ==> m.accel.scaled == speed % 0x100_0000 * 256 + 255 && pipe.dir0 == up)
    && (n >= 2 ==> m.accel.speedmap[level] == period && pipe.dir1 == up)
    && (n >= 3 ==> pipe.speed0 == period)
    && (n >= 4 ==> pipe.speed1 == period)
    && (n >= 5 ==> m.trigger == Steady)
  }

  lemma ComeTick(m: Motion, i: Input, n: nat, speed: nat, up: bool, level: nat)
    requires Come(m, n, speed, up, level) && Steers(i, speed, up) && m.accel.divider == level
    ensures Come(Next(m, i), n + 1, speed, up, level)
  {
    var a, d := m.accel, i.drive;
    AccelLevels.SoundTick(a, d);
    AccelLevels.ScaledSettles(a, d);
    if n >= 1 {
      AccelLevels.TableFilled(a, d, speed, level);
    }
    PipeOf(a, d);
    CountTick(m.clock, m.trigger, m.backlash.period);
    hide AccelLevels.Next, AccelLevels.Sound, AccelLevels.Fits, AccelLevels.PeriodOf, NextClock, NextBacklash;
  }

  lemma PipeOf(a: AccelLevels.Accel, d: AccelLevels.Drive)
    requires AccelLevels.Wf(a) && AccelLevels.WfDrive(d) && d.active && d.accelerate
    ensures AccelLevels.Next(a, d).pipe
            == Pipe(d.direction, a.pipe.dir0, AccelLevels.Entry(a.speedmap, a.divider), a.pipe.speed0, d.mode)
  {
    hide AccelLevels.LastHit, AccelLevels.Table, AccelLevels.Entry;
  }

  lemma CountTick(c: Clock, trigger: Trigger, period: int)
    requires c.count >= 0
    ensures NextClock(c, trigger, period).count >= 0
    ensures period >= 1 && !Resets(trigger) ==> InCycle(NextClock(c, trigger, period), period)
  {
  }

  /** From any state of any run: n ticks on a level bring its period n registers far. */
  lemma {:induction false} PeriodTravels(m: Motion, ins: seq<Input>, n: nat, speed: nat, up: bool, level: nat)
    requires Wf(m) && Come(m, n, speed, up, level) && AtLevel(m, ins, speed, up, level) && WfInputs(ins)
    ensures Come(After(m, ins), n + |ins|, speed, up, level)
    decreases |ins|
  {
    hide Come, Next;
    if ins != [] {
      hide Steers;
      ComeTick(m, ins[0], n, speed, up, level);
      PeriodTravels(Next(m, ins[0]), ins[1..], n + 1, speed, up, level);
    }
  }

  // ---------------------------------------------------------------------------------
  // The step clock on a level
  // ---------------------------------------------------------------------------------

  /** counter_buf has the period of the level, and no reset of the step clock is due. */
  ghost predicate Arrived(m: Motion, speed: nat, up: bool, level: nat) {
    && Come(m, 5, speed, up, level) && m.backlash.state != Processing
    && m.backlash.period == AccelLevels.PeriodOf(speed, level)
  }

  lemma LaterIsFurther(m: Motion, n: nat, k: nat, speed: nat, up: bool, level: nat)
    requires Come(m, n, speed, up, level) && k <= n
    ensures Come(m, k, speed, up, level)
  {
    hide AccelLevels.Sound, AccelLevels.Fits, AccelLevels.PeriodOf;
  }

  lemma ArrivalTick(m: Motion, i: Input, speed: nat, up: bool, level: nat)
    requires Come(m, 5, speed, up, level) && m.backlash.state != Processing
    requires Steers(i, speed, up) && m.accel.divider == level
    ensures Arrived(Next(m, i), speed, up, level)
    ensures m.backlash.period >= 1 ==>
              && InCycle(Next(m, i).clock, m.backlash.period)
              && Next(m, i).clock == NextClock(m.clock, Steady, m.backlash.period)
  {
    ComeTick(m, i, 5, speed, up, level);
    LaterIsFurther(Next(m, i), 6, 5, speed, up, level);
    CountTick(m.clock, m.trigger, m.backlash.period);
    hide AccelLevels.Next, AccelLevels.Sound, AccelLevels.Fits, AccelLevels.PeriodOf, NextClock;
  }

  /** Any run from there on: counter_buf keeps the period, and the step clock never restarts. */
  lemma {:induction false} RunsOn(m: Motion, ins: seq<Input>, speed: nat, up: bool, level: nat)
    requires Wf(m) && Arrived(m, speed, up, level) && AtLevel(m, ins, speed, up, level) && WfInputs(ins)
    requires AccelLevels.PeriodOf(speed, level) >= 1
    ensures Arrived(After(m, ins), speed, up, level)
    ensures Pulses(m, ins) == Edges(m.clock, AccelLevels.PeriodOf(speed, level), |ins|)
    ensures |ins| > 0 ==> InCycle(After(m, ins).clock, AccelLevels.PeriodOf(speed, level))
    decreases |ins|
  {
    hide Next, Come, NextClock, AccelLevels.PeriodOf, InCycle;
    if ins != [] {
      hide Steers;
      ArrivalTick(m, ins[0], speed, up, level);
      hide Arrived;
      RunsOn(Next(m, ins[0]), ins[1..], speed, up, level);
    }
  }

  /** Runs in two parts. */
  lemma {:induction false} InTwoParts(m: Motion, a: seq<Input>, b: seq<Input>, speed: nat, up: bool, level: nat)
    requires Wf(m) && AtLevel(m, a + b, speed, up, level)
    ensures WfInputs(a) && WfInputs(b)
    ensures AtLevel(m, a, speed, up, level) && AtLevel(After(m, a), b, speed, up, level)
    decreases |a|
  {
    AtLevelIsWf(m, a + b, speed, up, level);
    assert forall j :: 0 <= j < |a| ==> a[j] == (a + b)[j];
    assert forall j :: 0 <= j < |b| ==> b[j] == (a + b)[|a| + j];
    if a == [] {
      assert a + b == b;
    } else {
      hide Next, Steers;
      assert (a + b)[1..] == a[1..] + b;
      InTwoParts(Next(m, a[0]), a[1..], b, speed, up, level);
    }
  }

  /** While the level stays at I: five ticks after it was chosen, once no backlash is being taken
      up, counter_buf has the value (s + 1) * 2^I - 1 from the next tick on, and after one more
      every (s + 1) * 2^I ticks hold exactly one step pulse. */
  lemma OneStepPerLevelCycle(m: Motion, settle: seq<Input>, rest: seq<Input>, cycle: seq<Input>,
                             speed: nat, up: bool, level: nat)
    requires Wf(m) && AccelLevels.Sound(m.accel) && m.clock.count >= 0
    requires AccelLevels.Fits(speed, level) && (speed + 1) * Pow2(level) >= 2
    requires AtLevel(m, settle + rest + cycle, speed, up, level) && WfInputs(settle)
    requires |settle| >= 5 && After(m, settle).backlash.state != Processing
    requires |rest| >= 2 && |cycle| == (speed + 1) * Pow2(level)
    ensures WfInputs(rest) && WfInputs(cycle)
    ensures var b := After(After(m, settle), rest);
            && b.backlash.period == (speed + 1) * Pow2(level) - 1
            && b.trigger == Steady
            && Pulses(b, cycle) == 1
  {
    hide *;
    var period := AccelLevels.PeriodOf(speed, level);
    PeriodIs(speed, level);
    assert settle + rest + cycle == settle + (rest + cycle);
    InTwoParts(m, settle, rest + cycle, speed, up, level);
    var a := After(m, settle);
    InTwoParts(a, rest, cycle, speed, up, level);
    AtStart(m, speed, up, level);
    PeriodTravels(m, settle, 0, speed, up, level);
    LaterIsFurther(a, |settle|, 5, speed, up, level);
    FirstTick(a, rest, speed, up, level);
    var b := After(a, rest);
    RunsOn(b, cycle, speed, up, level);
    OneEdge(b.clock, period);
    FromArrived(b, speed, up, level);
  }

  lemma PeriodIs(speed: nat, level: nat)
    ensures AccelLevels.PeriodOf(speed, level) == (speed + 1) * Pow2(level) - 1
  {
  }

  lemma AtStart(m: Motion, speed: nat, up: bool, level: nat)
    requires Wf(m) && AccelLevels.Sound(m.accel) && AccelLevels.Fits(speed, level) && m.clock.count >= 0
    ensures Come(m, 0, speed, up, level)
  {
  }

  lemma FromArrived(m: Motion, speed: nat, up: bool, level: nat)
    requires Arrived(m, speed, up, level)
    ensures m.trigger == Steady && m.backlash.period == AccelLevels.PeriodOf(speed, level)
  {
  }

  /** The tick on which the period arrives, and the rest of a run. */
  lemma FirstTick(m: Motion, ins: seq<Input>, speed: nat, up: bool, level: nat)
    requires Wf(m) && Come(m, 5, speed, up, level) && m.backlash.state != Processing
    requires AtLevel(m, ins, speed, up, level) && WfInputs(ins) && |ins| >= 2
    requires AccelLevels.PeriodOf(speed, level) >= 1
    ensures Arrived(After(m, ins), speed, up, level)
    ensures InCycle(After(m, ins).clock, AccelLevels.PeriodOf(speed, level))
  {
    hide Next, Come, Arrived, NextClock, AccelLevels.PeriodOf, InCycle, Steers;
    ArrivalTick(m, ins[0], speed, up, level);
    RunsOn(Next(m, ins[0]), ins[1..], speed, up, level);
  }

  // ---------------------------------------------------------------------------------
  // The whole ramp
  // ---------------------------------------------------------------------------------

  /** An accelerated command that is not asked to stop. */
  predicate Climbs(ins: seq<Input>, speed: nat, up: bool) {
    forall j :: 0 <= j < |ins| ==> Steers(ins[j], speed, up) && !ins[j].drive.stop
  }

  lemma {:induction false} ClimbKeepsRamp(m: Motion, ins: seq<Input>, t: nat, speed: nat, up: bool)
    requires Wf(m) && Climbs(ins, speed, up) && WfInputs(ins)
    requires AccelLevels.OnRamp(m.accel, t) && AccelLevels.Sound(m.accel) && m.clock.count >= 0
    requires t + |ins| <= AccelLevels.ACCEL_STEPS * AccelLevels.LEVEL_TICKS
    ensures AccelLevels.OnRamp(After(m, ins).accel, t + |ins|)
    ensures AccelLevels.Sound(After(m, ins).accel) && After(m, ins).clock.count >= 0
    decreases |ins|
  {
    hide AccelLevels.OnRamp, AccelLevels.Sound, AccelLevels.Next, NextClock, NextBacklash, NextTrigger;
    if ins != [] {
      AccelLevels.RampTick(m.accel, ins[0].drive, t);
      AccelLevels.SoundTick(m.accel, ins[0].drive);
      CountTick(m.clock, m.trigger, m.backlash.period);
      ClimbKeepsRamp(Next(m, ins[0]), ins[1..], t + 1, speed, up);
    }
  }

  lemma LevelOnRamp(a: AccelLevels.Accel, k: nat, t: nat)
    requires AccelLevels.OnRamp(a, k * AccelLevels.LEVEL_TICKS + t) && t < AccelLevels.LEVEL_TICKS
    ensures a.divider == AccelLevels.ACCEL_STEPS - k
  {
    DivisionIsUnique(k * AccelLevels.LEVEL_TICKS + t, AccelLevels.LEVEL_TICKS, k, t);
  }

  /** One level of the ramp. */
  lemma {:induction false} ClimbOnLevel(m: Motion, ins: seq<Input>, k: nat, t: nat, speed: nat, up: bool)
    requires Wf(m) && Climbs(ins, speed, up) && k < AccelLevels.ACCEL_STEPS
    requires AccelLevels.OnRamp(m.accel, k * AccelLevels.LEVEL_TICKS + t) && t + |ins| <= AccelLevels.LEVEL_TICKS
    ensures AtLevel(m, ins, speed, up, AccelLevels.ACCEL_STEPS - k)
    decreases |ins|
  {
    hide AccelLevels.OnRamp, Next;
    if ins != [] {
      LevelOnRamp(m.accel, k, t);
      InsideRamp(k, t);
      RampTickHere(m, ins[0], k * AccelLevels.LEVEL_TICKS + t);
      ClimbOnLevel(Next(m, ins[0]), ins[1..], k, t + 1, speed, up);
    }
  }

  lemma RampTickHere(m: Motion, i: Input, t: nat)
    requires Wf(m) && AccelLevels.WfDrive(i.drive) && i.drive.active && i.drive.accelerate && !i.drive.stop
    requires AccelLevels.OnRamp(m.accel, t) && t < AccelLevels.ACCEL_STEPS * AccelLevels.LEVEL_TICKS
    ensures AccelLevels.OnRamp(Next(m, i).accel, t + 1)
  {
    hide AccelLevels.OnRamp, AccelLevels.Next, NextClock, NextBacklash, NextTrigger;
    AccelLevels.RampTick(m.accel, i.drive, t);
  }

  lemma InsideRamp(k: nat, t: nat)
    requires k < AccelLevels.ACCEL_STEPS && t < AccelLevels.LEVEL_TICKS
    ensures k * AccelLevels.LEVEL_TICKS + t < AccelLevels.ACCEL_STEPS * AccelLevels.LEVEL_TICKS
  {
  }

  lemma LevelMoves(speed: nat, level: nat)
    requires level >= 1
    ensures (speed + 1) * Pow2(level) >= 2
  {
    assert Pow2(level) == 2 * Pow2(level - 1);
    AccelLevels.Positive(speed + 1, Pow2(level - 1));
  }

  lemma RampStart(a: AccelLevels.Accel)
    requires a.divider == AccelLevels.ACCEL_STEPS && a.counter == AccelLevels.TOTAL_ACCEL_COUNT && !a.done
    ensures AccelLevels.OnRamp(a, 0)
  {
  }

  /** The whole ramp: from the start of a command, the (k + 1)-st stretch of 12500001 ticks runs on
      level 7 - k.  Seven ticks into it, if no backlash is being taken up two ticks earlier, every
      (s + 1) * 2^(7 - k) ticks inside the stretch hold exactly one step pulse. */
  lemma StepsOnTheRamp(m: Motion, before: seq<Input>, settle: seq<Input>, rest: seq<Input>, cycle: seq<Input>,
                       k: nat, speed: nat, up: bool)
    requires Wf(m) && m.accel.divider == AccelLevels.ACCEL_STEPS && !m.accel.done
    requires m.accel.counter == AccelLevels.TOTAL_ACCEL_COUNT && m.accel.scaled % 256 == 255 && m.clock.count >= 0
    requires Climbs(before, speed, up) && Climbs(settle + rest + cycle, speed, up)
    requires WfInputs(before) && WfInputs(settle)
    requires k < AccelLevels.ACCEL_STEPS && |before| == k * AccelLevels.LEVEL_TICKS
    requires AccelLevels.Fits(speed, AccelLevels.ACCEL_STEPS - k)
    requires |settle| >= 5 && After(After(m, before), settle).backlash.state != Processing
    requires |rest| >= 2 && |cycle| == (speed + 1) * Pow2(AccelLevels.ACCEL_STEPS - k)
    requires |settle + rest + cycle| <= AccelLevels.LEVEL_TICKS
    ensures WfInputs(rest) && WfInputs(cycle)
    ensures var b := After(After(After(m, before), settle), rest);
            && b.backlash.period == (speed + 1) * Pow2(AccelLevels.ACCEL_STEPS - k) - 1
            && Pulses(b, cycle) == 1
  {
    hide *;
    RampStart(m.accel);
    SoundAtStart(m.accel);
    InsideRamp(k, 0);
    ClimbKeepsRamp(m, before, 0, speed, up);
    var a := After(m, before);
    Literals();
    ClimbOnLevel(a, settle + rest + cycle, k, 0, speed, up);
    LevelMoves(speed, AccelLevels.ACCEL_STEPS - k);
    OneStepPerLevelCycle(a, settle, rest, cycle, speed, up, AccelLevels.ACCEL_STEPS - k);
  }

  lemma SoundAtStart(a: AccelLevels.Accel)
    requires a.divider == AccelLevels.ACCEL_STEPS && a.counter == AccelLevels.TOTAL_ACCEL_COUNT
    requires a.scaled % 256 == 255
    ensures AccelLevels.Sound(a)
  {
  }

  lemma Literals()
    ensures AccelLevels.ACCEL_STEPS == 7 && AccelLevels.LEVEL_TICKS == 12500001
  {
  }
}
