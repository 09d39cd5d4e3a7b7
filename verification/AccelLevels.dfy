/** The acceleration levels of hdl/drv8825.vhd: the table of step periods, the level in use, the
    timer that lowers it and the registers through which the period leaves the process.  The
    deceleration map only matters here through which of its entries the position has just reached,
    which is an input. */
module AccelLevels {
  import opened Bytes
  import opened Drv8825

  const ACCEL_STEPS := 7
  const TOTAL_ACCEL_COUNT := 12500000

  datatype Accel = Accel(counter: int, scaled: nat, divider: int, done: bool, speedmap: seq<nat>, pipe: Pipe)

  /** Inputs of one tick: whether a command is running and accelerates, its period, direction and
      mode, the stop request, and for each level whether the position is at its deceleration
      point. */
  datatype Drive = Drive(active: bool, accelerate: bool, speed: nat, direction: bool, mode: nat,
                         stop: bool, hits: seq<bool>)

  predicate Wf(a: Accel) {
    |a.speedmap| == ACCEL_STEPS + 1
  }

  predicate WfDrive(d: Drive) {
    |d.hits| == ACCEL_STEPS + 1 && d.speed < 0x4000_0000
  }

  /** The last of the levels 1..n whose deceleration point is reached. */
  function LastHit(hits: seq<bool>, divider: int, n: nat): int
    requires n < |hits|
  {
    if n == 0 then divider else if hits[n] then n else LastHit(hits, divider, n - 1)
  }

  /** v without its n low bits. */
  function DropBits(v: nat, n: nat): nat {
    if n == 0 then v else DropBits(v / 2, n - 1)
  }

  /** current_scaled_buffer(31 downto 8 - I) */
  function Scaled(scaled: nat, level: nat): nat
    requires level <= 8
  {
    DropBits(scaled, 8 - level)
  }

  function Table(scaled: nat, speed: nat): (r: seq<nat>)
    ensures |r| == ACCEL_STEPS + 1
  {
    [speed] + seq(ACCEL_STEPS, k requires 0 <= k < ACCEL_STEPS => Scaled(scaled, k + 1))
  }

  /** speedmap_map(divider); SoundInEveryRun keeps the divider inside the table. */
  function Entry(speedmap: seq<nat>, divider: int): nat {
    if 0 <= divider < |speedmap| then speedmap[divider] else 0
  }

  /** current_speed_buf, current_direction_buf and current_mode_buf; `speed` is what goes in. */
  function Shifted(p: Pipe, d: Drive, speed: int): Pipe {
    Pipe(d.direction, p.dir0, speed, p.speed0, d.mode)
  }

  /** One tick of accel_control. */
  function Next(a: Accel, d: Drive): (r: Accel)
    requires Wf(a) && WfDrive(d)
    ensures Wf(r)
  {
    var scaled := d.speed % 0x100_0000 * 256 + a.scaled % 256;
    if !d.active then
      Accel(TOTAL_ACCEL_COUNT, scaled, ACCEL_STEPS, false, seq(ACCEL_STEPS + 1, _ => 100000),
            Shifted(a.pipe, d, d.speed))
    else if !d.accelerate then
      Accel(a.counter, scaled, a.divider, a.done, a.speedmap, Shifted(a.pipe, d, d.speed))
    else
      var lower := !a.done && a.counter == 0;
      var divider := if lower then a.divider - 1 else a.divider;
      Accel(
        if lower then TOTAL_ACCEL_COUNT else a.counter - 1,
        scaled,
        if a.done then LastHit(d.hits, divider, ACCEL_STEPS) else divider,
        (lower && a.divider == 1) || a.done || d.stop,
        Table(a.scaled, d.speed),
        Shifted(a.pipe, d, Entry(a.speedmap, a.divider)))
  }

  class AccelControl {
    var accelerationCounter: int
    var currentScaledBuffer: nat
    var divider: int
    var doneAcceleration: bool
    var speedmap: array<nat>
    var speedBuf0: int
    var speedBuf1: int
    var directionBuf0: bool
    var directionBuf1: bool
    var modeBuf: nat

    constructor ()
      ensures Valid() && fresh(speedmap) && Registers() == Reset()
    {
      accelerationCounter, currentScaledBuffer := TOTAL_ACCEL_COUNT, 0xFFFF_FFFF;
      divider, doneAcceleration := ACCEL_STEPS, false;
      speedmap := new nat[ACCEL_STEPS + 1](_ => 100000);
      speedBuf0, speedBuf1 := 147483647, 147483647;
      directionBuf0, directionBuf1, modeBuf := false, false, 0;
    }

    ghost predicate Valid()
      reads this
    {
      speedmap.Length == ACCEL_STEPS + 1
    }

    ghost function Registers(): (r: Accel)
      requires Valid()
      reads this, speedmap
      ensures Wf(r)
    {
      Accel(accelerationCounter, currentScaledBuffer, divider, doneAcceleration, speedmap[..],
            Pipe(directionBuf0, directionBuf1, speedBuf0, speedBuf1, modeBuf))
    }

    method RisingClk50(d: Drive)
      requires Valid() && 0 <= divider <= ACCEL_STEPS && WfDrive(d)
      modifies this`accelerationCounter, this`currentScaledBuffer, this`divider, this`doneAcceleration, speedmap
      modifies this`speedBuf0, this`speedBuf1, this`directionBuf0, this`directionBuf1, this`modeBuf
      ensures Valid() && Registers() == Next(old(Registers()), d)
    {
      hide LastHit, Table, Scaled;
      var scaled := currentScaledBuffer;
      var speed := d.speed;
      if d.active && d.accelerate {
        speed := speedmap[divider];
        FillTable(scaled, d.speed);
        ChooseLevel(d);
      } else if !d.active {
        accelerationCounter, divider, doneAcceleration := TOTAL_ACCEL_COUNT, ACCEL_STEPS, false;
        ClearTable();
      }
      currentScaledBuffer := d.speed % 0x100_0000 * 256 + scaled % 256;
      directionBuf0, directionBuf1, modeBuf := d.direction, directionBuf0, d.mode;
      speedBuf0, speedBuf1 := speed, speedBuf0;
    }

    /** The timer and the level while a command accelerates. */
    method ChooseLevel(d: Drive)
      requires Valid() && WfDrive(d)
      modifies this`accelerationCounter, this`divider, this`doneAcceleration
      ensures var lower := !old(doneAcceleration) && old(accelerationCounter) == 0;
              var next := if lower then old(divider) - 1 else old(divider);
              && accelerationCounter == (if lower then TOTAL_ACCEL_COUNT else old(accelerationCounter) - 1)
              && divider == (if old(doneAcceleration) then LastHit(d.hits, next, ACCEL_STEPS) else next)
              && doneAcceleration == ((lower && old(divider) == 1) || old(doneAcceleration) || d.stop)
    {
      hide LastHit;
      var done := doneAcceleration;
      doneAcceleration := done || d.stop;
      accelerationCounter := accelerationCounter - 1;
      if !done && accelerationCounter + 1 == 0 {
        accelerationCounter := TOTAL_ACCEL_COUNT;
        if divider == 1 {
          doneAcceleration := true;
        }
        divider := divider - 1;
      }
      if done {
        var level := Decelerate(d.hits);
        divider := level;
      }
    }

    method ClearTable()
      requires Valid()
      modifies speedmap
      ensures speedmap[..] == seq(ACCEL_STEPS + 1, _ => 100000)
    {
      forall i | 0 <= i < speedmap.Length {
        speedmap[i] := 100000;
      }
    }

    /** The loop over the levels of the table. */
    method FillTable(scaled: nat, speed: nat)
      requires Valid()
      modifies speedmap
      ensures speedmap[..] == Table(scaled, speed)
    {
      hide Scaled;
      speedmap[0] := speed;
      for i := 1 to ACCEL_STEPS + 1
        invariant speedmap[0] == speed
        invariant forall k :: 1 <= k < i ==> speedmap[k] == Scaled(scaled, k)
      {
        speedmap[i] := Scaled(scaled, i);
      }
    }

    /** The loop that compares the position with the deceleration points. */
    method Decelerate(hits: seq<bool>) returns (level: int)
      requires |hits| == ACCEL_STEPS + 1
      ensures level == LastHit(hits, divider, ACCEL_STEPS)
    {
      level := divider;
      for i := 1 to ACCEL_STEPS + 1
        invariant level == LastHit(hits, divider, i - 1)
      {
        if hits[i] {
          level := i;
        }
      }
    }
  }

  function Reset(): Accel {
    Accel(TOTAL_ACCEL_COUNT, 0xFFFF_FFFF, ACCEL_STEPS, false, seq(ACCEL_STEPS + 1, _ => 100000),
          Pipe(false, false, 147483647, 147483647, 0))
  }

  // ---------------------------------------------------------------------------------
  // Runs
  // ---------------------------------------------------------------------------------

  ghost predicate Drives(ds: seq<Drive>) {
    forall i :: 0 <= i < |ds| ==> WfDrive(ds[i])
  }

  function Exec(a: Accel, ds: seq<Drive>): (r: Accel)
    requires Wf(a) && forall i :: 0 <= i < |ds| ==> WfDrive(ds[i])
    ensures Wf(r)
  {
    if ds == [] then a else Next(Exec(a, ds[..|ds| - 1]), ds[|ds| - 1])
  }

  /** What every run keeps: the level is in range, and it is above 0 while accelerating; the timer is
      in range while it is used; the low byte of the scaled period is all ones. */
  ghost predicate Sound(a: Accel) {
    && 0 <= a.divider <= ACCEL_STEPS
    && (!a.done ==> a.divider >= 1 && 0 <= a.counter <= TOTAL_ACCEL_COUNT)
    && a.scaled % 256 == 255
  }

  lemma {:induction false} HitInRange(hits: seq<bool>, divider: int, n: nat)
    requires n < |hits| && n <= ACCEL_STEPS
    ensures LastHit(hits, divider, n) == divider || 1 <= LastHit(hits, divider, n) <= ACCEL_STEPS
  {
    if n > 0 && !hits[n] {
      HitInRange(hits, divider, n - 1);
    }
  }

  /** The highest level whose deceleration point is reached is chosen, and the present one is kept
      when there is none. */
  lemma {:induction false} HighestHit(hits: seq<bool>, divider: int, n: nat)
    requires n < |hits|
    ensures (forall k :: 1 <= k <= n ==> !hits[k]) ==> LastHit(hits, divider, n) == divider
    ensures (exists k :: 1 <= k <= n && hits[k]) ==>
              var level := LastHit(hits, divider, n);
              1 <= level <= n && hits[level] && forall k :: level < k <= n ==> !hits[k]
  {
    if n > 0 && !hits[n] {
      HighestHit(hits, divider, n - 1);
    }
  }

  lemma SoundTick(a: Accel, d: Drive)
    requires Wf(a) && WfDrive(d) && Sound(a)
    ensures Sound(Next(a, d))
  {
    HitInRange(d.hits, a.divider, ACCEL_STEPS);
    hide LastHit, Table;
  }

  lemma {:induction false} SoundInEveryRun(ds: seq<Drive>)
    requires Drives(ds)
    ensures Sound(Exec(Reset(), ds))
  {
    if ds != [] {
      SoundInEveryRun(ds[..|ds| - 1]);
      hide Next, Sound;
      SoundTick(Exec(Reset(), ds[..|ds| - 1]), ds[|ds| - 1]);
    }
  }

  /** A command that accelerates towards the period `speed`. */
  predicate Accelerating(d: Drive, speed: nat) {
    d.active && d.accelerate && d.speed == speed
  }

  /** Shifting a number whose low bits are all ones. */
  lemma {:induction false} ShiftOnes(t: nat, m: nat, n: nat)
    requires t > 0
    ensures t * Pow2(m + n) > 0 && t * Pow2(m) > 0
    ensures DropBits(t * Pow2(m + n) - 1, n) == t * Pow2(m) - 1
    decreases n
  {
    Positive(t, Pow2(m));
    if n > 0 {
      var x := t * Pow2(m + n - 1);
      assert t * Pow2(m + n) == 2 * x;
      ShiftOnes(t, m, n - 1);
      assert (2 * x - 1) / 2 == x - 1;
    }
  }

  lemma Positive(x: nat, y: nat)
    requires x > 0 && y > 0
    ensures x * y > 0
  {
  }

  lemma LevelPeriod(speed: nat, level: nat)
    requires level <= 8
    ensures Scaled(speed * 256 + 255, level) == (speed + 1) * Pow2(level) - 1
  {
    assert Pow2(4) == 16 && Pow2(8) == 256;
    ShiftOnes(speed + 1, level, 8 - level);
  }

  /** The step period of a level. */
  function PeriodOf(speed: nat, level: nat): int {
    (speed + 1) * Pow2(level) - 1
  }

  /** The periods whose table entries fit their registers: above level 0 the period passes through
      24 bits, and every entry has 30. */
  predicate Fits(speed: nat, level: nat) {
    level <= ACCEL_STEPS && (level > 0 ==> speed < 0x100_0000) && (speed + 1) * Pow2(level) <= 0x4000_0000
  }

  /** After two ticks with the same period s the table holds (s + 1) * 2^I - 1 for level I. */
  lemma TableSettles(a: Accel, d1: Drive, d2: Drive, speed: nat, level: nat)
    requires Wf(a) && Sound(a) && WfDrive(d1) && WfDrive(d2) && Fits(speed, level)
    requires d1.speed == speed && Accelerating(d2, speed)
    ensures Next(Next(a, d1), d2).speedmap[level] == PeriodOf(speed, level)
  {
    ScaledSettles(a, d1);
    TableFilled(Next(a, d1), d2, speed, level);
  }

  lemma ScaledSettles(a: Accel, d: Drive)
    requires Wf(a) && Sound(a) && WfDrive(d)
    ensures Next(a, d).scaled == d.speed % 0x100_0000 * 256 + 255
  {
    hide LastHit, Table, Shifted;
  }

  lemma TableFilled(a: Accel, d: Drive, speed: nat, level: nat)
    requires Wf(a) && WfDrive(d) && Fits(speed, level) && Accelerating(d, speed)
    requires a.scaled == speed % 0x100_0000 * 256 + 255
    ensures Next(a, d).speedmap[level] == PeriodOf(speed, level)
  {
    if level > 0 {
      LevelPeriod(speed, level);
    }
    assert Pow2(0) == 1;
    hide LastHit, Scaled, Shifted;
  }

  /** Without acceleration the registers shift as in Drv8825. */
  lemma PlainPipe(a: Accel, d: Drive, m: Motor)
    requires Wf(a) && WfDrive(d) && !(d.active && d.accelerate)
    requires m.direction == d.direction && m.speed == d.speed && m.mode == d.mode
    ensures Next(a, d).pipe == NextPipe(a.pipe, m)
  {
  }

  const LEVEL_TICKS := TOTAL_ACCEL_COUNT + 1

  /** Level, timer and flag t ticks after the start of an accelerating command. */
  predicate OnRamp(a: Accel, t: nat) {
    && a.divider == ACCEL_STEPS - t / LEVEL_TICKS
    && a.counter == TOTAL_ACCEL_COUNT - t % LEVEL_TICKS
    && (a.done <==> t == ACCEL_STEPS * LEVEL_TICKS)
  }

  lemma RampTick(a: Accel, d: Drive, t: nat)
    requires Wf(a) && WfDrive(d) && d.active && d.accelerate && !d.stop
    requires OnRamp(a, t) && t < ACCEL_STEPS * LEVEL_TICKS
    ensures OnRamp(Next(a, d), t + 1)
  {
    hide LastHit, Table, Shifted;
  }

  /** The ramp: from the start of an accelerating command the level drops by one every 12500001
      ticks, from 7, and acceleration is done when it reaches 0. */
  lemma {:induction false} Ramp(a: Accel, ds: seq<Drive>)
    requires Wf(a) && a.divider == ACCEL_STEPS && a.counter == TOTAL_ACCEL_COUNT && !a.done
    requires Drives(ds) && forall i :: 0 <= i < |ds| ==> ds[i].active && ds[i].accelerate && !ds[i].stop
    requires |ds| <= ACCEL_STEPS * LEVEL_TICKS
    ensures OnRamp(Exec(a, ds), |ds|)
    decreases |ds|
  {
    if ds != [] {
      Ramp(a, ds[..|ds| - 1]);
      hide OnRamp, Next;
      RampTick(Exec(a, ds[..|ds| - 1]), ds[|ds| - 1], |ds| - 1);
    }
  }
}
