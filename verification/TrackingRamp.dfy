/** Starting and stopping the tracking motion: the register words that motor_driver.hpp writes and
    what hdl/drv8825.vhd decodes from them. */
module TrackingRamp {

  const WORD32 := 0x1_0000_0000
  const LIMIT := 500 * 1000 / 20

  type Word = w: int | 0 <= w < WORD32

  /** ctrl_trackctrl as the hardware splits it. */
  datatype Track = Track(enabled: bool, direction: bool, mode: nat, pec: bool, tick: nat)

  function Decode(w: Word): Track {
    Track(w % 2 == 1, w / 2 % 2 == 1, w / 4 % 8, w / 32 % 2 == 1, w / 64)
  }

  function Bit(b: bool): nat {
    if b then 1 else 0
  }

  /** A word with `high` above the five low bits, as the ramps pack it. */
  function Packed(ccw: bool, mode: nat, high: nat): Word {
    (1 + 2 * Bit(ccw) + 4 * mode + 32 * high) % WORD32
  }

  /** The product of a period and a loop counter. */
  function Times(ticks: nat, i: nat): nat {
    ticks * i
  }

  /** How many times a period goes into the ramp's 25000 ticks. */
  function Steps(ticks: nat): nat
    requires ticks > 0
  {
    LIMIT / ticks
  }

  /** The words of the stopping ramp, for the register contents that it starts from. */
  function RampLength(settings: Word): nat {
    var ticks := settings / 32;
    if 0 < ticks < LIMIT && Steps(ticks) > 2 then Steps(ticks) - 2 else 0
  }

  function RampWord(settings: Word, k: nat): Word {
    Packed(settings / 2 % 2 == 1, settings / 4 % 8, Times(settings / 32, k + 2) % WORD32)
  }

  function RampFirst(settings: Word, n: nat): (r: seq<Word>)
    ensures |r| == n && forall k :: 0 <= k < n ==> r[k] == RampWord(settings, k)
  {
    if n == 0 then [] else RampFirst(settings, n - 1) + [RampWord(settings, n - 1)]
  }

  function Ramp(settings: Word): (r: seq<Word>)
    ensures |r| == RampLength(settings)
  {
    RampFirst(settings, RampLength(settings))
  }

  function StartWord(ccw: bool, mode: nat, period: nat, i: nat): Word {
    Packed(ccw, mode, Times(period, i) % WORD32)
  }

  /** The first n of the words of the starting ramp, for which i runs down from `top`. */
  function StartFirst(ccw: bool, mode: nat, period: nat, top: nat, n: nat): (r: seq<Word>)
    requires n <= top
    ensures |r| == n && forall k :: 0 <= k < n ==> r[k] == StartWord(ccw, mode, period, top - k)
  {
    if n == 0 then []
    else StartFirst(ccw, mode, period, top, n - 1) + [StartWord(ccw, mode, period, top - (n - 1))]
  }

  function StartRamp(ccw: bool, mode: nat, period: nat): (r: seq<Word>)
    requires period > 0
    ensures |r| == if period >= LIMIT then 0 else Steps(period)
  {
    if period >= LIMIT then [] else StartFirst(ccw, mode, period, Steps(period), Steps(period))
  }

  function TargetWord(ccw: bool, mode: nat, pec: bool, period: nat): Word {
    (1 + 2 * Bit(ccw) + 4 * mode + 32 * Bit(pec) + 64 * period) % WORD32
  }

  class MotorDriver {
    /** The tracking register of the device, and everything written to it. */
    var register: Word
    var written: seq<Word>

    constructor ()
      ensures written == []
    {
      register, written := 0, [];
    }

    method WriteAt(cmd: Word)
      modifies this
      ensures register == cmd && written == old(written) + [cmd]
    {
      register := cmd;
      written := written + [cmd];
    }

    /** disable_tracking */
    method DisableTracking(instant: bool)
      modifies this
      ensures written == old(written) + (if instant then [] else Ramp(old(register))) + [0]
      ensures register == 0
    {
      if !instant {
        var periodTicks := register / 32;
        if 0 < periodTicks < LIMIT {
          SlowDown(Steps(periodTicks));
        }
      }
      WriteAt(0);
    }

    /** Its loop, for i from 2 to n - 1. */
    method SlowDown(n: nat)
      modifies this
      ensures written == old(written) + RampFirst(old(register), if n > 2 then n - 2 else 0)
    {
      ghost var settings := register;
      var periodTicks, mode, isCcw := register / 32, register / 4 % 8, register / 2 % 2 == 1;
      var i := 2;
      while i < n
        invariant i == 2 || 2 < i <= n
        invariant written == old(written) + RampFirst(settings, i - 2)
      {
        hide Packed;
        var tmp := Times(periodTicks, i) % WORD32;
        WriteAt(Packed(isCcw, mode, tmp));
        i := i + 1;
      }
    }

    /** enable_tracking; a zero period divides by zero unless `instant` is given. */
    method EnableTracking(isCcw: bool, periodTicks: nat, mode: nat, instant: bool, stopFirst: bool, enablePec: bool)
      requires periodTicks < WORD32 && (instant || periodTicks > 0)
      modifies this
      ensures register == TargetWord(isCcw, mode, enablePec, periodTicks)
      ensures written == old(written)
                         + (if stopFirst then Ramp(old(register)) + [0] else [])
                         + (if instant then [] else StartRamp(isCcw, mode, periodTicks))
                         + [register]
    {
      hide Ramp, StartFirst;
      if stopFirst {
        DisableTracking(false);
      }
      if !instant {
        if periodTicks < LIMIT {
          SpeedUp(isCcw, periodTicks, mode, Steps(periodTicks));
        }
      }
      WriteAt(TargetWord(isCcw, mode, enablePec, periodTicks));
    }

    /** Its loop, for i from n down to 1. */
    method SpeedUp(isCcw: bool, periodTicks: nat, mode: nat, n: nat)
      modifies this
      ensures written == old(written) + StartFirst(isCcw, mode, periodTicks, n, n)
    {
      for i := n downto 0
        invariant written == old(written) + StartFirst(isCcw, mode, periodTicks, n, n - i)
      {
        hide Packed;
        var tmp := Times(periodTicks, i + 1) % WORD32;
        WriteAt(Packed(isCcw, mode, tmp));
      }
    }
  }

  lemma Fields(ccw: bool, mode: nat, high: nat)
    requires mode < 8 && high < 0x800_0000
    ensures Decode(Packed(ccw, mode, high)) == Track(true, ccw, mode, high % 2 == 1, high / 2)
  {
    Split(Bit(ccw), mode, high);
    hide *;
    FieldsOf(ccw, mode, high, 1 + 2 * Bit(ccw) + 4 * mode + 32 * high);
  }

  lemma Split(b: nat, mode: nat, high: nat)
    requires b < 2 && mode < 8
    ensures var w := 1 + 2 * b + 4 * mode + 32 * high;
            && w % 2 == 1 && w / 2 % 2 == b && w / 4 % 8 == mode
            && w / 32 % 2 == high % 2 && w / 64 == high / 2
  {
    LowFields(b, mode + 8 * high);
    HighFields(mode, high);
    Nested(1 + 2 * b + 4 * (mode + 8 * high));
  }

  lemma LowFields(b: nat, rest: nat)
    requires b < 2
    ensures var w := 1 + 2 * b + 4 * rest; w % 2 == 1 && w / 2 % 2 == b && w / 4 == rest
  {
    var half := b + 2 * rest;
    assert 1 + 2 * b + 4 * rest == 2 * half + 1;
    Halved(half);
    Rest(b, rest);
  }

  lemma Halved(n: nat)
    ensures (2 * n + 1) % 2 == 1 && (2 * n + 1) / 2 == n && (2 * n + 1) / 4 == n / 2
  {
  }

  lemma Rest(b: nat, rest: nat)
    requires b < 2
    ensures (b + 2 * rest) % 2 == b && (b + 2 * rest) / 2 == rest
  {
  }

  lemma HighFields(mode: nat, high: nat)
    requires mode < 8
    ensures (mode + 8 * high) % 8 == mode && (mode + 8 * high) / 8 == high
  {
  }

  lemma Nested(w: nat)
    ensures w / 32 == w / 4 / 8 && w / 64 == w / 4 / 8 / 2
  {
  }

  lemma FieldsOf(ccw: bool, mode: nat, high: nat, w: nat)
    requires mode < 8 && high < 0x800_0000 && w == 1 + 2 * Bit(ccw) + 4 * mode + 32 * high
    requires w % 2 == 1 && w / 2 % 2 == Bit(ccw) && w / 4 % 8 == mode && w / 32 % 2 == high % 2 && w / 64 == high / 2
    ensures Decode(Packed(ccw, mode, high)) == Track(true, ccw, mode, high % 2 == 1, high / 2)
  {
    assert Packed(ccw, mode, high) == w;
  }

  /** What the target word means to the hardware. */
  lemma TargetDecodes(ccw: bool, mode: nat, pec: bool, period: nat)
    requires mode < 8 && period < 0x400_0000
    ensures Decode(TargetWord(ccw, mode, pec, period)) == Track(true, ccw, mode, pec, period)
  {
    Fields(ccw, mode, Bit(pec) + 2 * period);
  }

  lemma AtMostLimit(ticks: nat, i: nat)
    requires ticks > 0 && i <= Steps(ticks)
    ensures Times(ticks, i) <= LIMIT == 25000
    ensures Times(ticks, i) % WORD32 == Times(ticks, i)
  {
    Larger(ticks, i, Steps(ticks));
    assert Times(ticks, Steps(ticks)) <= LIMIT;
  }

  lemma Larger(ticks: nat, i: nat, j: nat)
    requires ticks > 0
    ensures i < j ==> Times(ticks, i) < Times(ticks, j)
    ensures Times(ticks, i + 1) == Times(ticks, i) + ticks
  {
  }

  /** Every word of the stopping ramp keeps direction and mode; its period and PEC bit are those of
      half of i times the register above bit 5. */
  lemma RampDecodes(settings: Word, k: nat)
    requires k < RampLength(settings)
    ensures Times(settings / 32, k + 2) < LIMIT
    ensures Decode(Ramp(settings)[k])
            == Track(true, Decode(settings).direction, Decode(settings).mode, Times(settings / 32, k + 2) % 2 == 1,
                     Times(settings / 32, k + 2) / 2)
  {
    var high := Times(settings / 32, k + 2);
    RampAt(settings, k);
    OwnFields(settings);
    hide *;
    AtMostLimit(settings / 32, k + 3);
    AtMostLimit(settings / 32, k + 2);
    Larger(settings / 32, k + 2, 0);
    Fields(settings / 2 % 2 == 1, settings / 4 % 8, high);
  }

  lemma OwnFields(w: Word)
    ensures Decode(w).direction == (w / 2 % 2 == 1) && Decode(w).mode == w / 4 % 8
  {
  }

  lemma RampAt(settings: Word, k: nat)
    requires k < RampLength(settings)
    ensures Ramp(settings)[k]
            == Packed(settings / 2 % 2 == 1, settings / 4 % 8, Times(settings / 32, k + 2) % WORD32)
    ensures settings / 32 > 0 && k + 3 <= Steps(settings / 32)
  {
    assert Ramp(settings)[k] == RampWord(settings, k);
    hide Times, Packed, Ramp, RampFirst, Steps;
  }

  lemma EvenMultiple(p: nat, i: nat)
    ensures Times(2 * p, i) == 2 * Times(p, i)
  {
  }

  /** Where the stopping ramp ends: one more period would not fit into the 25000 ticks, and so does
      the last word's with one period in hand. */
  lemma RampEnds(settings: Word)
    ensures var h := settings / 32;
            var n := |Ramp(settings)|;
            && (0 < h && 2 * h <= 25000 ==> h * (n + 2) <= 25000 < h * (n + 3))
            && (h == 0 || 2 * h > 25000 ==> n == 0)
  {
    var h := settings / 32;
    if 0 < h <= 25000 {
      GoesInto(h);
    }
    hide Ramp, Steps;
    assert LIMIT == 25000;
    if h > 0 && 2 * h > 25000 && h <= 25000 {
      assert h * 1 <= 25000 < h * 2;
      AtMost(h, Steps(h), 1);
    } else if h > 0 && 2 * h <= 25000 {
      AtMost(h, 1, Steps(h));
    }
  }

  lemma GoesInto(h: nat)
    requires h > 0
    ensures h * Steps(h) <= 25000 < h * (Steps(h) + 1)
  {
  }

  lemma AtMost(h: nat, i: nat, j: nat)
    requires h > 0 && h * i <= 25000 < h * (j + 1)
    ensures i <= j
  {
    Multiples(h, j + 1, i);
  }

  lemma Multiples(h: nat, i: nat, j: nat)
    ensures i <= j ==> h * i <= h * j
  {
  }

  /** The starting ramp has as many words as periods fit into the 25000 ticks. */
  lemma StartRampFills(ccw: bool, mode: nat, period: nat)
    requires period > 0
    ensures var n := |StartRamp(ccw, mode, period)|;
            && (period < 25000 ==> period * n <= 25000 < period * (n + 1))
            && (period >= 25000 ==> n == 0)
  {
    GoesInto(period);
    assert LIMIT == 25000;
  }

  /** With PEC off the stopping ramp has PEC off and periods p * 2, p * 3, ..., strictly increasing
      below 12500. */
  lemma SoftStop(settings: Word, k: nat)
    requires k < RampLength(settings) && !Decode(settings).pec
    ensures Decode(settings).tick > 0 && Times(Decode(settings).tick, k + 2) < 12500
    ensures Decode(Ramp(settings)[k])
            == Track(true, Decode(settings).direction, Decode(settings).mode, false,
                     Times(Decode(settings).tick, k + 2))
  {
    hide *;
    var p := settings / 64;
    PecOff(settings);
    RampDecodes(settings, k);
    EvenMultiple(p, k + 2);
    RampAt(settings, k);
    Halves(Times(p, k + 2));
  }

  lemma PecOff(w: Word)
    requires !Decode(w).pec
    ensures w / 32 == 2 * (w / 64) && Decode(w).tick == w / 64 && LIMIT == 25000
  {
    OwnPec(w);
    hide Decode;
    Quotient(w / 32);
    SixtyFour(w);
  }

  lemma OwnPec(w: Word)
    ensures Decode(w).pec == (w / 32 % 2 == 1) && Decode(w).tick == w / 64
  {
  }

  lemma Quotient(n: nat)
    ensures n % 2 != 1 ==> n == 2 * (n / 2)
  {
  }

  lemma SixtyFour(w: nat)
    ensures w / 64 == w / 32 / 2
  {
  }

  lemma Halves(n: nat)
    ensures 2 * n / 2 == n && 2 * n % 2 == 0
  {
  }

  lemma Rising(settings: Word, j: nat, k: nat)
    requires j < k < RampLength(settings) && !Decode(settings).pec
    ensures Decode(Ramp(settings)[j]).tick < Decode(Ramp(settings)[k]).tick
  {
    hide Times, Ramp, Decode;
    SoftStop(settings, j);
    SoftStop(settings, k);
    Larger(Decode(settings).tick, j + 2, k + 2);
  }

  /** The ramp leaves PEC off exactly when it was off, or the ramp is too short to show it. */
  lemma PecStaysOff(settings: Word)
    ensures (forall k :: 0 <= k < RampLength(settings) ==> !Decode(Ramp(settings)[k]).pec)
            <==> !Decode(settings).pec || RampLength(settings) <= 1
  {
    hide *;
    if !Decode(settings).pec {
      forall k | 0 <= k < RampLength(settings) ensures !Decode(Ramp(settings)[k]).pec {
        SoftStop(settings, k);
      }
    } else if RampLength(settings) > 1 {
      PecComesBack(settings);
    } else if RampLength(settings) == 1 {
      PecHides(settings);
    }
  }

  lemma PecComesBack(settings: Word)
    requires Decode(settings).pec && RampLength(settings) > 1
    ensures Decode(Ramp(settings)[1]).pec
  {
    var high := settings / 32;
    assert high % 2 == 1;
    hide *;
    RampDecodes(settings, 1);
    OddTriple(high);
  }

  lemma OddTriple(n: nat)
    requires n % 2 == 1
    ensures Times(n, 1 + 2) % 2 == 1
  {
  }

  lemma PecHides(settings: Word)
    requires RampLength(settings) == 1
    ensures !Decode(Ramp(settings)[0]).pec
  {
    hide RampLength, Ramp, Decode;
    RampDecodes(settings, 0);
    assert Times(settings / 32, 0 + 2) == 2 * (settings / 32);
  }

  /** Stopping what enable_tracking started with PEC off. */
  lemma StopAfterStart(ccw: bool, mode: nat, period: nat, k: nat)
    requires mode < 8 && 0 < period < 0x400_0000
    requires k < RampLength(TargetWord(ccw, mode, false, period))
    ensures var w := Ramp(TargetWord(ccw, mode, false, period))[k];
            Decode(w) == Track(true, ccw, mode, false, Times(period, k + 2)) && Times(period, k + 2) < 12500
  {
    TargetDecodes(ccw, mode, false, period);
    SoftStop(TargetWord(ccw, mode, false, period), k);
  }

  /** The starting ramp is packed one bit lower than the hardware reads it: its k-th word asks for
      half of the period it stands for, so that it ends at half the target period. */
  lemma StartRampDecodes(ccw: bool, mode: nat, period: nat, k: nat)
    requires mode < 8 && 0 < period && k < |StartRamp(ccw, mode, period)|
    ensures var i := |StartRamp(ccw, mode, period)| - k;
            && 1 <= i
            && Decode(StartRamp(ccw, mode, period)[k])
               == Track(true, ccw, mode, Times(period, i) % 2 == 1, Times(period, i) / 2)
  {
    var i := |StartRamp(ccw, mode, period)| - k;
    StartAt(ccw, mode, period, k);
    hide *;
    AtMostLimit(period, i);
    Fields(ccw, mode, Times(period, i));
  }

  lemma StartAt(ccw: bool, mode: nat, period: nat, k: nat)
    requires 0 < period && k < |StartRamp(ccw, mode, period)|
    ensures var i := |StartRamp(ccw, mode, period)| - k;
            && i <= Steps(period)
            && StartRamp(ccw, mode, period)[k] == Packed(ccw, mode, Times(period, i) % WORD32)
  {
    hide Packed, Times, Steps;
  }
}
