/** The I2C master of hdl/i2c_master.vhd: a quarter-cycle clock generator with clock stretching
    and a state machine that shifts bytes out and in on its data clock.  `true` is a released,
    high line. */
module I2cMaster {

  /** A vector of eight bits; element i is bit i. */
  type Octet = v: seq<bool> | |v| == 8 witness [false, false, false, false, false, false, false, false]

  type Address = v: seq<bool> | |v| == 7 witness [false, false, false, false, false, false, false]

  datatype State = Ready | Start | Command | SlvAck1 | Wr | Rd | SlvAck2 | MstrAck | Stop

  datatype Clocks = Clocks(count: nat, stretch: bool, sclClk: bool, dataClk: bool, dataClkPrev: bool)

  /** The state machine's registers: those that decide what the lines do, the bytes, the flags. */
  datatype Line = Line(state: State, sclEna: bool, sdaInt: bool, bitCnt: nat)

  datatype Data = Data(addrRw: Octet, dataTx: Octet, dataRx: Octet, dataRd: Octet, dataRdV: bool)

  datatype Flags = Flags(busy: bool, ackErr: bool, ackError: bool)

  /** The request of the user logic, and what the other devices do to the two lines. */
  datatype Inputs = Inputs(ena: bool, addr: Address, rw: bool, dataWr: Octet, slaveSda: bool, slaveScl: bool)

  function AddrRw(i: Inputs): Octet {
    [i.rw] + i.addr
  }

  /** What the master drives onto SDA. */
  function SdaOut(c: Clocks, l: Line): bool {
    match l.state
    case Start => c.dataClkPrev
    case Stop => !c.dataClkPrev
    case _ => l.sdaInt
  }

  function SclOut(c: Clocks, l: Line): bool {
    !l.sclEna || c.sclClk
  }

  function Sda(c: Clocks, l: Line, i: Inputs): bool {
    SdaOut(c, l) && i.slaveSda
  }

  function Scl(c: Clocks, l: Line, i: Inputs): bool {
    SclOut(c, l) && i.slaveScl
  }

  predicate Rises(c: Clocks) {
    c.dataClk && !c.dataClkPrev
  }

  predicate Falls(c: Clocks) {
    !c.dataClk && c.dataClkPrev
  }

  /** The clock generator; `divider` is the number of clocks in a quarter of an SCL cycle. */
  function NextClocks(divider: nat, c: Clocks, scl: bool): Clocks {
    var count := if c.count + 1 == 4 * divider then 0 else if !c.stretch then c.count + 1 else c.count;
    if count < divider then Clocks(count, c.stretch, false, false, c.dataClk)
    else if count < 2 * divider then Clocks(count, c.stretch, false, true, c.dataClk)
    else if count < 3 * divider then Clocks(count, !scl, true, true, c.dataClk)
    else Clocks(count, c.stretch, true, false, c.dataClk)
  }

  /** A read byte or a written one can be followed by another to the same address. */
  predicate Continues(l: Line, d: Data, i: Inputs) {
    i.ena && d.addrRw == AddrRw(i)
  }

  /** State, SCL enable, SDA and bit counter on the rising edge of the data clock. */
  function LineOnRise(l: Line, d: Data, i: Inputs): Line
    requires l.bitCnt < 8
  {
    match l.state
    case Ready => if i.ena then Line(Start, l.sclEna, l.sdaInt, l.bitCnt) else l
    case Start => Line(Command, l.sclEna, d.addrRw[l.bitCnt], l.bitCnt)
    case Command =>
      if l.bitCnt == 0 then Line(SlvAck1, l.sclEna, true, 7)
      else Line(Command, l.sclEna, d.addrRw[l.bitCnt - 1], l.bitCnt - 1)
    case SlvAck1 =>
      if !d.addrRw[0] then Line(Wr, l.sclEna, d.dataTx[l.bitCnt], l.bitCnt)
      else Line(Rd, l.sclEna, true, l.bitCnt)
    case Wr =>
      if l.bitCnt == 0 then Line(SlvAck2, l.sclEna, true, 7)
      else Line(Wr, l.sclEna, d.dataTx[l.bitCnt - 1], l.bitCnt - 1)
    case Rd =>
      if l.bitCnt == 0 then Line(MstrAck, l.sclEna, !Continues(l, d, i), 7)
      else Line(Rd, l.sclEna, l.sdaInt, l.bitCnt - 1)
    case SlvAck2 =>
      if Continues(l, d, i) then Line(Wr, l.sclEna, i.dataWr[l.bitCnt], l.bitCnt)
      else Line(if i.ena then Start else Stop, l.sclEna, l.sdaInt, l.bitCnt)
    case MstrAck =>
      if Continues(l, d, i) then Line(Rd, l.sclEna, true, l.bitCnt)
      else Line(if i.ena then Start else Stop, l.sclEna, l.sdaInt, l.bitCnt)
    case Stop => Line(Ready, l.sclEna, l.sdaInt, l.bitCnt)
  }

  /** A request is latched when the master is ready for it. */
  function DataOnRise(l: Line, d: Data, i: Inputs): Data {
    if i.ena && (l.state == Ready || l.state == SlvAck2 || l.state == MstrAck) then
      Data(AddrRw(i), i.dataWr, d.dataRx, d.dataRd, false)
    else if l.state == Rd && l.bitCnt == 0 then Data(d.addrRw, d.dataTx, d.dataRx, d.dataRx, true)
    else Data(d.addrRw, d.dataTx, d.dataRx, d.dataRd, false)
  }

  function FlagsOnRise(l: Line, f: Flags, i: Inputs): (r: Flags)
    ensures r.ackError == f.ackErr
  {
    match l.state
    case Ready => Flags(i.ena, false, f.ackErr)
    case Start => Flags(true, f.ackErr, f.ackErr)
    case Wr => Flags(true, f.ackErr, f.ackErr)
    case Rd => Flags(true, f.ackErr, f.ackErr)
    case SlvAck2 => Flags(if i.ena then false else f.busy, f.ackErr, f.ackErr)
    case MstrAck => Flags(if i.ena then false else f.busy, f.ackErr, f.ackErr)
    case Stop => Flags(false, f.ackErr, f.ackErr)
    case _ => Flags(f.busy, f.ackErr, f.ackErr)
  }

  /** The same on its falling edge, in the middle of SCL high. */
  function LineOnFall(l: Line): Line {
    match l.state
    case Start => Line(Start, true, l.sdaInt, l.bitCnt)
    case Stop => Line(Stop, false, l.sdaInt, l.bitCnt)
    case _ => l
  }

  function DataOnFall(l: Line, d: Data, sda: bool): Data
    requires l.bitCnt < 8
  {
    if l.state == Rd then Data(d.addrRw, d.dataTx, d.dataRx[l.bitCnt := sda], d.dataRd, d.dataRdV) else d
  }

  function FlagsOnFall(l: Line, f: Flags, sda: bool): (r: Flags)
    ensures r.ackError == f.ackErr
  {
    match l.state
    case Start => Flags(f.busy, l.sclEna && f.ackErr, f.ackErr)
    case SlvAck1 => Flags(f.busy, sda || f.ackErr, f.ackErr)
    case SlvAck2 => Flags(f.busy, sda || f.ackErr, f.ackErr)
    case _ => Flags(f.busy, f.ackErr, f.ackErr)
  }

  function NextLine(c: Clocks, l: Line, d: Data, i: Inputs): Line
    requires l.bitCnt < 8
  {
    if Rises(c) then LineOnRise(l, d, i) else if Falls(c) then LineOnFall(l) else l
  }

  function NextData(c: Clocks, l: Line, d: Data, i: Inputs): Data
    requires l.bitCnt < 8
  {
    if Rises(c) then DataOnRise(l, d, i) else if Falls(c) then DataOnFall(l, d, Sda(c, l, i)) else d
  }

  function NextFlags(c: Clocks, l: Line, f: Flags, i: Inputs): Flags {
    if Rises(c) then FlagsOnRise(l, f, i)
    else if Falls(c) then FlagsOnFall(l, f, Sda(c, l, i))
    else Flags(f.busy, f.ackErr, f.ackErr)
  }

  // ---------------------------------------------------------------------------------
  // The entity
  // ---------------------------------------------------------------------------------

  class Controller {
    const divider: nat
    var count: nat
    var stretch: bool
    var sclClk: bool
    var dataClk: bool
    var dataClkPrev: bool
    var state: State
    var busy: bool
    var sclEna: bool
    var sdaInt: bool
    var ackErr: bool
    var ackError: bool
    var bitCnt: nat
    var addrRw: Octet
    var dataTx: Octet
    var dataRx: Octet
    var dataRd: Octet
    var dataRdV: bool

    constructor (divider: nat)
      ensures this.divider == divider && bitCnt < 8 && ClockRegs() == ResetClocks()
      ensures LineRegs() == Line(Ready, false, true, 7)
    {
      this.divider := divider;
      count, stretch, sclClk, dataClk, dataClkPrev := 0, false, false, false, false;
      state, busy, sclEna, sdaInt, ackErr, ackError, bitCnt := Ready, true, false, true, false, false, 7;
      var zero := seq(8, _ => false);
      addrRw, dataTx, dataRx, dataRd, dataRdV := zero, zero, zero, zero, false;
    }

    function ClockRegs(): Clocks
      reads this
    {
      Clocks(count, stretch, sclClk, dataClk, dataClkPrev)
    }

    function LineRegs(): Line
      reads this
    {
      Line(state, sclEna, sdaInt, bitCnt)
    }

    function DataRegs(): Data
      reads this
    {
      Data(addrRw, dataTx, dataRx, dataRd, dataRdV)
    }

    function FlagRegs(): Flags
      reads this
    {
      Flags(busy, ackErr, ackError)
    }

    method ClockGenerator(scl: bool)
      modifies this`count, this`stretch, this`sclClk, this`dataClk, this`dataClkPrev
      ensures ClockRegs() == NextClocks(divider, old(ClockRegs()), scl)
    {
      dataClkPrev := dataClk;
      if count + 1 == 4 * divider {
        count := 0;
      } else if !stretch {
        count := count + 1;
      }
      if count < divider {
        sclClk, dataClk := false, false;
      } else if count < 2 * divider {
        sclClk, dataClk := false, true;
      } else if count < 3 * divider {
        sclClk, stretch, dataClk := true, !scl, true;
      } else {
        sclClk, dataClk := true, false;
      }
    }

    /** The signals that the state machine drives on the rising edge of the data clock, group by
        group, from the old state: the flags, ... */
    method RisingFlags(l: Line, i: Inputs)
      modifies this`busy, this`ackErr, this`ackError
      ensures FlagRegs() == FlagsOnRise(l, old(FlagRegs()), i)
    {
      ackError := ackErr;
      match l.state {
        case Ready =>
          ackErr := false;
          if i.ena {
            busy := true;
          } else {
            busy := false;
          }
        case Start => busy := true;
        case Wr => busy := true;
        case Rd => busy := true;
        case SlvAck2 =>
          if i.ena {
            busy := false;
          }
        case MstrAck =>
          if i.ena {
            busy := false;
          }
        case Stop => busy := false;
        case _ =>
      }
    }

    /** ... the state, SDA and the bit counter, ... */
    method RisingLines(i: Inputs)
      requires bitCnt < 8
      modifies this`state, this`sdaInt, this`bitCnt
      ensures LineRegs() == LineOnRise(old(LineRegs()), DataRegs(), i)
    {
      match state {
        case Ready =>
          if i.ena {
            state := Start;
          }
        case Start =>
          sdaInt, state := addrRw[bitCnt], Command;
        case Command =>
          if bitCnt == 0 {
            sdaInt, bitCnt, state := true, 7, SlvAck1;
          } else {
            bitCnt, sdaInt := bitCnt - 1, addrRw[bitCnt - 1];
          }
        case SlvAck1 =>
          if !addrRw[0] {
            sdaInt, state := dataTx[bitCnt], Wr;
          } else {
            sdaInt, state := true, Rd;
          }
        case Wr =>
          if bitCnt == 0 {
            sdaInt, bitCnt, state := true, 7, SlvAck2;
          } else {
            bitCnt, sdaInt := bitCnt - 1, dataTx[bitCnt - 1];
          }
        case Rd =>
          if bitCnt == 0 {
            if i.ena && addrRw == AddrRw(i) {
              sdaInt := false;
            } else {
              sdaInt := true;
            }
            bitCnt, state := 7, MstrAck;
          } else {
            bitCnt := bitCnt - 1;
          }
        case SlvAck2 =>
          if i.ena {
            if addrRw == AddrRw(i) {
              sdaInt, state := i.dataWr[bitCnt], Wr;
            } else {
              state := Start;
            }
          } else {
            state := Stop;
          }
        case MstrAck =>
          if i.ena {
            if addrRw == AddrRw(i) {
              sdaInt, state := true, Rd;
            } else {
              state := Start;
            }
          } else {
            state := Stop;
          }
        case Stop => state := Ready;
      }
    }

    /** ... and the bytes, latched with a request or after the last bit that was read. */
    method RisingData(l: Line, i: Inputs)
      modifies this`addrRw, this`dataTx, this`dataRd, this`dataRdV
      ensures DataRegs() == DataOnRise(l, old(DataRegs()), i)
    {
      dataRdV := false;
      match l.state {
        case Ready =>
          if i.ena {
            addrRw, dataTx := AddrRw(i), i.dataWr;
          }
        case Rd =>
          if l.bitCnt == 0 {
            dataRd, dataRdV := dataRx, true;
          }
        case SlvAck2 =>
          if i.ena {
            addrRw, dataTx := AddrRw(i), i.dataWr;
          }
        case MstrAck =>
          if i.ena {
            addrRw, dataTx := AddrRw(i), i.dataWr;
          }
        case _ =>
      }
    }

    /** The state machine on the rising edge of the data clock. */
    method RisingDataClk(i: Inputs)
      requires bitCnt < 8
      modifies this`state, this`busy, this`sdaInt, this`ackErr, this`ackError, this`bitCnt, this`addrRw, this`dataTx
      modifies this`dataRd, this`dataRdV
      ensures LineRegs() == LineOnRise(old(LineRegs()), old(DataRegs()), i)
      ensures DataRegs() == DataOnRise(old(LineRegs()), old(DataRegs()), i)
      ensures FlagRegs() == FlagsOnRise(old(LineRegs()), old(FlagRegs()), i)
    {
      hide LineOnRise, DataOnRise, FlagsOnRise;
      var before := LineRegs();
      RisingLines(i);
      RisingData(before, i);
      RisingFlags(before, i);
    }

    /** The state machine on its falling edge. */
    method FallingDataClk(sda: bool)
      requires bitCnt < 8
      modifies this`sclEna, this`ackErr, this`ackError, this`dataRx
      ensures LineRegs() == LineOnFall(old(LineRegs()))
      ensures DataRegs() == DataOnFall(old(LineRegs()), old(DataRegs()), sda)
      ensures FlagRegs() == FlagsOnFall(old(LineRegs()), old(FlagRegs()), sda)
    {
      ackError := ackErr;
      match state {
        case Start =>
          if !sclEna {
            sclEna, ackErr := true, false;
          }
        case SlvAck1 =>
          if sda || ackErr {
            ackErr := true;
          }
        case Rd =>
          dataRx := dataRx[bitCnt := sda];
        case SlvAck2 =>
          if sda || ackErr {
            ackErr := true;
          }
        case Stop =>
          sclEna := false;
        case _ =>
      }
    }

    method StateMachine(i: Inputs)
      requires bitCnt < 8
      modifies this`state, this`busy, this`sclEna, this`sdaInt, this`ackErr, this`ackError, this`bitCnt
      modifies this`addrRw, this`dataTx, this`dataRx, this`dataRd, this`dataRdV
      ensures LineRegs() == NextLine(old(ClockRegs()), old(LineRegs()), old(DataRegs()), i)
      ensures DataRegs() == NextData(old(ClockRegs()), old(LineRegs()), old(DataRegs()), i)
      ensures FlagRegs() == NextFlags(old(ClockRegs()), old(LineRegs()), old(FlagRegs()), i)
    {
      hide LineOnRise, DataOnRise, FlagsOnRise, LineOnFall, DataOnFall, FlagsOnFall;
      if dataClk && !dataClkPrev {
        RisingDataClk(i);
      } else if !dataClk && dataClkPrev {
        FallingDataClk(Sda(ClockRegs(), LineRegs(), i));
      } else {
        ackError := ackErr;
      }
    }

    /** One rising edge of clk, on which both processes read the old values. */
    method RisingClk(i: Inputs)
      requires bitCnt < 8
      modifies this
      ensures ClockRegs() == NextClocks(divider, old(ClockRegs()), Scl(old(ClockRegs()), old(LineRegs()), i))
      ensures LineRegs() == NextLine(old(ClockRegs()), old(LineRegs()), old(DataRegs()), i)
      ensures DataRegs() == NextData(old(ClockRegs()), old(LineRegs()), old(DataRegs()), i)
      ensures FlagRegs() == NextFlags(old(ClockRegs()), old(LineRegs()), old(FlagRegs()), i)
    {
      hide NextLine, NextData, NextFlags, NextClocks;
      var scl := Scl(ClockRegs(), LineRegs(), i);
      StateMachine(i);
      ClockGenerator(scl);
    }
  }

  function ResetClocks(): Clocks {
    Clocks(0, false, false, false, false)
  }

  // ---------------------------------------------------------------------------------
  // Runs, watched
  // ---------------------------------------------------------------------------------

  /** The registers and a monitor: what was on SDA, as driven by the master, as left by the other
      devices and as heard, in the middle of every SCL pulse since the state last changed. */
  datatype Watch = Watch(c: Clocks, l: Line, d: Data, driven: seq<bool>, offered: seq<bool>, heard: seq<bool>)

  function Noted(w: Watch, t: Line, seen: seq<bool>, bit: bool): seq<bool> {
    if Falls(w.c) then seen + [bit] else if t.state != w.l.state then [] else seen
  }

  function Next(divider: nat, w: Watch, i: Inputs): Watch
    requires w.l.bitCnt < 8
  {
    var line := NextLine(w.c, w.l, w.d, i);
    Watch(NextClocks(divider, w.c, Scl(w.c, w.l, i)), line, NextData(w.c, w.l, w.d, i),
          Noted(w, line, w.driven, SdaOut(w.c, w.l)), Noted(w, line, w.offered, i.slaveSda),
          Noted(w, line, w.heard, Sda(w.c, w.l, i)))
  }

  function Reset(d: Data): Watch {
    Watch(ResetClocks(), Line(Ready, false, true, 7), d, [], [], [])
  }

  /** Where the clock generator can be.  Stretching holds it in the third quarter only. */
  predicate Timing(divider: nat, c: Clocks) {
    && c.count < 4 * divider
    && c.dataClk == (divider <= c.count < 3 * divider)
    && c.sclClk == (c.count >= 2 * divider)
    && c.dataClkPrev == (divider < c.count <= 3 * divider)
    && (c.stretch ==> 2 * divider <= c.count < 3 * divider)
  }

  predicate Framed(c: Clocks, l: Line) {
    && l.bitCnt < 8
    && (l.state != Command && l.state != Wr && l.state != Rd ==> l.bitCnt == 7)
    && match l.state
       case Ready => !l.sclEna
       case Start => l.sclEna || c.dataClkPrev
       case Stop => l.sclEna == c.dataClkPrev
       case _ => l.sclEna
  }

  /** How many bits of the current byte have passed their SCL pulse. */
  function Passed(c: Clocks, l: Line): int {
    7 - l.bitCnt + if c.dataClkPrev then 0 else 1
  }

  /** `seen` is the front of the byte, most significant bit first. */
  ghost predicate Front(seen: seq<bool>, n: int, v: Octet) {
    |seen| == n <= 8 && forall k :: 0 <= k < n ==> seen[k] == v[7 - k]
  }

  ghost predicate Bits(w: Watch) {
    match w.l.state
    case Command =>
      && w.l.bitCnt < 8 && Front(w.driven, Passed(w.c, w.l), w.d.addrRw)
      && w.l.sdaInt == w.d.addrRw[w.l.bitCnt]
    case Wr => w.l.bitCnt < 8 && Front(w.driven, Passed(w.c, w.l), w.d.dataTx) && w.l.sdaInt == w.d.dataTx[w.l.bitCnt]
    case Rd => Front(w.heard, Passed(w.c, w.l), w.d.dataRx)
    case _ => true
  }

  ghost predicate Sound(divider: nat, w: Watch) {
    Timing(divider, w.c) && Framed(w.c, w.l) && Bits(w)
  }

  /** SDA is left alone in these states, except by a read byte that was acknowledged. */
  predicate Released(l: Line) {
    l.state == Ready || l.state == SlvAck1 || l.state == SlvAck2 || l.state == Rd || l.state == Stop ==> l.sdaInt
  }

  /** An acknowledged read byte is followed by another request. */
  predicate Held(w: Watch, i: Inputs) {
    Rises(w.c) && w.l.state == MstrAck && !w.l.sdaInt ==> i.ena
  }

  lemma TimingTick(divider: nat, c: Clocks, scl: bool)
    requires divider >= 2 && Timing(divider, c)
    ensures Timing(divider, NextClocks(divider, c, scl))
    ensures Rises(c) <==> c.count == divider
    ensures Falls(c) <==> c.count == 3 * divider
    ensures Rises(c) ==> !c.sclClk && !NextClocks(divider, c, scl).sclClk && NextClocks(divider, c, scl).dataClkPrev
    ensures Falls(c) ==> c.sclClk && NextClocks(divider, c, scl).sclClk && !NextClocks(divider, c, scl).dataClkPrev
    ensures !Rises(c) && !Falls(c) ==> NextClocks(divider, c, scl).dataClkPrev == c.dataClkPrev
    ensures Rises(c) ==> !c.dataClkPrev
    ensures Falls(c) ==> c.dataClkPrev
  {
  }

  lemma FramedTick(divider: nat, w: Watch, i: Inputs)
    requires divider >= 2 && Timing(divider, w.c) && Framed(w.c, w.l)
    ensures Framed(Next(divider, w, i).c, Next(divider, w, i).l)
  {
    TimingTick(divider, w.c, Scl(w.c, w.l, i));
    hide Timing, NextClocks, Rises, Falls, Noted, NextData;
  }

  lemma BitsRise(divider: nat, w: Watch, i: Inputs)
    requires divider >= 2 && Sound(divider, w) && Rises(w.c)
    ensures Bits(Next(divider, w, i))
  {
    TimingTick(divider, w.c, Scl(w.c, w.l, i));
    hide Timing, NextClocks;
  }

  lemma BitsFall(divider: nat, w: Watch, i: Inputs)
    requires divider >= 2 && Sound(divider, w) && Falls(w.c)
    ensures Bits(Next(divider, w, i))
  {
    TimingTick(divider, w.c, Scl(w.c, w.l, i));
    hide Timing, NextClocks, LineOnRise, DataOnRise;
  }

  lemma BitsTick(divider: nat, w: Watch, i: Inputs)
    requires divider >= 2 && Sound(divider, w)
    ensures Bits(Next(divider, w, i))
  {
    if Rises(w.c) {
      BitsRise(divider, w, i);
    } else if Falls(w.c) {
      BitsFall(divider, w, i);
    } else {
      TimingTick(divider, w.c, Scl(w.c, w.l, i));
      hide Timing, NextClocks, LineOnRise, LineOnFall, DataOnRise, DataOnFall;
    }
  }

  lemma SoundTick(divider: nat, w: Watch, i: Inputs)
    requires divider >= 2 && Sound(divider, w)
    ensures Sound(divider, Next(divider, w, i))
  {
    TimingTick(divider, w.c, Scl(w.c, w.l, i));
    FramedTick(divider, w, i);
    BitsTick(divider, w, i);
    hide Timing, Framed, Bits, NextClocks, NextLine, NextData, Noted;
  }

  function Exec(divider: nat, w: Watch, ins: seq<Inputs>): Watch
    requires divider >= 2 && Sound(divider, w)
    decreases |ins|
  {
    if ins == [] then w
    else
      SoundTick(divider, w, ins[0]);
      Exec(divider, Next(divider, w, ins[0]), ins[1..])
  }

  lemma ResetIsSound(divider: nat, d: Data)
    requires divider >= 2
    ensures Sound(divider, Reset(d)) && Released(Reset(d).l)
  {
  }

  /** SDA is high exactly when nobody pulls it low. */
  predicate WiredAnd(w: Watch) {
    && |w.driven| == |w.offered| == |w.heard|
    && forall k :: 0 <= k < |w.heard| ==> (w.heard[k] <==> w.driven[k] && w.offered[k])
  }

  lemma {:induction false} WiredAndInEveryRun(divider: nat, w: Watch, ins: seq<Inputs>)
    requires divider >= 2 && Sound(divider, w) && WiredAnd(w)
    ensures WiredAnd(Exec(divider, w, ins))
    decreases |ins|
  {
    hide Sound;
    if ins != [] {
      BitCounter(divider, w);
      SoundTick(divider, w, ins[0]);
      WiredAndTick(divider, w, ins[0]);
      hide Next, WiredAnd;
      WiredAndInEveryRun(divider, Next(divider, w, ins[0]), ins[1..]);
    }
  }

  lemma WiredAndTick(divider: nat, w: Watch, i: Inputs)
    requires w.l.bitCnt < 8 && WiredAnd(w)
    ensures WiredAnd(Next(divider, w, i))
  {
    hide NextLine, NextData, NextClocks;
  }

  /** A slave that holds SCL low while the master has released it stops the clock where it is: the
      count does not advance, and nothing else of the master moves ... */
  lemma StretchTick(divider: nat, w: Watch, i: Inputs)
    requires divider >= 2 && Sound(divider, w) && 2 * divider <= w.c.count < 3 * divider && w.c.stretch
    ensures var t := Next(divider, w, i);
            && t.c.count == w.c.count && t.l == w.l && t.d == w.d
            && t.c.stretch == !(SclOut(w.c, w.l) && i.slaveScl)
  {
  }

  /** ... for as long as it does. */
  lemma {:induction false} StretchHolds(divider: nat, w: Watch, ins: seq<Inputs>)
    requires divider >= 2 && Sound(divider, w) && 2 * divider <= w.c.count < 3 * divider && w.c.stretch
    requires forall k :: 0 <= k < |ins| ==> !ins[k].slaveScl
    ensures var t := Exec(divider, w, ins);
            t.c.count == w.c.count && t.c.stretch && t.l == w.l && t.d == w.d
    decreases |ins|
  {
    hide Sound, Next;
    if ins != [] {
      BitCounter(divider, w);
      SoundTick(divider, w, ins[0]);
      StretchTick(divider, w, ins[0]);
      StretchHolds(divider, Next(divider, w, ins[0]), ins[1..]);
    }
  }

  /** The hold begins on any clock before the last quarter on which SCL is not high although the
      master releases it. */
  lemma StretchBegins(divider: nat, w: Watch, i: Inputs)
    requires divider >= 2 && Sound(divider, w)
    requires 2 * divider <= w.c.count < 3 * divider - 1 && !w.c.stretch
    ensures w.l.bitCnt < 8 && (Next(divider, w, i).c.stretch <==> !(SclOut(w.c, w.l) && i.slaveScl))
  {
  }

  lemma {:induction false} SoundInEveryRun(divider: nat, w: Watch, ins: seq<Inputs>)
    requires divider >= 2 && Sound(divider, w)
    ensures Sound(divider, Exec(divider, w, ins))
    decreases |ins|
  {
    hide Sound, Next;
    if ins != [] {
      BitCounter(divider, w);
      SoundTick(divider, w, ins[0]);
      SoundInEveryRun(divider, Next(divider, w, ins[0]), ins[1..]);
    }
  }

  function MsbFirst(v: Octet): (r: seq<bool>)
    ensures |r| == 8
  {
    seq(8, k requires 0 <= k < 8 => v[7 - k])
  }

  /** In every run from reset, at every clock: a command byte is over exactly when addr_rw has been
      on SDA, bits 7 down to 0, one in the middle of each SCL pulse; the same for a written byte and
      data_tx; and a read byte ends with data_rd being what was heard, most significant bit first. */
  lemma BytesOnTheWire(divider: nat, d: Data, ins: seq<Inputs>, i: Inputs)
    requires divider >= 2
    ensures Sound(divider, Reset(d))
    ensures var w := Exec(divider, Reset(d), ins);
            && w.l.bitCnt < 8
            && var t := Next(divider, w, i);
            && (w.l.state == Command && t.l.state != Command ==>
                  w.driven == MsbFirst(w.d.addrRw) && t.l.state == SlvAck1)
            && (w.l.state == Wr && t.l.state != Wr ==> w.driven == MsbFirst(w.d.dataTx) && t.l.state == SlvAck2)
            && (w.l.state == Rd && t.l.state != Rd ==>
                  w.heard == MsbFirst(t.d.dataRd) && t.d.dataRdV && t.l.state == MstrAck)
            && (Rises(w.c) ==> (t.d.dataRdV <==> w.l.state == Rd && t.l.state != Rd))
            && (!Rises(w.c) ==> t.d.dataRdV == w.d.dataRdV)
            && (!(w.l.state == Rd && t.l.state != Rd) ==> t.d.dataRd == w.d.dataRd)
  {
    ResetIsSound(divider, d);
    hide Exec;
    SoundInEveryRun(divider, Reset(d), ins);
    ByteEnds(divider, Exec(divider, Reset(d), ins), i);
  }

  lemma ByteEnds(divider: nat, w: Watch, i: Inputs)
    requires divider >= 2 && Sound(divider, w)
    ensures var t := Next(divider, w, i);
            && (w.l.state == Command && t.l.state != Command ==>
                  w.driven == MsbFirst(w.d.addrRw) && t.l.state == SlvAck1)
            && (w.l.state == Wr && t.l.state != Wr ==> w.driven == MsbFirst(w.d.dataTx) && t.l.state == SlvAck2)
            && (w.l.state == Rd && t.l.state != Rd ==>
                  w.heard == MsbFirst(t.d.dataRd) && t.d.dataRdV && t.l.state == MstrAck)
            && (Rises(w.c) ==> (t.d.dataRdV <==> w.l.state == Rd && t.l.state != Rd))
            && (!Rises(w.c) ==> t.d.dataRdV == w.d.dataRdV)
            && (!(w.l.state == Rd && t.l.state != Rd) ==> t.d.dataRd == w.d.dataRd)
  {
    TimingTick(divider, w.c, Scl(w.c, w.l, i));
    hide Timing, NextClocks, Noted;
  }

  /** SDA moves although SCL is, and stays, high. */
  predicate MovesWhileHigh(w: Watch, t: Watch) {
    SclOut(w.c, w.l) && SclOut(t.c, t.l) && SdaOut(w.c, w.l) != SdaOut(t.c, t.l)
  }

  /** A start condition, or a stop condition. */
  predicate StartOrStop(w: Watch, t: Watch) {
    || (w.l.state == t.l.state == Start && SdaOut(w.c, w.l) && !SdaOut(t.c, t.l))
    || (w.l.state == t.l.state == Stop && !SdaOut(w.c, w.l) && SdaOut(t.c, t.l))
  }

  /** Both conditions are made, in the middle of the high part of SCL. */
  lemma ConditionsAreMade(divider: nat, w: Watch, i: Inputs)
    requires divider >= 2 && Sound(divider, w) && Falls(w.c) && (w.l.state == Start || w.l.state == Stop)
    ensures var t := Next(divider, w, i);
            && t.l.state == w.l.state && MovesWhileHigh(w, t)
            && (w.l.state == Start ==> SdaOut(w.c, w.l) && !SdaOut(t.c, t.l))
            && (w.l.state == Stop ==> !SdaOut(w.c, w.l) && SdaOut(t.c, t.l))
  {
    TimingTick(divider, w.c, Scl(w.c, w.l, i));
    hide Timing, NextClocks, Noted, NextData, Bits, LineOnRise;
  }

  /** From `ready` to the start condition of a new transfer SCL is left high. */
  lemma SclIsIdle(divider: nat, w: Watch, i: Inputs)
    requires divider >= 2 && Sound(divider, w)
    requires w.l.state == Ready || (w.l.state == Start && !w.l.sclEna)
    ensures var t := Next(divider, w, i);
            && SclOut(w.c, w.l) && SclOut(t.c, t.l)
            && (t.l.state == Ready || (t.l.state == Start && (!t.l.sclEna || Falls(w.c))))
  {
    TimingTick(divider, w.c, Scl(w.c, w.l, i));
    hide Timing, NextClocks, Noted, NextData, Bits;
  }

  lemma SteadyTick(divider: nat, w: Watch, i: Inputs)
    requires divider >= 2 && Sound(divider, w) && Released(w.l) && Held(w, i)
    ensures var t := Next(divider, w, i); Released(t.l) && (MovesWhileHigh(w, t) ==> StartOrStop(w, t))
  {
    TimingTick(divider, w.c, Scl(w.c, w.l, i));
    hide Timing, NextClocks, Noted, NextData, Bits;
  }

  /** Every acknowledged read byte of the run is followed by another request. */
  predicate AlwaysHeld(divider: nat, w: Watch, ins: seq<Inputs>)
    requires divider >= 2 && Sound(divider, w)
    decreases |ins|
  {
    ins == [] || (
      SoundTick(divider, w, ins[0]);
      Held(w, ins[0]) && AlwaysHeld(divider, Next(divider, w, ins[0]), ins[1..]))
  }

  /** In every such run the data line is steady while SCL is high, except for the falling edge of a
      start condition in `start` and the rising edge of a stop condition in `stop`. */
  lemma {:induction false} SteadyRun(divider: nat, w: Watch, ins: seq<Inputs>, i: Inputs)
    requires divider >= 2 && Sound(divider, w) && Released(w.l)
    requires AlwaysHeld(divider, w, ins + [i])
    ensures var last := Exec(divider, w, ins);
            && last.l.bitCnt < 8
            && var t := Next(divider, last, i);
               MovesWhileHigh(last, t) ==> StartOrStop(last, t)
    decreases |ins|
  {
    hide Sound, Next, Released, Held, MovesWhileHigh, StartOrStop;
    if ins == [] {
      assert (ins + [i])[0] == i;
      SteadyTick(divider, w, i);
      BitCounter(divider, w);
    } else {
      assert (ins + [i])[0] == ins[0] && (ins + [i])[1..] == ins[1..] + [i];
      BitCounter(divider, w);
      SoundTick(divider, w, ins[0]);
      SteadyTick(divider, w, ins[0]);
      SteadyRun(divider, Next(divider, w, ins[0]), ins[1..], i);
    }
  }

  lemma BitCounter(divider: nat, w: Watch)
    requires Sound(divider, w)
    ensures w.l.bitCnt < 8
  {
  }

  /** Throughout the run the state machine is in `stop`. */
  predicate Stopping(divider: nat, w: Watch, ins: seq<Inputs>)
    requires divider >= 2 && Sound(divider, w)
    decreases |ins|
  {
    w.l.state == Stop && (ins == [] || (
      SoundTick(divider, w, ins[0]);
      Stopping(divider, Next(divider, w, ins[0]), ins[1..])))
  }

  lemma {:induction false} StoppingKeepsSda(divider: nat, w: Watch, ins: seq<Inputs>)
    requires divider >= 2 && Sound(divider, w) && Stopping(divider, w, ins)
    ensures Exec(divider, w, ins).l.state == Stop && Exec(divider, w, ins).l.sdaInt == w.l.sdaInt
    decreases |ins|
  {
    if ins != [] {
      SoundTick(divider, w, ins[0]);
      StopTick(divider, w, ins[0]);
      hide Sound, Next;
      StoppingKeepsSda(divider, Next(divider, w, ins[0]), ins[1..]);
    }
  }

  lemma StopTick(divider: nat, w: Watch, i: Inputs)
    requires divider >= 2 && Sound(divider, w) && w.l.state == Stop
    ensures var t := Next(divider, w, i);
            && t.l.sdaInt == w.l.sdaInt
            && (t.l.state != Stop ==> t.l.state == Ready && (MovesWhileHigh(w, t) <==> !w.l.sdaInt))
  {
    TimingTick(divider, w.c, Scl(w.c, w.l, i));
    hide Timing, NextClocks, Noted, NextData, Bits;
  }

  /** Why `ena` must be held: when a transfer ends after a read byte, the master moves SDA while SCL
      is high as it leaves `stop` for `ready`, a start condition that nobody asked for, exactly when
      the byte had been acknowledged. */
  lemma EndOfRead(divider: nat, w: Watch, i: Inputs, ins: seq<Inputs>, last: Inputs)
    requires divider >= 2 && Sound(divider, w)
    requires w.l.state == MstrAck && Rises(w.c) && !i.ena
    requires Sound(divider, Next(divider, w, i)) && Stopping(divider, Next(divider, w, i), ins)
    requires var s := Exec(divider, Next(divider, w, i), ins);
             s.l.bitCnt < 8 && Next(divider, s, last).l.state != Stop
    ensures var s := Exec(divider, Next(divider, w, i), ins);
            MovesWhileHigh(s, Next(divider, s, last)) <==> !w.l.sdaInt
  {
    var t := Next(divider, w, i);
    assert t.l.sdaInt == w.l.sdaInt;
    hide Sound, Next, MovesWhileHigh;
    StoppingKeepsSda(divider, t, ins);
    SoundInEveryRun(divider, t, ins);
    StopTick(divider, Exec(divider, t, ins), last);
  }
}
