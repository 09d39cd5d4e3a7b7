/** Register access over SPI: the words that spi_dev.hpp shifts out and back, and the slave of
    hdl/spi_slave.vhd with 8 address bits, 32 data bits and 8 bits of holdoff. */
module SpiSlave {
  import opened Bytes
  import WireFormat

  const ADDR_WIDTH := 8
  const DATA_WIDTH := 32
  const HOLDOFF := 8

  /** A register or bus, most significant bit first. */
  type Bits = seq<bool>

  /** The slave's registers.  `shiftIn` is as long as the data and the holdoff. */
  datatype Regs = Regs(
    count: nat, addr: Bits, shiftIn: Bits, shiftOut: Bits, dataO: Bits,
    cycle: bool, strobe: bool, write: bool, outEn: bool)

  /** What the wishbone side shows at an edge of the SPI clock. */
  datatype Bus = Bus(ack: bool, data: Bits)

  predicate Wf(r: Regs) {
    && |r.addr| == ADDR_WIDTH && |r.shiftIn| == DATA_WIDTH + HOLDOFF
    && |r.shiftOut| == DATA_WIDTH && |r.dataO| == DATA_WIDTH
  }

  /** The four bytes of a word in the opposite order. */
  function Swapped(w: Bits): (r: Bits)
    requires |w| == DATA_WIDTH
    ensures |r| == DATA_WIDTH
  {
    w[24..32] + w[16..24] + w[8..16] + w[0..8]
  }

  function WbDataO(r: Regs): Bits
    requires Wf(r)
  {
    Swapped(r.dataO)
  }

  function WbAddress(r: Regs): Bits
    requires Wf(r)
  {
    [false] + r.addr[1..]
  }

  function Miso(r: Regs, mosi: bool): bool
    requires Wf(r)
  {
    if r.outEn then r.shiftOut[0] else mosi
  }

  /** One rising edge of the delayed SPI clock while the chip is selected. */
  function Edge(r: Regs, mosi: bool, bus: Bus): (t: Regs)
    requires Wf(r) && |bus.data| == DATA_WIDTH
    ensures Wf(t)
  {
    var read := r.count == ADDR_WIDTH - 1 && !r.addr[1];
    var write := !read && r.count == ADDR_WIDTH + DATA_WIDTH - 1 && r.addr[0];
    var acked := r.strobe && bus.ack;
    Regs(
      if r.count < ADDR_WIDTH + DATA_WIDTH + HOLDOFF then r.count + 1 else r.count,
      if r.count > ADDR_WIDTH - 1 then r.addr else r.addr[1..] + [mosi],
      if r.count > ADDR_WIDTH - 1 then r.shiftIn[1..] + [mosi] else r.shiftIn,
      if r.count > ADDR_WIDTH + HOLDOFF - 1 then r.shiftOut[1..] + [false]
      else if bus.ack then Swapped(bus.data) else r.shiftOut,
      if read then seq(DATA_WIDTH, _ => false)
      else if write then r.shiftIn[HOLDOFF + 1..] + [mosi] else r.dataO,
      if acked then false else if read || write then true else r.cycle,
      if acked then false else if read || write then true else r.strobe,
      if read then false else if write then true else r.write,
      r.outEn || (r.count <= ADDR_WIDTH + HOLDOFF - 1 && bus.ack))
  }

  /** spi_rst: the chip is not selected.  The shift registers keep what they held. */
  function Deselected(r: Regs): (t: Regs)
    requires Wf(r)
    ensures Wf(t)
  {
    Regs(0, r.addr, r.shiftIn, seq(DATA_WIDTH, _ => false), r.dataO, false, false, false, false)
  }

  // ---------------------------------------------------------------------------------
  // The entity
  // ---------------------------------------------------------------------------------

  class Slave {
    var spiShiftCount: nat
    var addrShiftReg: Bits
    var shiftInReg: Bits
    var shiftOutReg: Bits
    var wbDataOReg: Bits
    var wbCycle: bool
    var wbStrobe: bool
    var wbWrite: bool
    var outEn: bool

    constructor ()
      ensures Wf(Registers()) && Registers() == Deselected(Registers())
    {
      spiShiftCount, wbCycle, wbStrobe, wbWrite, outEn := 0, false, false, false, false;
      addrShiftReg, shiftInReg := seq(ADDR_WIDTH, _ => false), seq(DATA_WIDTH + HOLDOFF, _ => false);
      shiftOutReg, wbDataOReg := seq(DATA_WIDTH, _ => false), seq(DATA_WIDTH, _ => false);
    }

    function Registers(): Regs
      reads this
    {
      Regs(spiShiftCount, addrShiftReg, shiftInReg, shiftOutReg, wbDataOReg, wbCycle, wbStrobe, wbWrite, outEn)
    }

    /** What spi_rst does while the chip is not selected. */
    method Select()
      requires Wf(Registers())
      modifies this
      ensures Registers() == Deselected(old(Registers()))
    {
      spiShiftCount, wbCycle, wbStrobe, wbWrite := 0, false, false, false;
      outEn, shiftOutReg := false, seq(DATA_WIDTH, _ => false);
    }

    /** Clocking out data; reads the counter before ShiftIn moves it. */
    method ShiftOut(bus: Bus)
      requires Wf(Registers()) && |bus.data| == DATA_WIDTH
      modifies this`shiftOutReg, this`outEn
      ensures shiftOutReg == Edge(old(Registers()), false, bus).shiftOut
      ensures outEn == Edge(old(Registers()), false, bus).outEn
    {
      if spiShiftCount > ADDR_WIDTH + HOLDOFF - 1 {
        shiftOutReg := shiftOutReg[1..] + [false];
      } else if bus.ack {
        shiftOutReg := Swapped(bus.data);
        outEn := true;
      }
    }

    /** Clocking in address and data, and the wishbone cycle. */
    method ShiftIn(mosi: bool, bus: Bus)
      requires Wf(Registers()) && |bus.data| == DATA_WIDTH
      modifies this`spiShiftCount, this`addrShiftReg, this`shiftInReg, this`wbDataOReg, this`wbCycle, this`wbStrobe,
               this`wbWrite
      ensures Registers() == Edge(old(Registers()), mosi, bus).(shiftOut := shiftOutReg, outEn := outEn)
    {
      var acked := wbStrobe && bus.ack;
      if spiShiftCount == ADDR_WIDTH - 1 && !addrShiftReg[1] {
        wbCycle, wbStrobe, wbWrite := true, true, false;
        wbDataOReg := seq(DATA_WIDTH, _ => false);
      } else if spiShiftCount == ADDR_WIDTH + DATA_WIDTH - 1 && addrShiftReg[0] {
        wbCycle, wbStrobe, wbWrite := true, true, true;
        wbDataOReg := shiftInReg[HOLDOFF + 1..] + [mosi];
      }
      if acked {
        wbCycle, wbStrobe := false, false;
      }
      if spiShiftCount > ADDR_WIDTH - 1 {
        shiftInReg := shiftInReg[1..] + [mosi];
      } else {
        addrShiftReg := addrShiftReg[1..] + [mosi];
      }
      if spiShiftCount < ADDR_WIDTH + DATA_WIDTH + HOLDOFF {
        spiShiftCount := spiShiftCount + 1;
      }
    }

    method RisingSpiClk(mosi: bool, bus: Bus)
      requires Wf(Registers()) && |bus.data| == DATA_WIDTH
      modifies this
      ensures Registers() == Edge(old(Registers()), mosi, bus)
    {
      ShiftOut(bus);
      ShiftIn(mosi, bus);
    }

    /** One transfer: the chip is selected anew and the master clocks its bits in, sampling one
        in front of every edge. */
    method Transfer(mosi: Bits, buses: seq<Bus>) returns (miso: Bits)
      requires Wf(Registers()) && |mosi| == TRANSFER && Buses(buses)
      modifies this
      ensures Registers() == At(old(Registers()), mosi, buses, TRANSFER)
      ensures miso == Received(old(Registers()), mosi, buses)
    {
      hide Edge, Deselected, Miso, At, Wf, Buses;
      ghost var r := Registers();
      AtFirst(r, mosi, buses);
      Select();
      miso := [];
      for k := 0 to TRANSFER
        invariant Wf(Registers()) && Registers() == At(r, mosi, buses, k)
        invariant |miso| == k && forall j :: 0 <= j < k ==> miso[j] == Miso(At(r, mosi, buses, j), mosi[j])
      {
        AtStep(r, mosi, buses, k + 1);
        miso := miso + [Miso(Registers(), mosi[k])];
        RisingSpiClk(mosi[k], buses[k]);
      }
    }
  }

  // ---------------------------------------------------------------------------------
  // Words, bytes and bits
  // ---------------------------------------------------------------------------------

  /** The low n bits of v, most significant first. */
  function BitsOf(v: nat, n: nat): (r: Bits)
    ensures |r| == n
  {
    if n == 0 then [] else BitsOf(v / 2, n - 1) + [v % 2 == 1]
  }

  function ValueOf(bits: Bits): nat {
    if bits == [] then 0
    else 2 * ValueOf(bits[..|bits| - 1]) + if bits[|bits| - 1] then 1 else 0
  }

  /** The bits of a number, one by one. */
  lemma {:induction false} BitsOfAt(v: nat, n: nat, k: nat)
    requires k < n
    ensures BitsOf(v, n)[n - 1 - k] == Bit(v, k)
    decreases n
  {
    if k > 0 {
      BitsOfAt(v / 2, n - 1, k - 1);
    }
  }

  /** Reading the bits of a number gives it back. */
  lemma {:induction false} ValueOfBits(v: nat, n: nat)
    requires v < Pow2(n)
    ensures ValueOf(BitsOf(v, n)) == v
    decreases n
  {
    if n > 0 {
      ValueOfBits(v / 2, n - 1);
      assert BitsOf(v, n)[..n - 1] == BitsOf(v / 2, n - 1);
    }
  }

  /** A byte goes out most significant bit first. */
  function Stream(bytes: seq<Byte>): (r: Bits)
    ensures |r| == 8 * |bytes|
  {
    if bytes == [] then [] else BitsOf(bytes[0], 8) + Stream(bytes[1..])
  }

  /** What comes back, cut into bytes again. */
  function BytesOf(bits: Bits): (r: seq<Byte>)
    requires |bits| % 8 == 0
    ensures |r| == |bits| / 8
  {
    if bits == [] then [] else [ByteOf(bits[..8])] + BytesOf(bits[8..])
  }

  function ByteOf(bits: Bits): Byte
    requires |bits| == 8
  {
    ValueBound(bits);
    Pow8();
    ValueOf(bits)
  }

  lemma {:induction false} ValueBound(bits: Bits)
    ensures ValueOf(bits) < Pow2(|bits|)
  {
    if bits != [] {
      ValueBound(bits[..|bits| - 1]);
    }
  }

  lemma {:induction false} HighAndLowBits(high: nat, low: nat, m: nat, n: nat)
    requires low < Pow2(n)
    ensures BitsOf(high * Pow2(n) + low, m + n) == BitsOf(high, m) + BitsOf(low, n)
    decreases n
  {
    if n > 0 {
      var x := high * Pow2(n - 1);
      Twice(high, Pow2(n - 1));
      assert Pow2(n) == 2 * Pow2(n - 1) && low / 2 < Pow2(n - 1);
      hide Pow2;
      HighAndLowBits(high, low / 2, m, n - 1);
      OneBitMore(x, low, m, n);
    } else {
      assert Pow2(0) == 1;
    }
  }

  lemma OneBitMore(x: nat, low: nat, m: nat, n: nat)
    requires n > 0
    ensures BitsOf(2 * x + low, m + n) == BitsOf(x + low / 2, m + n - 1) + [low % 2 == 1]
    ensures BitsOf(low, n) == BitsOf(low / 2, n - 1) + [low % 2 == 1]
  {
    assert (2 * x + low) / 2 == x + low / 2 && (2 * x + low) % 2 == low % 2;
  }

  /** The high part of a word in front of its low byte. */
  lemma LastByte(v: nat, m: nat)
    ensures BitsOf(v, m + 8) == BitsOf(v / 256, m) + BitsOf(v % 256, 8)
  {
    Pow8();
    assert v == v / 256 * 256 + v % 256;
    HighAndLowBits(v / 256, v % 256, m, 8);
  }

  /** The four bytes of a word, lowest first, as write_at sends them. */
  function LittleEndian(v: nat): (r: seq<Byte>)
    ensures |r| == 4
  {
    [v % 256, v / 256 % 256, v / 256 / 256 % 256, v / 256 / 256 / 256 % 256]
  }

  lemma {:induction false} StreamConcat(a: seq<Byte>, b: seq<Byte>)
    ensures Stream(a + b) == Stream(a) + Stream(b)
    decreases |a|
  {
    if a == [] {
      assert a + b == b;
    } else {
      assert (a + b)[1..] == a[1..] + b;
      StreamConcat(a[1..], b);
    }
  }

  lemma OneByte(b: Byte)
    ensures Stream([b]) == BitsOf(b, 8)
  {
    assert [b][1..] == [];
  }

  /** Byte order: swapped, a little-endian word is the word. */
  lemma SwappedStream(v: nat)
    ensures Swapped(Stream(LittleEndian(v))) == BitsOf(v, DATA_WIDTH)
  {
    var b0, b1, b2, b3 := v % 256, v / 256 % 256, v / 256 / 256 % 256, v / 256 / 256 / 256 % 256;
    hide BitsOf, Stream, Swapped;
    LastByte(v, 24);
    LastByte(v / 256, 16);
    LastByte(v / 256 / 256, 8);
    LastByte(v / 256 / 256 / 256, 0);
    NoBits(v / 256 / 256 / 256 / 256);
    FourBytes(b0, b1, b2, b3);
    SwapParts(BitsOf(b0, 8), BitsOf(b1, 8), BitsOf(b2, 8), BitsOf(b3, 8));
  }

  lemma SwapParts(a: Bits, b: Bits, c: Bits, d: Bits)
    requires |a| == |b| == |c| == |d| == 8
    ensures Swapped(a + b + c + d) == [] + d + c + b + a
  {
    var w := a + b + c + d;
    assert w[24..32] == d && w[16..24] == c && w[8..16] == b && w[0..8] == a;
  }

  lemma NoBits(v: nat)
    ensures BitsOf(v, 0) == []
  {
  }

  lemma FourBytes(b0: Byte, b1: Byte, b2: Byte, b3: Byte)
    ensures Stream([b0, b1, b2, b3]) == BitsOf(b0, 8) + BitsOf(b1, 8) + BitsOf(b2, 8) + BitsOf(b3, 8)
  {
    assert [b0, b1, b2, b3] == [b0] + ([b1] + ([b2] + [b3]));
    StreamConcat([b0], [b1] + ([b2] + [b3]));
    StreamConcat([b1], [b2] + [b3]);
    StreamConcat([b2], [b3]);
    OneByte(b0);
    OneByte(b1);
    OneByte(b2);
    OneByte(b3);
  }

  // ---------------------------------------------------------------------------------
  // A transfer
  // ---------------------------------------------------------------------------------

  const TRANSFER := ADDR_WIDTH + DATA_WIDTH + HOLDOFF

  ghost predicate Buses(buses: seq<Bus>) {
    |buses| == TRANSFER && forall k :: 0 <= k < TRANSFER ==> |buses[k].data| == DATA_WIDTH
  }

  /** The slave after the first n bits of a transfer that starts from r. */
  ghost function At(r: Regs, mosi: Bits, buses: seq<Bus>, n: nat): (t: Regs)
    requires Wf(r) && |mosi| == TRANSFER && Buses(buses) && n <= TRANSFER
    ensures Wf(t)
  {
    if n == 0 then Deselected(r) else Edge(At(r, mosi, buses, n - 1), mosi[n - 1], buses[n - 1])
  }

  /** What the master samples, one bit in front of every edge. */
  ghost function Received(r: Regs, mosi: Bits, buses: seq<Bus>): (rx: Bits)
    requires Wf(r) && |mosi| == TRANSFER && Buses(buses)
    ensures |rx| == TRANSFER
  {
    seq(TRANSFER, k requires 0 <= k < TRANSFER => Miso(At(r, mosi, buses, k), mosi[k]))
  }

  /** The last edge so far, by what it does in the three stretches of a transfer. */
  lemma LastEdge(r: Regs, mosi: Bits, buses: seq<Bus>, n: nat)
    requires Wf(r) && |mosi| == TRANSFER && Buses(buses) && 0 < n <= TRANSFER
    ensures var s, t := At(r, mosi, buses, n - 1), At(r, mosi, buses, n);
            && (s.count < TRANSFER ==> t.count == s.count + 1)
            && (s.count < ADDR_WIDTH ==> t.addr == s.addr[1..] + [mosi[n - 1]] && t.shiftIn == s.shiftIn)
            && (s.count >= ADDR_WIDTH ==> t.addr == s.addr && t.shiftIn == s.shiftIn[1..] + [mosi[n - 1]])
  {
  }

  lemma AtFirst(r: Regs, mosi: Bits, buses: seq<Bus>)
    requires Wf(r) && |mosi| == TRANSFER && Buses(buses)
    ensures At(r, mosi, buses, 0) == Deselected(r)
  {
  }

  lemma {:induction false} Counting(r: Regs, mosi: Bits, buses: seq<Bus>, n: nat)
    requires Wf(r) && |mosi| == TRANSFER && Buses(buses) && n <= TRANSFER
    ensures At(r, mosi, buses, n).count == n
  {
    hide At, Edge, Buses;
    if n == 0 {
      AtFirst(r, mosi, buses);
    } else {
      Counting(r, mosi, buses, n - 1);
      LastEdge(r, mosi, buses, n);
    }
  }

  lemma {:induction false} ShiftingAddress(r: Regs, mosi: Bits, buses: seq<Bus>, n: nat)
    requires Wf(r) && |mosi| == TRANSFER && Buses(buses) && n <= ADDR_WIDTH
    ensures At(r, mosi, buses, n).addr == r.addr[n..] + mosi[..n]
    ensures At(r, mosi, buses, n).shiftIn == r.shiftIn
  {
    hide At, Edge, Buses;
    if n == 0 {
      AtFirst(r, mosi, buses);
    } else {
      Counting(r, mosi, buses, n - 1);
      ShiftingAddress(r, mosi, buses, n - 1);
      LastEdge(r, mosi, buses, n);
      MoveOne(r.addr, mosi, 0, n - 1, n - 1);
    }
  }

  lemma {:induction false} ShiftingData(r: Regs, mosi: Bits, buses: seq<Bus>, n: nat)
    requires Wf(r) && |mosi| == TRANSFER && Buses(buses) && ADDR_WIDTH <= n <= TRANSFER
    ensures At(r, mosi, buses, n).addr == mosi[..ADDR_WIDTH]
    ensures At(r, mosi, buses, n).shiftIn == r.shiftIn[n - ADDR_WIDTH..] + mosi[ADDR_WIDTH..n]
  {
    hide At, Edge, Buses;
    if n == ADDR_WIDTH {
      ShiftingAddress(r, mosi, buses, n);
    } else {
      Counting(r, mosi, buses, n - 1);
      ShiftingData(r, mosi, buses, n - 1);
      LastEdge(r, mosi, buses, n);
      MoveOne(r.shiftIn, mosi, ADDR_WIDTH, n - 1, n - 1 - ADDR_WIDTH);
    }
  }

  lemma MoveOne(kept: Bits, stream: Bits, from: nat, i: nat, k: nat)
    requires k < |kept| && from <= i < |stream|
    ensures (kept[k..] + stream[from..i])[1..] + [stream[i]] == kept[k + 1..] + stream[from..i + 1]
  {
  }

  lemma AddressAt(r: Regs, mosi: Bits, buses: seq<Bus>, n: nat)
    requires Wf(r) && |mosi| == TRANSFER && Buses(buses) && ADDR_WIDTH - 1 <= n <= TRANSFER
    ensures At(r, mosi, buses, n).count == n
    ensures n == ADDR_WIDTH - 1 ==> At(r, mosi, buses, n).addr[1] == mosi[0]
    ensures n >= ADDR_WIDTH ==> At(r, mosi, buses, n).addr == mosi[..ADDR_WIDTH]
    ensures n == ADDR_WIDTH + DATA_WIDTH - 1 ==>
              At(r, mosi, buses, n).shiftIn[HOLDOFF + 1..] + [mosi[n]] == mosi[ADDR_WIDTH..ADDR_WIDTH + DATA_WIDTH]
  {
    Counting(r, mosi, buses, n);
    if n == ADDR_WIDTH - 1 {
      ShiftingAddress(r, mosi, buses, n);
    } else {
      ShiftingData(r, mosi, buses, n);
    }
  }

  /** The edge at which the wishbone cycle begins: after the address for a read, after the data for
      a write. */
  function StrobeEdge(mosi: Bits): nat
    requires |mosi| == TRANSFER
  {
    if mosi[0] then ADDR_WIDTH + DATA_WIDTH - 1 else ADDR_WIDTH - 1
  }

  ghost predicate StrobeBegins(r: Regs, mosi: Bits, buses: seq<Bus>, n: nat)
    requires Wf(r) && |mosi| == TRANSFER && Buses(buses) && n < TRANSFER
  {
    !At(r, mosi, buses, n).strobe && At(r, mosi, buses, n + 1).strobe
  }

  lemma {:induction false} QuietBefore(r: Regs, mosi: Bits, buses: seq<Bus>, n: nat)
    requires Wf(r) && |mosi| == TRANSFER && Buses(buses) && n <= StrobeEdge(mosi)
    ensures !At(r, mosi, buses, n).strobe
  {
    if n > 0 {
      QuietBefore(r, mosi, buses, n - 1);
      Counting(r, mosi, buses, n - 1);
      if n - 1 >= ADDR_WIDTH - 1 {
        AddressAt(r, mosi, buses, n - 1);
      }
    }
  }

  /** One strobe point in the whole transfer, whatever the bus does. */
  lemma OneStrobe(r: Regs, mosi: Bits, buses: seq<Bus>, n: nat)
    requires Wf(r) && |mosi| == TRANSFER && Buses(buses) && n < TRANSFER
    ensures StrobeBegins(r, mosi, buses, n) <==> n == StrobeEdge(mosi)
  {
    Counting(r, mosi, buses, n);
    if n <= StrobeEdge(mosi) {
      QuietBefore(r, mosi, buses, n);
    }
    if n >= ADDR_WIDTH - 1 {
      AddressAt(r, mosi, buses, n);
    }
  }

  /** From the strobe on, the bus sees the address bits and the data bits of the transfer. */
  lemma {:induction false} WriteCycle(r: Regs, mosi: Bits, buses: seq<Bus>, n: nat)
    requires Wf(r) && |mosi| == TRANSFER && Buses(buses) && mosi[0] && ADDR_WIDTH + DATA_WIDTH <= n <= TRANSFER
    ensures var t := At(r, mosi, buses, n);
            && t.write && t.cycle == t.strobe
            && WbAddress(t) == [false] + mosi[1..ADDR_WIDTH]
            && WbDataO(t) == Swapped(mosi[ADDR_WIDTH..ADDR_WIDTH + DATA_WIDTH])
  {
    hide At, Edge, Buses, Swapped;
    AddressAt(r, mosi, buses, n);
    AddressAt(r, mosi, buses, n - 1);
    AtStep(r, mosi, buses, n);
    if n > ADDR_WIDTH + DATA_WIDTH {
      WriteCycle(r, mosi, buses, n - 1);
      AfterWriteEdge(At(r, mosi, buses, n - 1), mosi[n - 1], buses[n - 1]);
    } else {
      QuietBefore(r, mosi, buses, n - 1);
      WriteEdge(At(r, mosi, buses, n - 1), mosi[n - 1], buses[n - 1]);
    }
  }

  lemma WriteEdge(s: Regs, mosi: bool, bus: Bus)
    requires Wf(s) && |bus.data| == DATA_WIDTH && !s.strobe && s.count == ADDR_WIDTH + DATA_WIDTH - 1 && s.addr[0]
    ensures var t := Edge(s, mosi, bus);
            t.strobe && t.cycle && t.write && t.dataO == s.shiftIn[HOLDOFF + 1..] + [mosi]
  {
  }

  lemma AfterWriteEdge(s: Regs, mosi: bool, bus: Bus)
    requires Wf(s) && |bus.data| == DATA_WIDTH && s.cycle == s.strobe && s.count >= ADDR_WIDTH + DATA_WIDTH
    ensures var t := Edge(s, mosi, bus); t.cycle == t.strobe && t.write == s.write && t.dataO == s.dataO
  {
  }

  lemma AtStep(r: Regs, mosi: Bits, buses: seq<Bus>, n: nat)
    requires Wf(r) && |mosi| == TRANSFER && Buses(buses) && 0 < n <= TRANSFER
    ensures |buses| == TRANSFER && |buses[n - 1].data| == DATA_WIDTH
    ensures At(r, mosi, buses, n) == Edge(At(r, mosi, buses, n - 1), mosi[n - 1], buses[n - 1])
  {
    hide Edge;
  }

  lemma ReadEdge(s: Regs, mosi: bool, bus: Bus)
    requires Wf(s) && |bus.data| == DATA_WIDTH && !s.strobe && s.count == ADDR_WIDTH - 1 && !s.addr[1]
    ensures var t := Edge(s, mosi, bus); t.strobe && t.cycle && !t.write
  {
  }

  lemma LaterEdge(s: Regs, mosi: bool, bus: Bus)
    requires Wf(s) && |bus.data| == DATA_WIDTH && s.cycle == s.strobe && s.count >= ADDR_WIDTH && !s.addr[0]
    ensures var t := Edge(s, mosi, bus); t.cycle == t.strobe && t.write == s.write
  {
  }

  /** A read cycle shows the address and never writes. */
  lemma {:induction false} ReadCycle(r: Regs, mosi: Bits, buses: seq<Bus>, n: nat)
    requires Wf(r) && |mosi| == TRANSFER && Buses(buses) && !mosi[0] && ADDR_WIDTH <= n <= TRANSFER
    ensures var t := At(r, mosi, buses, n);
            !t.write && t.cycle == t.strobe && WbAddress(t) == mosi[..ADDR_WIDTH]
  {
    hide At, Edge, Buses;
    AddressAt(r, mosi, buses, n);
    AddressAt(r, mosi, buses, n - 1);
    AtStep(r, mosi, buses, n);
    if n > ADDR_WIDTH {
      ReadCycle(r, mosi, buses, n - 1);
      LaterEdge(At(r, mosi, buses, n - 1), mosi[n - 1], buses[n - 1]);
    } else {
      QuietBefore(r, mosi, buses, n - 1);
      ReadEdge(At(r, mosi, buses, n - 1), mosi[n - 1], buses[n - 1]);
    }
  }

  /** The data of the last acknowledge among the first n edges. */
  function LastAck(buses: seq<Bus>, n: nat): (d: WireFormat.Option<Bits>)
    requires n <= |buses|
  {
    if n == 0 then WireFormat.None
    else if buses[n - 1].ack then WireFormat.Some(buses[n - 1].data)
    else LastAck(buses, n - 1)
  }

  lemma {:induction false} Loading(r: Regs, mosi: Bits, buses: seq<Bus>, n: nat)
    requires Wf(r) && |mosi| == TRANSFER && Buses(buses) && n <= ADDR_WIDTH + HOLDOFF
    ensures var t, d := At(r, mosi, buses, n), LastAck(buses, n);
            && t.outEn == d.Some?
            && (d.Some? ==> |d.value| == DATA_WIDTH && t.shiftOut == Swapped(d.value))
  {
    if n > 0 {
      Counting(r, mosi, buses, n - 1);
      Loading(r, mosi, buses, n - 1);
      hide Swapped;
    }
  }

  lemma {:induction false} Unloading(r: Regs, mosi: Bits, buses: seq<Bus>, k: nat)
    requires Wf(r) && |mosi| == TRANSFER && Buses(buses) && k < DATA_WIDTH
    ensures var s, t := At(r, mosi, buses, ADDR_WIDTH + HOLDOFF), At(r, mosi, buses, ADDR_WIDTH + HOLDOFF + k);
            t.outEn == s.outEn && t.shiftOut[..DATA_WIDTH - k] == s.shiftOut[k..]
  {
    hide At, Edge, Buses;
    if k > 0 {
      var n := ADDR_WIDTH + HOLDOFF + k;
      Counting(r, mosi, buses, n - 1);
      Unloading(r, mosi, buses, k - 1);
      AtStep(r, mosi, buses, n);
      OutEdge(At(r, mosi, buses, n - 1), mosi[n - 1], buses[n - 1]);
      ShiftedSlice(At(r, mosi, buses, n - 1).shiftOut, At(r, mosi, buses, ADDR_WIDTH + HOLDOFF).shiftOut, k);
    } else {
      var s := At(r, mosi, buses, ADDR_WIDTH + HOLDOFF);
      assert s.shiftOut[..DATA_WIDTH] == s.shiftOut[0..];
    }
  }

  lemma ShiftedSlice(x: Bits, loaded: Bits, k: nat)
    requires |x| == |loaded| == DATA_WIDTH && 0 < k < DATA_WIDTH && x[..DATA_WIDTH - (k - 1)] == loaded[k - 1..]
    ensures (x[1..] + [false])[..DATA_WIDTH - k] == loaded[k..]
  {
    assert (x[1..] + [false])[..DATA_WIDTH - k] == x[..DATA_WIDTH - (k - 1)][1..];
  }

  lemma OutEdge(s: Regs, mosi: bool, bus: Bus)
    requires Wf(s) && |bus.data| == DATA_WIDTH && s.count >= ADDR_WIDTH + HOLDOFF
    ensures var t := Edge(s, mosi, bus); t.outEn == s.outEn && t.shiftOut == s.shiftOut[1..] + [false]
  {
  }

  lemma ReceivedBit(r: Regs, mosi: Bits, buses: seq<Bus>, k: nat)
    requires Wf(r) && |mosi| == TRANSFER && Buses(buses) && k < DATA_WIDTH
    ensures var s := At(r, mosi, buses, ADDR_WIDTH + HOLDOFF);
            Received(r, mosi, buses)[ADDR_WIDTH + HOLDOFF + k]
            == if s.outEn then s.shiftOut[k] else mosi[ADDR_WIDTH + HOLDOFF + k]
  {
    hide At, Buses;
    Unloading(r, mosi, buses, k);
    assert At(r, mosi, buses, ADDR_WIDTH + HOLDOFF + k).shiftOut[0]
           == At(r, mosi, buses, ADDR_WIDTH + HOLDOFF + k).shiftOut[..DATA_WIDTH - k][0];
  }

  /** After the holdoff the master receives the acknowledged data, bytes swapped; without an
      acknowledge it receives what it sends. */
  lemma ReceivedData(r: Regs, mosi: Bits, buses: seq<Bus>)
    requires Wf(r) && |mosi| == TRANSFER && Buses(buses)
    ensures var d := LastAck(buses, ADDR_WIDTH + HOLDOFF);
            && (d.Some? ==> |d.value| == DATA_WIDTH)
            && Received(r, mosi, buses)[ADDR_WIDTH + HOLDOFF..]
               == if d.Some? then Swapped(d.value) else mosi[ADDR_WIDTH + HOLDOFF..]
  {
    Loading(r, mosi, buses, ADDR_WIDTH + HOLDOFF);
    var d := LastAck(buses, ADDR_WIDTH + HOLDOFF);
    hide At, Swapped, LastAck, Buses, Received;
    var rx := Received(r, mosi, buses)[ADDR_WIDTH + HOLDOFF..];
    var echo := mosi[ADDR_WIDTH + HOLDOFF..];
    var want := if d.Some? then Swapped(d.value) else echo;
    forall k | 0 <= k < DATA_WIDTH ensures rx[k] == want[k] {
      ReceivedBit(r, mosi, buses, k);
    }
    SameBits(rx, want);
  }

  lemma SameBits(a: Bits, b: Bits)
    requires |a| == |b| && forall k :: 0 <= k < |a| ==> a[k] == b[k]
    ensures a == b
  {
  }

  // ---------------------------------------------------------------------------------
  // spi_dev.hpp
  // ---------------------------------------------------------------------------------

  /** byte | 0x80 */
  function SetTop(b: Byte): Byte {
    if b < 128 then b + 128 else b
  }

  /** The buffer of write_at; the address byte does not depend on `offset`. */
  method WriteBuffer(addr: nat, data: nat) returns (tx: array<Byte>)
    ensures fresh(tx) && tx[..] == [SetTop(addr % 256)] + LittleEndian(data) + [0]
  {
    tx := new Byte[6](_ => 0);
    tx[0] := SetTop(addr % 256);
    for i := 0 to 4
      invariant tx[0] == SetTop(addr % 256) && tx[5] == 0
      invariant forall k :: 0 <= k < i ==> tx[1 + k] == ShiftRight(data, k) % 256
    {
      tx[1 + i] := ShiftRight(data, i) % 256;
    }
    ShiftsOf(data);
  }

  lemma ShiftsOf(v: int)
    ensures ShiftRight(v, 0) == v && ShiftRight(v, 1) == v / 256
    ensures ShiftRight(v, 2) == v / 256 / 256 && ShiftRight(v, 3) == v / 256 / 256 / 256
  {
    ShiftOnceMore(v, 1);
    ShiftOnceMore(v, 2);
  }

  /** The buffer of read_at. */
  method ReadBuffer(addr: nat, offset: nat) returns (tx: array<Byte>)
    ensures fresh(tx) && tx[..] == [(addr + offset) % 256, 0, 0, 0, 0, 0]
  {
    tx := new Byte[6](_ => 0);
    tx[0] := (addr + offset) % 256;
  }

  /** memcpy of received bytes into a word. */
  function FromLittleEndian(bytes: seq<Byte>): nat {
    if bytes == [] then 0 else bytes[0] + 256 * FromLittleEndian(bytes[1..])
  }

  /** The word that read_at makes of the bits it receives. */
  function ReadWord(rx: Bits): nat
    requires |rx| == TRANSFER
  {
    FromLittleEndian(BytesOf(rx)[2..])
  }

  lemma TopBit(b: Byte)
    ensures BitsOf(b, 8) == [b >= 128] + BitsOf(b % 128, 7)
    ensures BitsOf(SetTop(b), 8) == [true] + BitsOf(b % 128, 7)
    ensures BitsOf(b % 128, 8) == [false] + BitsOf(b % 128, 7)
  {
    var low := b % 128;
    SevenBits(b);
    hide BitsOf, Pow2, SetTop;
    HighAndLowBits(1, low, 1, 7);
    HighAndLowBits(0, low, 1, 7);
  }

  lemma SevenBits(b: Byte)
    ensures Pow2(7) == 128 && BitsOf(1, 1) == [true] && BitsOf(0, 1) == [false]
    ensures SetTop(b) == 1 * Pow2(7) + b % 128 && b % 128 == 0 * Pow2(7) + b % 128
    ensures b >= 128 ==> b == SetTop(b)
    ensures b < 128 ==> b == b % 128
  {
    assert Pow2(4) == 16;
  }

  /** The bits of the two transfers. */
  function WriteBits(addr: nat, value: nat): (r: Bits)
    ensures |r| == TRANSFER
  {
    Stream([SetTop(addr % 256)] + LittleEndian(value) + [0])
  }

  function ReadBits(addr: nat, offset: nat): (r: Bits)
    ensures |r| == TRANSFER
  {
    Stream([(addr + offset) % 256, 0, 0, 0, 0, 0])
  }

  lemma WriteBitsAre(addr: nat, value: nat)
    ensures var mosi := WriteBits(addr, value);
            mosi[..8] == BitsOf(SetTop(addr % 256), 8) && mosi[8..40] == Stream(LittleEndian(value))
  {
    var b := SetTop(addr % 256);
    hide BitsOf, LittleEndian, SetTop;
    StreamConcat([b] + LittleEndian(value), [0]);
    StreamConcat([b], LittleEndian(value));
    OneByte(b);
  }

  /** write_at: in one transfer, from any earlier state of the slave and whatever the bus answers,
      exactly one write strobe, with the value and the low seven bits of the address on the bus. */
  lemma WriteReachesBus(r: Regs, addr: nat, value: nat, buses: seq<Bus>, n: nat)
    requires Wf(r) && Buses(buses) && n < TRANSFER
    ensures var mosi := WriteBits(addr, value);
            && (StrobeBegins(r, mosi, buses, n) <==> n == ADDR_WIDTH + DATA_WIDTH - 1)
            && (n >= ADDR_WIDTH + DATA_WIDTH - 1 ==>
                  var t := At(r, mosi, buses, n + 1);
                  && t.write && WbAddress(t) == BitsOf(addr % 256 % 128, 8) && WbDataO(t) == BitsOf(value, DATA_WIDTH))
  {
    var mosi := WriteBits(addr, value);
    WriteBitsAre(addr, value);
    TopBit(addr % 256);
    SwappedStream(value);
    hide *;
    assert mosi[0] == mosi[..8][0] && mosi[1..8] == mosi[..8][1..];
    OneStrobe(r, mosi, buses, n);
    EdgeOf(mosi);
    if n >= ADDR_WIDTH + DATA_WIDTH - 1 {
      WriteCycle(r, mosi, buses, n + 1);
    }
  }

  /** read_at: the slave answers with one strobe right after the address, and never a write, exactly
      when the low byte of addr + offset has its top bit clear. */
  lemma ReadStrobe(r: Regs, addr: nat, offset: nat, buses: seq<Bus>, n: nat)
    requires Wf(r) && Buses(buses) && n < TRANSFER
    ensures var mosi, b := ReadBits(addr, offset), (addr + offset) % 256;
            && (StrobeBegins(r, mosi, buses, ADDR_WIDTH - 1) <==> b < 128)
            && (b < 128 ==>
                  && (StrobeBegins(r, mosi, buses, n) <==> n == ADDR_WIDTH - 1)
                  && (n >= ADDR_WIDTH - 1 ==>
                        !At(r, mosi, buses, n + 1).write && WbAddress(At(r, mosi, buses, n + 1)) == BitsOf(b, 8)))
  {
    var mosi, b := ReadBits(addr, offset), (addr + offset) % 256;
    ReadBitsAre(addr, offset);
    TopBit(b);
    hide *;
    assert mosi[0] == mosi[..8][0];
    OneStrobe(r, mosi, buses, ADDR_WIDTH - 1);
    OneStrobe(r, mosi, buses, n);
    EdgeOf(mosi);
    if b < 128 && n >= ADDR_WIDTH - 1 {
      ReadCycle(r, mosi, buses, n + 1);
    }
  }

  lemma EdgeOf(mosi: Bits)
    requires |mosi| == TRANSFER
    ensures StrobeEdge(mosi) == if mosi[0] then ADDR_WIDTH + DATA_WIDTH - 1 else ADDR_WIDTH - 1
  {
  }

  /** read_at returns the bus value of the last acknowledge inside the holdoff, and zero when there
      is none. */
  lemma ReadReturnsBus(r: Regs, addr: nat, offset: nat, buses: seq<Bus>)
    requires Wf(r) && Buses(buses)
    ensures var d := LastAck(buses, ADDR_WIDTH + HOLDOFF);
            ReadWord(Received(r, ReadBits(addr, offset), buses)) == if d.Some? then ValueOf(d.value) else 0
  {
    ReadBitsAre(addr, offset);
    hide *;
    ReadValue(r, ReadBits(addr, offset), buses);
  }

  /** read_at returns the 32-bit word v that the bus acknowledges last inside the holdoff. */
  lemma ReadReturnsWord(r: Regs, addr: nat, offset: nat, buses: seq<Bus>, v: nat)
    requires Wf(r) && Buses(buses) && v < 0x1_0000_0000
    requires LastAck(buses, ADDR_WIDTH + HOLDOFF) == WireFormat.Some(BitsOf(v, DATA_WIDTH))
    ensures ReadWord(Received(r, ReadBits(addr, offset), buses)) == v
  {
    WordHas32Bits();
    hide *;
    ReadReturnsBus(r, addr, offset, buses);
    ValueOfBits(v, DATA_WIDTH);
  }

  lemma WordHas32Bits()
    ensures Pow2(DATA_WIDTH) == 0x1_0000_0000
  {
    assert Pow2(4) == 16 && Pow2(8) == 256 && Pow2(12) == 0x1000 && Pow2(16) == 0x1_0000;
    assert Pow2(20) == 0x10_0000 && Pow2(24) == 0x100_0000 && Pow2(28) == 0x1000_0000;
  }

  /** Which acknowledge is the last one. */
  lemma {:induction false} LastAckIs(buses: seq<Bus>, n: nat)
    requires n <= |buses|
    ensures LastAck(buses, n) == WireFormat.None <==> forall k :: 0 <= k < n ==> !buses[k].ack
    ensures LastAck(buses, n).Some? ==>
              exists k :: 0 <= k < n && buses[k].ack && LastAck(buses, n).value == buses[k].data
                          && forall j :: k < j < n ==> !buses[j].ack
  {
    if n > 0 {
      LastAckIs(buses, n - 1);
    }
  }

  lemma ReadValue(r: Regs, mosi: Bits, buses: seq<Bus>)
    requires Wf(r) && |mosi| == TRANSFER && Buses(buses)
    requires forall k :: ADDR_WIDTH + HOLDOFF <= k < TRANSFER ==> !mosi[k]
    ensures var d := LastAck(buses, ADDR_WIDTH + HOLDOFF);
            ReadWord(Received(r, mosi, buses)) == if d.Some? then ValueOf(d.value) else 0
  {
    hide At, Swapped, ReadWord, Received, ValueOf, LastAck;
    ReceivedData(r, mosi, buses);
    WordOf(Received(r, mosi, buses));
    var d := LastAck(buses, ADDR_WIDTH + HOLDOFF);
    if d.Some? {
      SwappedTwice(d.value);
    } else {
      NothingReceived(mosi[ADDR_WIDTH + HOLDOFF..]);
    }
  }

  lemma ReadBitsAre(addr: nat, offset: nat)
    ensures var mosi, b := ReadBits(addr, offset), (addr + offset) % 256;
            mosi[..8] == BitsOf(b, 8) && forall k :: ADDR_WIDTH + HOLDOFF <= k < TRANSFER ==> !mosi[k]
  {
    var b := (addr + offset) % 256;
    assert BitsOf(0, 8) == seq(8, _ => false) by {
      ZeroBits(8);
    }
    assert [b, 0, 0, 0, 0, 0] == [b] + ([0] + [0, 0, 0, 0]);
    StreamConcat([b], [0] + [0, 0, 0, 0]);
    StreamConcat([0], [0, 0, 0, 0]);
    OneByte(b);
    FourBytes(0, 0, 0, 0);
  }

  lemma {:induction false} ZeroBits(n: nat)
    ensures BitsOf(0, n) == seq(n, _ => false)
  {
    if n > 0 {
      ZeroBits(n - 1);
    }
  }

  lemma SwappedTwice(w: Bits)
    requires |w| == DATA_WIDTH
    ensures Swapped(Swapped(w)) == w
  {
    assert w == w[0..8] + w[8..16] + w[16..24] + w[24..32];
    SwapParts(w[0..8], w[8..16], w[16..24], w[24..32]);
    SwapParts(w[24..32], w[16..24], w[8..16], w[0..8]);
  }

  lemma NothingReceived(bits: Bits)
    requires |bits| == DATA_WIDTH && forall k :: 0 <= k < DATA_WIDTH ==> !bits[k]
    ensures ValueOf(Swapped(bits)) == 0
  {
    AllZero(Swapped(bits));
  }

  lemma {:induction false} AllZero(bits: Bits)
    requires forall k :: 0 <= k < |bits| ==> !bits[k]
    ensures ValueOf(bits) == 0
  {
    if bits != [] {
      AllZero(bits[..|bits| - 1]);
    }
  }

  lemma {:induction false} ValueConcat(a: Bits, b: Bits)
    ensures ValueOf(a + b) == ValueOf(a) * Pow2(|b|) + ValueOf(b)
    decreases |b|
  {
    if b == [] {
      assert a + b == a;
    } else {
      var n := |b| - 1;
      assert (a + b)[..|a| + n] == a + b[..n];
      assert ValueOf(a + b) == 2 * ValueOf(a + b[..n]) + if b[n] then 1 else 0;
      assert ValueOf(b) == 2 * ValueOf(b[..n]) + if b[n] then 1 else 0;
      assert Pow2(|b|) == 2 * Pow2(n);
      hide ValueOf, Pow2;
      ValueConcat(a, b[..n]);
      Twice(ValueOf(a), Pow2(n));
    }
  }

  lemma Twice(x: nat, y: nat)
    ensures x * (2 * y) == 2 * (x * y)
  {
  }

  lemma EightMore(a: Bits, b: Bits)
    requires |b| == 8
    ensures ValueOf(a + b) == 256 * ValueOf(a) + ValueOf(b)
  {
    Pow8();
    hide ValueOf, Pow2;
    ValueConcat(a, b);
  }

  /** The word that read_at makes of the last four bytes of a transfer. */
  lemma WordOf(rx: Bits)
    requires |rx| == TRANSFER
    ensures ReadWord(rx) == ValueOf(Swapped(rx[16..]))
  {
    var p0, p1, p2, p3 := rx[16..24], rx[24..32], rx[32..40], rx[40..48];
    TailBytes(rx);
    hide BytesOf, ValueOf;
    assert Swapped(rx[16..]) == p3 + p2 + p1 + p0 by {
      var w := rx[16..];
      assert w[0..8] == p0 && w[8..16] == p1 && w[16..24] == p2 && w[24..32] == p3;
    }
    assert ByteOf(p0) == ValueOf(p0) && ByteOf(p1) == ValueOf(p1);
    assert ByteOf(p2) == ValueOf(p2) && ByteOf(p3) == ValueOf(p3);
    hide ByteOf, FromLittleEndian, Swapped;
    EightMore(p3 + p2 + p1, p0);
    EightMore(p3 + p2, p1);
    EightMore(p3, p2);
    FourLittleEndian(ByteOf(p0), ByteOf(p1), ByteOf(p2), ByteOf(p3));
  }

  lemma FourLittleEndian(a: Byte, b: Byte, c: Byte, d: Byte)
    ensures FromLittleEndian([a, b, c, d]) == a + (256 * b as int) + (65536 * c as int) + (16777216 * d as int)
  {
    assert [a, b, c, d][1..] == [b, c, d] && [b, c, d][1..] == [c, d] && [c, d][1..] == [d] && [d][1..] == [];
    assert FromLittleEndian([d]) == d;
    assert FromLittleEndian([c, d]) == c + 256 * FromLittleEndian([d]);
    assert FromLittleEndian([b, c, d]) == b + 256 * FromLittleEndian([c, d]);
  }

  lemma TailBytes(rx: Bits)
    requires |rx| == TRANSFER
    ensures BytesOf(rx)[2..] == [ByteOf(rx[16..24]), ByteOf(rx[24..32]), ByteOf(rx[32..40]), ByteOf(rx[40..48])]
  {
    var r1, r2, r3, r4, r5 := rx[8..], rx[16..], rx[24..], rx[32..], rx[40..];
    assert r1[8..] == r2 && r2[8..] == r3 && r3[8..] == r4 && r4[8..] == r5 && r5[8..] == [];
    assert r2[..8] == rx[16..24] && r3[..8] == rx[24..32] && r4[..8] == rx[32..40] && r5[..8] == rx[40..48];
    hide ByteOf, BytesOf;
    FirstByte(r5);
    FirstByte(r4);
    FirstByte(r3);
    FirstByte(r2);
    FirstByte(r1);
    FirstByte(rx);
    NoBytes();
  }

  lemma FirstByte(bits: Bits)
    requires bits != [] && |bits| % 8 == 0
    ensures BytesOf(bits) == [ByteOf(bits[..8])] + BytesOf(bits[8..])
  {
    hide ByteOf;
  }

  lemma NoBytes()
    ensures BytesOf([]) == []
  {
  }
}
