/** Whole transactions of the master of hdl/i2c_master.vhd: from a request of the user logic to the
    bytes on the wire, whatever the other devices and later requests do meanwhile. */
module I2cTransaction {
  import opened I2cMaster

  /** A stretch of a run in one state: what was on SDA in the middle of every SCL pulse, as driven by
      the master, as left by the other devices and as heard, and data_rd when the state was left. */
  datatype Phase = Phase(state: State, driven: seq<bool>, offered: seq<bool>, heard: seq<bool>, dataRd: Octet)

  function Left(w: Watch, t: Watch): seq<Phase> {
    if t.l.state != w.l.state then [Phase(w.l.state, w.driven, w.offered, w.heard, t.d.dataRd)] else []
  }

  /** The phases that end during a run. */
  function Phases(divider: nat, w: Watch, ins: seq<Inputs>): seq<Phase>
    requires divider >= 2 && Sound(divider, w)
    decreases |ins|
  {
    if ins == [] then []
    else
      SoundTick(divider, w, ins[0]);
      var t := Next(divider, w, ins[0]);
      Left(w, t) + Phases(divider, t, ins[1..])
  }

  /** What the k-th phase of a transaction has to be: a start condition, the address with the
      direction bit, the slave's acknowledge, and the byte in the direction asked for. */
  predicate Fits(ph: Phase, request: Inputs, k: nat) {
    if k == 0 then ph.state == Start
    else if k == 1 then ph.state == Command && ph.driven == MsbFirst([request.rw] + request.addr)
    else if k == 2 then ph.state == SlvAck1 && ph.driven == [true] && |ph.heard| == 1
    else if !request.rw then ph.state == Wr && ph.driven == MsbFirst(request.dataWr)
    else ph.state == Rd && ph.driven == AllHigh() && ph.offered == ph.heard == MsbFirst(ph.dataRd)
  }

  function AllHigh(): (r: seq<bool>)
    ensures |r| == 8
  {
    [true, true, true, true, true, true, true, true]
  }

  ghost predicate Released(seen: seq<bool>) {
    forall k :: 0 <= k < |seen| ==> seen[k]
  }

  /** The master is in the k-th phase of serving this request. */
  ghost predicate Serving(w: Watch, request: Inputs, k: nat) {
    && w.d.addrRw == AddrRw(request) && w.d.dataTx == request.dataWr
    && (k == 0 ==> w.l.state == Start)
    && (k == 1 ==> w.l.state == Command)
    && (k == 2 ==> w.l.state == SlvAck1 && w.l.sdaInt)
    && (k == 3 ==> w.l.state == (if request.rw then Rd else Wr) && (request.rw ==> w.l.sdaInt))
    && (k >= 2 ==> |w.driven| == |w.heard| == Passed(w.c, w.l))
    && (k == 2 || (k == 3 && request.rw) ==> Released(w.driven) && w.offered == w.heard)
    && k <= 3
  }

  lemma ServingRise(divider: nat, w: Watch, i: Inputs, request: Inputs, k: nat)
    requires divider >= 2 && Sound(divider, w) && Serving(w, request, k) && Rises(w.c)
    ensures var t := Next(divider, w, i);
            && (t.l.state == w.l.state ==> Serving(t, request, k))
            && (t.l.state != w.l.state ==>
                  && Fits(Phase(w.l.state, w.driven, w.offered, w.heard, t.d.dataRd), request, k)
                  && (k < 3 ==> Serving(t, request, k + 1)))
  {
    TimingTick(divider, w.c, Scl(w.c, w.l, i));
    ByteEnds(divider, w, i);
    hide Timing, NextClocks;
    if k == 2 {
      assert |w.driven| == 1 ==> w.driven == [w.driven[0]];
    } else if k == 3 && request.rw {
      assert |w.driven| == 8 ==> w.driven == AllHigh();
    }
  }

  lemma ServingTick(divider: nat, w: Watch, i: Inputs, request: Inputs, k: nat)
    requires divider >= 2 && Sound(divider, w) && Serving(w, request, k)
    ensures var t := Next(divider, w, i);
            && (t.l.state == w.l.state ==> Serving(t, request, k))
            && (t.l.state != w.l.state ==>
                  && Fits(Phase(w.l.state, w.driven, w.offered, w.heard, t.d.dataRd), request, k)
                  && (k < 3 ==> Serving(t, request, k + 1)))
  {
    if Rises(w.c) {
      ServingRise(divider, w, i, request, k);
    } else {
      TimingTick(divider, w.c, Scl(w.c, w.l, i));
      hide Timing, NextClocks, LineOnRise, DataOnRise, Bits;
    }
  }

  /** The phases from the k-th on are the ones asked for. */
  ghost predicate AsAsked(log: seq<Phase>, request: Inputs, k: nat) {
    forall m :: 0 <= m < |log| && k + m <= 3 ==> Fits(log[m], request, k + m)
  }

  lemma OneMore(ph: Phase, log: seq<Phase>, request: Inputs, k: nat)
    requires Fits(ph, request, k) && (k < 3 ==> AsAsked(log, request, k + 1))
    ensures AsAsked([ph] + log, request, k)
  {
    hide Fits;
    forall m | 0 <= m < |[ph] + log| && k + m <= 3 ensures Fits(([ph] + log)[m], request, k + m) {
      if m > 0 {
        assert ([ph] + log)[m] == log[m - 1] && k + 1 + (m - 1) == k + m;
      }
    }
  }

  lemma {:induction false} Served(divider: nat, w: Watch, ins: seq<Inputs>, request: Inputs, k: nat)
    requires divider >= 2 && Sound(divider, w) && Serving(w, request, k)
    ensures AsAsked(Phases(divider, w, ins), request, k)
    decreases |ins|
  {
    hide Sound, Next, Fits;
    if ins != [] {
      hide Serving, AsAsked;
      BitCounter(divider, w);
      SoundTick(divider, w, ins[0]);
      ServingTick(divider, w, ins[0], request, k);
      var t := Next(divider, w, ins[0]);
      var rest := Phases(divider, t, ins[1..]);
      if t.l.state == w.l.state {
        Served(divider, t, ins[1..], request, k);
        assert [] + rest == rest;
      } else {
        var ph := Phase(w.l.state, w.driven, w.offered, w.heard, t.d.dataRd);
        if k < 3 {
          Served(divider, t, ins[1..], request, k + 1);
        }
        OneMore(ph, rest, request, k);
      }
    }
  }

  // ---------------------------------------------------------------------------------
  // Requests
  // ---------------------------------------------------------------------------------

  /** The byte states agree with the direction bit. */
  predicate Directed(w: Watch) {
    && (w.l.state == Wr || w.l.state == SlvAck2 ==> !w.d.addrRw[0])
    && (w.l.state == Rd || w.l.state == MstrAck ==> w.d.addrRw[0])
  }

  lemma DirectedTick(divider: nat, w: Watch, i: Inputs)
    requires divider >= 2 && Sound(divider, w) && Directed(w)
    ensures Directed(Next(divider, w, i))
  {
    hide Timing, Bits, NextClocks;
  }

  lemma {:induction false} DirectedInEveryRun(divider: nat, w: Watch, ins: seq<Inputs>)
    requires divider >= 2 && Sound(divider, w) && Directed(w)
    ensures Directed(Exec(divider, w, ins))
    decreases |ins|
  {
    hide Sound, Next, Directed;
    if ins != [] {
      BitCounter(divider, w);
      SoundTick(divider, w, ins[0]);
      DirectedTick(divider, w, ins[0]);
      DirectedInEveryRun(divider, Next(divider, w, ins[0]), ins[1..]);
    }
  }

  /** A request is taken on this clock. */
  predicate Taken(w: Watch, i: Inputs) {
    Rises(w.c) && i.ena && (w.l.state == Ready || w.l.state == SlvAck2 || w.l.state == MstrAck)
  }

  /** It goes on with another byte, without a new start and address. */
  predicate Continued(w: Watch, i: Inputs) {
    w.l.state != Ready && w.d.addrRw == AddrRw(i)
  }

  lemma TakenServes(divider: nat, w: Watch, i: Inputs)
    requires divider >= 2 && Sound(divider, w) && Directed(w) && Taken(w, i)
    ensures Serving(Next(divider, w, i), i, if Continued(w, i) then 3 else 0)
  {
    TimingTick(divider, w.c, Scl(w.c, w.l, i));
    assert AddrRw(i)[0] == i.rw;
    hide Timing, Bits, NextClocks;
  }

  /** A request (addr, rw, dataWr), taken in `ready` or behind a byte: whatever is asked for later and
      whatever the other devices do, what follows is a start condition, the address and rw, the
      slot for the slave's acknowledge with SDA released, and then, for rw = 0, dataWr on SDA, and
      for rw = 1 eight bits with SDA released that end up in data_rd, most significant bit first.  A
      request behind a byte that repeats address and rw goes straight to its byte. */
  lemma Transaction(divider: nat, w: Watch, i: Inputs, ins: seq<Inputs>)
    requires divider >= 2 && Sound(divider, w) && Directed(w) && Taken(w, i)
    ensures Sound(divider, Next(divider, w, i))
    ensures AsAsked(Phases(divider, Next(divider, w, i), ins), i, if Continued(w, i) then 3 else 0)
  {
    SoundTick(divider, w, i);
    TakenServes(divider, w, i);
    hide Sound, Next, Fits, Serving, AsAsked;
    Served(divider, Next(divider, w, i), ins, i, if Continued(w, i) then 3 else 0);
  }

  /** The same for every request of every run from reset. */
  lemma TransactionFromReset(divider: nat, d: Data, before: seq<Inputs>, i: Inputs, ins: seq<Inputs>)
    requires divider >= 2
    ensures Sound(divider, Reset(d))
    ensures var w := Exec(divider, Reset(d), before);
            && w.l.bitCnt < 8
            && var t := Next(divider, w, i);
            && Sound(divider, t)
            && (Taken(w, i) ==> AsAsked(Phases(divider, t, ins), i, if Continued(w, i) then 3 else 0))
  {
    ResetIsSound(divider, d);
    assert Directed(Reset(d));
    hide Exec, Next, Sound, Directed, AsAsked, Taken, Continued;
    SoundInEveryRun(divider, Reset(d), before);
    DirectedInEveryRun(divider, Reset(d), before);
    var w := Exec(divider, Reset(d), before);
    BitCounter(divider, w);
    SoundTick(divider, w, i);
    if Taken(w, i) {
      Transaction(divider, w, i, ins);
    }
  }

  // ---------------------------------------------------------------------------------
  // Progress
  // ---------------------------------------------------------------------------------

  /** Clocks until the data clock rises next, when no slave holds SCL: the master itself stalls for
      one clock after releasing it. */
  function ToRise(divider: nat, c: Clocks): int {
    if c.count <= divider then divider - c.count
    else 5 * divider - c.count + if c.stretch || c.count < 2 * divider then 1 else 0
  }

  /** Rises until the byte of the request is over. */
  function RisesLeft(l: Line): int {
    match l.state
    case Start => 18
    case Command => l.bitCnt + 10
    case SlvAck1 => 9
    case Wr => l.bitCnt + 1
    case Rd => l.bitCnt + 1
    case _ => 0
  }

  /** A bound on the clocks until then. */
  function ClocksLeft(divider: nat, w: Watch): int {
    (RisesLeft(w.l) - 1) * (4 * divider + 1) + ToRise(divider, w.c) + 1
  }

  lemma ToRiseTick(divider: nat, w: Watch, i: Inputs)
    requires divider >= 2 && Timing(divider, w.c) && i.slaveScl
    ensures var c' := NextClocks(divider, w.c, Scl(w.c, w.l, i));
            && 0 <= ToRise(divider, w.c) && ToRise(divider, c') >= 0
            && (Rises(w.c) ==> ToRise(divider, w.c) == 0 && ToRise(divider, c') <= 4 * divider)
            && (!Rises(w.c) ==> ToRise(divider, c') <= ToRise(divider, w.c) - 1)
            && (w.l.sclEna ==>
                  && (Rises(w.c) ==> ToRise(divider, c') == 4 * divider)
                  && (!Rises(w.c) ==> ToRise(divider, c') == ToRise(divider, w.c) - 1))
  {
  }

  lemma RisesTick(divider: nat, w: Watch, i: Inputs, request: Inputs, k: nat)
    requires divider >= 2 && Sound(divider, w) && Serving(w, request, k)
    ensures var t := Next(divider, w, i);
            && RisesLeft(w.l) >= 1
            && (!Rises(w.c) ==> t.l.state == w.l.state && RisesLeft(t.l) == RisesLeft(w.l))
            && (Rises(w.c) && RisesLeft(w.l) > 1 ==> RisesLeft(t.l) == RisesLeft(w.l) - 1)
            && (t.l.state != w.l.state && k == 3 ==> RisesLeft(w.l) == 1)
            && (Rises(w.c) && RisesLeft(w.l) == 1 ==> k == 3 && t.l.state != w.l.state)
  {
    hide Timing, Bits, NextClocks;
  }

  lemma ClocksTick(n: int, cycle: int)
    ensures (n - 1) * cycle == n * cycle - cycle
  {
  }

  lemma NotNegative(n: int, cycle: int)
    requires cycle >= 1 && n >= 0
    ensures n * cycle >= 0
  {
  }

  lemma CountsDown(divider: nat, w: Watch, i: Inputs, request: Inputs, k: nat)
    requires divider >= 2 && Sound(divider, w) && Serving(w, request, k) && i.slaveScl
    ensures ClocksLeft(divider, w) >= 1
    ensures var t := Next(divider, w, i);
            t.l.state == w.l.state || k < 3 ==> ClocksLeft(divider, t) <= ClocksLeft(divider, w) - 1
  {
    ToRiseTick(divider, w, i);
    RisesTick(divider, w, i, request, k);
    var t := Next(divider, w, i);
    var cycle := 4 * divider + 1;
    NotNegative(RisesLeft(w.l) - 1, cycle);
    ClocksTick(RisesLeft(w.l) - 1, cycle);
    assert t.c == NextClocks(divider, w.c, Scl(w.c, w.l, i));
    hide Timing, Bits, NextClocks, NextLine, NextData, Next, ToRise, RisesLeft, Sound, Serving;
  }

  /** While no slave holds SCL low, the request has run through all of its phases within the bound,
      which from the start condition is 18 cycles of 4 * divider + 1 clocks. */
  lemma {:induction false} TransactionEnds(divider: nat, w: Watch, ins: seq<Inputs>, request: Inputs, k: nat)
    requires divider >= 2 && Sound(divider, w) && Serving(w, request, k)
    requires forall m :: 0 <= m < |ins| ==> ins[m].slaveScl
    requires |ins| >= ClocksLeft(divider, w)
    ensures k + |Phases(divider, w, ins)| >= 4
    decreases |ins|
  {
    hide *;
    NextRequired(divider, w, ins, request, k);
    var t := Next(divider, w, ins[0]);
    ServingTick(divider, w, ins[0], request, k);
    if t.l.state == w.l.state {
      TransactionEnds(divider, t, ins[1..], request, k);
    } else if k < 3 {
      TransactionEnds(divider, t, ins[1..], request, k + 1);
    }
  }

  lemma NextRequired(divider: nat, w: Watch, ins: seq<Inputs>, request: Inputs, k: nat)
    requires divider >= 2 && Sound(divider, w) && Serving(w, request, k)
    requires forall m :: 0 <= m < |ins| ==> ins[m].slaveScl
    requires |ins| >= ClocksLeft(divider, w)
    ensures |ins| >= 1 && w.l.bitCnt < 8 && k <= 3
    ensures var t := Next(divider, w, ins[0]);
            && Sound(divider, t)
            && (t.l.state == w.l.state || k < 3 ==> |ins| - 1 >= ClocksLeft(divider, t))
            && |Phases(divider, w, ins)| == (if t.l.state != w.l.state then 1 else 0) + |Phases(divider, t, ins[1..])|
    ensures forall m :: 0 <= m < |ins[1..]| ==> ins[1..][m].slaveScl
  {
    BitCounter(divider, w);
    RisesAtLeast(divider, w, request, k);
    SoundTick(divider, w, ins[0]);
    CountsDown(divider, w, ins[0], request, k);
    hide Sound, Next, Serving, ClocksLeft;
  }

  lemma RisesAtLeast(divider: nat, w: Watch, request: Inputs, k: nat)
    requires divider >= 2 && Sound(divider, w) && Serving(w, request, k)
    ensures ClocksLeft(divider, w) >= 1 && k <= 3
  {
    NotNegative(RisesLeft(w.l) - 1, 4 * divider + 1);
  }

  // ---------------------------------------------------------------------------------
  // Acknowledge error and busy
  // ---------------------------------------------------------------------------------

  function FlagsAfter(divider: nat, w: Watch, f: Flags, ins: seq<Inputs>): Flags
    requires divider >= 2 && Sound(divider, w)
    decreases |ins|
  {
    if ins == [] then f
    else
      SoundTick(divider, w, ins[0]);
      FlagsAfter(divider, Next(divider, w, ins[0]), NextFlags(w.c, w.l, f, ins[0]), ins[1..])
  }

  /** SDA was high in a slot in which the slave should have acknowledged. */
  predicate Refused(state: State, heard: seq<bool>) {
    (state == SlvAck1 || state == SlvAck2) && true in heard
  }

  ghost predicate RefusedIn(log: seq<Phase>) {
    exists m :: 0 <= m < |log| && Refused(log[m].state, log[m].heard)
  }

  /** ack_err knows of the refusals so far; `e` of those of earlier phases. */
  predicate ErrorKnown(w: Watch, f: Flags, e: bool) {
    && (f.ackErr <==> e || Refused(w.l.state, w.heard))
    && (w.l.state == Start && !w.l.sclEna ==> !e)
    && w.l.state != Ready
  }

  lemma ErrorTick(divider: nat, w: Watch, f: Flags, i: Inputs, e: bool)
    requires divider >= 2 && Sound(divider, w) && ErrorKnown(w, f, e)
    ensures var t := Next(divider, w, i);
            var e' := e || (t.l.state != w.l.state && Refused(w.l.state, w.heard));
            && (t.l.state != Ready ==> ErrorKnown(t, NextFlags(w.c, w.l, f, i), e'))
            && NextFlags(w.c, w.l, f, i).ackError == f.ackErr
            && (t.l.state == Ready ==> NextFlags(w.c, w.l, f, i).ackErr == f.ackErr)
  {
    TimingTick(divider, w.c, Scl(w.c, w.l, i));
    hide Timing, Bits, NextClocks, NextData;
  }

  /** The run does not return to `ready`. */
  predicate StaysBusy(divider: nat, w: Watch, ins: seq<Inputs>)
    requires divider >= 2 && Sound(divider, w)
    decreases |ins|
  {
    w.l.state != Ready && (ins == [] || (
      SoundTick(divider, w, ins[0]);
      StaysBusy(divider, Next(divider, w, ins[0]), ins[1..])))
  }

  lemma {:induction false} ErrorRun(divider: nat, w: Watch, f: Flags, ins: seq<Inputs>, e: bool)
    requires divider >= 2 && Sound(divider, w) && ErrorKnown(w, f, e) && StaysBusy(divider, w, ins)
    ensures var t := Exec(divider, w, ins);
            FlagsAfter(divider, w, f, ins).ackErr
            <==> e || RefusedIn(Phases(divider, w, ins)) || Refused(t.l.state, t.heard)
    decreases |ins|
  {
    hide Sound, Next, NextFlags, Refused;
    if ins != [] {
      BitCounter(divider, w);
      SoundTick(divider, w, ins[0]);
      ErrorTick(divider, w, f, ins[0], e);
      var t := Next(divider, w, ins[0]);
      var e' := e || (t.l.state != w.l.state && Refused(w.l.state, w.heard));
      ErrorRun(divider, t, NextFlags(w.c, w.l, f, ins[0]), ins[1..], e');
      var rest := Phases(divider, t, ins[1..]);
      if t.l.state != w.l.state {
        RefusedFirst(Phase(w.l.state, w.driven, w.offered, w.heard, t.d.dataRd), rest);
      } else {
        assert [] + rest == rest;
      }
    }
  }

  lemma RefusedFirst(ph: Phase, log: seq<Phase>)
    ensures RefusedIn([ph] + log) <==> Refused(ph.state, ph.heard) || RefusedIn(log)
  {
    hide Refused;
    if RefusedIn(log) {
      var m :| 0 <= m < |log| && Refused(log[m].state, log[m].heard);
      assert ([ph] + log)[m + 1] == log[m];
    }
    if Refused(ph.state, ph.heard) {
      assert ([ph] + log)[0] == ph;
    }
    if RefusedIn([ph] + log) {
      var m :| 0 <= m < |[ph] + log| && Refused(([ph] + log)[m].state, ([ph] + log)[m].heard);
      if m > 0 {
        assert ([ph] + log)[m] == log[m - 1];
      }
    }
  }

  lemma TakenClears(divider: nat, w: Watch, f: Flags, i: Inputs)
    requires divider >= 2 && Sound(divider, w) && w.l.state == Ready && Taken(w, i)
    ensures ErrorKnown(Next(divider, w, i), NextFlags(w.c, w.l, f, i), false)
    ensures NextFlags(w.c, w.l, f, i).busy
  {
    TimingTick(divider, w.c, Scl(w.c, w.l, i));
    hide Timing, Bits, NextClocks, NextData;
  }

  /** From a request taken in `ready` until the master is ready again: ack_err is set exactly when an
      acknowledge slot heard SDA high, and ack_error shows it one clock later. */
  lemma AckErrorTells(divider: nat, w: Watch, f: Flags, i: Inputs, ins: seq<Inputs>)
    requires divider >= 2 && Sound(divider, w) && w.l.state == Ready && Taken(w, i)
    requires Sound(divider, Next(divider, w, i)) && StaysBusy(divider, Next(divider, w, i), ins)
    ensures var t := Next(divider, w, i);
            var last := Exec(divider, t, ins);
            FlagsAfter(divider, t, NextFlags(w.c, w.l, f, i), ins).ackErr
            <==> RefusedIn(Phases(divider, t, ins)) || Refused(last.l.state, last.heard)
  {
    TakenClears(divider, w, f, i);
    hide Sound, Next, NextFlags, Refused, ErrorKnown, RefusedIn;
    ErrorRun(divider, Next(divider, w, i), NextFlags(w.c, w.l, f, i), ins, false);
  }

  /** When the master says that it is busy. */
  predicate BusyShown(w: Watch, f: Flags) {
    match w.l.state
    case Ready => true
    case Start => true
    case Wr => w.l.bitCnt < 7 ==> f.busy
    case Rd => w.l.bitCnt < 7 ==> f.busy
    case _ => f.busy
  }

  /** busy is high from the address to the last bit of every byte, with its acknowledge, and while
      stopping; it is low for the first bit of a byte that continues the transfer, and in `ready`
      from the first rise of the data clock without a request. */
  lemma BusyTick(divider: nat, w: Watch, f: Flags, i: Inputs)
    requires divider >= 2 && Sound(divider, w) && BusyShown(w, f)
    ensures var t, g := Next(divider, w, i), NextFlags(w.c, w.l, f, i);
            && BusyShown(t, g)
            && (Taken(w, i) ==> (g.busy <==> w.l.state == Ready))
            && (w.l.state == Ready && Rises(w.c) && !i.ena ==> !g.busy)
            && (w.l.state == Stop && t.l.state == Ready ==> !g.busy)
            && (!Rises(w.c) ==> g.busy == f.busy)
  {
    TimingTick(divider, w.c, Scl(w.c, w.l, i));
    hide Timing, Bits, NextClocks, NextData;
  }
}
