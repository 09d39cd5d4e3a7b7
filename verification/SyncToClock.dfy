/** The clock-domain crossing of hdl/SyncToClock.vhd: a vector is latched in the domain of
    Clock1, announced by toggling one flip-flop, and captured in the domain of Clock2.

    `Regs` and `Next` say what one clock edge does to the registers; the class `SyncVector`
    is the entity itself.  The lemmas are about arbitrary interleavings of the two clocks. */
module SyncToClock {

  /** The registers of sync_Vector.  `sync2` and `sync1` are the two sync_Bits instances:
      element 0 is Data_meta, the last element is the synchroniser's Output. */
  datatype Regs<V> = Regs(d0: V, t1: bool, d2: bool, d3: bool, d4: V,
                          sync2: seq<bool>, sync1: seq<bool>)

  /** What can happen next: an edge of one clock, or of both at the same instant. */
  datatype Edge<V> = Clock1(input: V) | Clock2 | Both(input: V)

  function Last<T>(s: seq<T>): T
    requires s != []
  {
    s[|s| - 1]
  }

  predicate Wf<V>(s: Regs<V>) {
    |s.sync1| == |s.sync2| >= 2
  }

  function Depth<V>(s: Regs<V>): nat {
    |s.sync2|
  }

  predicate Busy<V>(s: Regs<V>)
    requires Wf(s)
  {
    s.t1 != Last(s.sync1)
  }

  predicate ChangedClk2<V>(s: Regs<V>)
    requires Wf(s)
  {
    Last(s.sync2) != s.d2
  }

  /** One clock of a sync_Bits chain. */
  function Shift(chain: seq<bool>, input: bool): seq<bool>
    requires chain != []
  {
    [input] + chain[..|chain| - 1]
  }

  function OnClock1<V(==)>(s: Regs<V>, input: V): Regs<V>
    requires Wf(s)
  {
    var r := s.(sync1 := Shift(s.sync1, s.d2));
    if Busy(s) then r else r.(d0 := input, t1 := (s.t1 != (s.d0 != input)))
  }

  function OnClock2<V>(s: Regs<V>): Regs<V>
    requires Wf(s)
  {
    s.(sync2 := Shift(s.sync2, s.t1),
       d2 := Last(s.sync2),
       d3 := ChangedClk2(s),
       d4 := if ChangedClk2(s) then s.d0 else s.d4)
  }

  /** All registers of both domains read their old values, also when the edges coincide. */
  function Next<V(==)>(s: Regs<V>, e: Edge<V>): (r: Regs<V>)
    requires Wf(s)
    ensures Wf(r) && Depth(r) == Depth(s)
  {
    match e
    case Clock1(input) => OnClock1(s, input)
    case Clock2 => OnClock2(s)
    case Both(input) =>
      var a, b := OnClock1(s, input), OnClock2(s);
      Regs(a.d0, a.t1, b.d2, b.d3, b.d4, b.sync2, a.sync1)
  }

  function Initial<V>(depth: nat, init: V): (r: Regs<V>)
    requires depth >= 2
    ensures Wf(r) && Depth(r) == depth
  {
    var zeros := seq(depth, _ => false);
    Regs(init, false, false, false, init, zeros, zeros)
  }

  // ---------------------------------------------------------------------------------
  // The entity
  // ---------------------------------------------------------------------------------

  class SyncVector<V(==)> {
    var d0: V
    var t1: bool
    var d2: bool
    var d3: bool
    var d4: V
    var sync2: seq<bool>
    var sync1: seq<bool>

    ghost function Registers(): Regs<V>
      reads this
    {
      Regs(d0, t1, d2, d3, d4, sync2, sync1)
    }

    constructor (depth: nat, init: V)
      requires depth >= 2
      ensures Registers() == Initial(depth, init)
    {
      d0, t1, d2, d3, d4 := init, false, false, false, init;
      sync2 := seq(depth, _ => false);
      sync1 := seq(depth, _ => false);
    }

    method RisingClock1(input: V)
      requires Wf(Registers())
      modifies this`d0, this`t1, this`sync1
      ensures Registers() == Next(old(Registers()), Clock1(input))
    {
      var busy := t1 != sync1[|sync1| - 1];
      sync1 := [d2] + sync1[..|sync1| - 1];
      if !busy {
        t1, d0 := t1 != (d0 != input), input;
      }
    }

    method RisingClock2()
      requires Wf(Registers())
      modifies this`d2, this`d3, this`d4, this`sync2
      ensures Registers() == Next(old(Registers()), Clock2)
    {
      var changed := sync2[|sync2| - 1] != d2;
      d2, d3, sync2 := sync2[|sync2| - 1], changed, [t1] + sync2[..|sync2| - 1];
      if changed {
        d4 := d0;
      }
    }

    method RisingBoth(input: V)
      requires Wf(Registers())
      modifies this
      ensures Registers() == Next(old(Registers()), Both(input))
    {
      var busy, changed := t1 != sync1[|sync1| - 1], sync2[|sync2| - 1] != d2;
      sync1, sync2 := [d2] + sync1[..|sync1| - 1], [t1] + sync2[..|sync2| - 1];
      d2, d3 := changed != d2, changed;
      if changed {
        d4 := d0;
      }
      if !busy {
        t1, d0 := t1 != (d0 != input), input;
      }
    }
  }

  // ---------------------------------------------------------------------------------
  // Runs
  // ---------------------------------------------------------------------------------

  function Exec<V(==)>(s: Regs<V>, es: seq<Edge<V>>): (r: Regs<V>)
    requires Wf(s)
    ensures Wf(r) && Depth(r) == Depth(s)
    decreases |es|
  {
    if es == [] then s else Exec(Next(s, es[0]), es[1..])
  }

  /** The values announced on this edge: Input, whenever it is latched with a toggle of T1. */
  function SentOn<V(==)>(s: Regs<V>, e: Edge<V>): seq<V>
    requires Wf(s)
  {
    if e != Clock2 && Next(s, e).t1 != s.t1 then [e.input] else []
  }

  /** What the reader sees on this edge: Output, whenever Changed is raised by Clock2. */
  function CapturedOn<V(==)>(s: Regs<V>, e: Edge<V>): seq<V>
    requires Wf(s)
  {
    if !e.Clock1? && Next(s, e).d3 then [Next(s, e).d4] else []
  }

  function Sent<V(==)>(s: Regs<V>, es: seq<Edge<V>>): seq<V>
    requires Wf(s)
    decreases |es|
  {
    if es == [] then [] else SentOn(s, es[0]) + Sent(Next(s, es[0]), es[1..])
  }

  function Captured<V(==)>(s: Regs<V>, es: seq<Edge<V>>): seq<V>
    requires Wf(s)
    decreases |es|
  {
    if es == [] then [] else CapturedOn(s, es[0]) + Captured(Next(s, es[0]), es[1..])
  }

  function Count1<V>(es: seq<Edge<V>>): nat {
    if es == [] then 0 else (if es[0].Clock2? then 0 else 1) + Count1(es[1..])
  }

  function Count2<V>(es: seq<Edge<V>>): nat {
    if es == [] then 0 else (if es[0].Clock1? then 0 else 1) + Count2(es[1..])
  }

  lemma {:induction false} RunsConcatenate<V>(s: Regs<V>, es: seq<Edge<V>>, fs: seq<Edge<V>>)
    requires Wf(s)
    ensures Exec(s, es + fs) == Exec(Exec(s, es), fs)
    ensures Captured(s, es + fs) == Captured(s, es) + Captured(Exec(s, es), fs)
    decreases |es|
  {
    if es == [] {
      assert es + fs == fs;
    } else {
      assert (es + fs)[1..] == es[1..] + fs;
      RunsConcatenate(Next(s, es[0]), es[1..], fs);
    }
  }

  // ---------------------------------------------------------------------------------
  // The ring T1 -> sync2 -> D2 -> sync1
  // ---------------------------------------------------------------------------------

  function Ring<V>(s: Regs<V>): seq<bool> {
    [s.t1] + s.sync2 + [s.d2] + s.sync1
  }

  ghost predicate BoundaryAfter(ring: seq<bool>, i: int) {
    0 <= i < |ring| - 1 && ring[i] != ring[i + 1]
  }

  /** The ring holds the value of T1 up to position p and its negation after it.
      The last position, 2 * Depth + 1, means that all flip-flops agree. */
  ghost predicate At<V>(s: Regs<V>, p: int) {
    && Wf(s)
    && 0 <= p <= 2 * Depth(s) + 1
    && (forall i :: 0 <= i < Depth(s) ==> (s.sync2[i] == s.t1) == (i + 1 <= p))
    && (s.d2 == s.t1) == (Depth(s) + 1 <= p)
    && (forall i :: 0 <= i < Depth(s) ==> (s.sync1[i] == s.t1) == (Depth(s) + 2 + i <= p))
  }

  lemma AtMostOneBoundary<V>(s: Regs<V>, p: int)
    requires At(s, p)
    ensures forall i :: BoundaryAfter(Ring(s), i) <==> i == p && p < |Ring(s)| - 1
  {
    var n, ring := Depth(s), Ring(s);
    assert forall i :: 0 <= i < n ==> ring[i + 1] == s.sync2[i];
    assert forall i :: 0 <= i < n ==> ring[n + 2 + i] == s.sync1[i];
    forall k | 0 <= k < |ring| ensures (ring[k] == s.t1) == (k <= p) {
      if 1 <= k <= n {
        assert ring[k] == s.sync2[k - 1];
      } else if k >= n + 2 {
        assert ring[k] == s.sync1[k - n - 2];
      }
    }
  }

  /** Where the boundary moves: Clock2 carries it up to D2, Clock1 from there to the end of
      the ring, and only a toggle starts it again at the front. */
  function Move<V(==)>(s: Regs<V>, p: int, e: Edge<V>): int
    requires Wf(s)
  {
    var n := Depth(s);
    if p == 2 * n + 1 then
      if !e.Clock2? && e.input != s.d0 then 0 else p
    else if p <= n then
      if e.Clock1? then p else p + 1
    else
      if e.Clock2? then p else p + 1
  }

  lemma BoundaryMoves<V>(s: Regs<V>, p: int, e: Edge<V>)
    requires At(s, p)
    ensures At(Next(s, e), Move(s, p, e))
    ensures Busy(s) <==> p < 2 * Depth(s) + 1
    ensures ChangedClk2(s) <==> p == Depth(s)
  {
    var n := Depth(s);
    assert Last(s.sync1) == s.sync1[n - 1] && Last(s.sync2) == s.sync2[n - 1];
    if !e.Clock2? {
      Shifted(s.sync1, s.d2);
    }
    if !e.Clock1? {
      Shifted(s.sync2, s.t1);
    }
  }

  lemma Shifted(chain: seq<bool>, input: bool)
    requires chain != []
    ensures var r := Shift(chain, input);
            |r| == |chain| && forall i :: 0 <= i < |r| ==> r[i] == if i == 0 then input else chain[i - 1]
  {
  }

  /** In every run from power-up the ring has at most one boundary. */
  lemma {:induction false} RunKeepsRing<V>(s: Regs<V>, p: int, es: seq<Edge<V>>) returns (q: int)
    requires At(s, p)
    ensures At(Exec(s, es), q)
    decreases |es|
  {
    if es == [] {
      q := p;
    } else {
      BoundaryMoves(s, p, es[0]);
      q := RunKeepsRing(Next(s, es[0]), Move(s, p, es[0]), es[1..]);
    }
  }

  lemma RingInEveryRun<V>(depth: nat, init: V, es: seq<Edge<V>>)
    requires depth >= 2
    ensures var ring := Ring(Exec(Initial(depth, init), es));
            forall i, j :: BoundaryAfter(ring, i) && BoundaryAfter(ring, j) ==> i == j
  {
    var s := Initial(depth, init);
    var p := RunKeepsRing(s, 2 * depth + 1, es);
    AtMostOneBoundary(Exec(s, es), p);
  }

  // ---------------------------------------------------------------------------------
  // Delivery: nothing is lost, repeated, reordered or torn
  // ---------------------------------------------------------------------------------

  /** The value on its way: announced by T1, not yet acknowledged by D2. */
  function InFlight<V>(s: Regs<V>): seq<V> {
    if s.d2 != s.t1 then [s.d0] else []
  }

  lemma StepConserves<V>(s: Regs<V>, p: int, e: Edge<V>)
    requires At(s, p)
    ensures InFlight(s) + SentOn(s, e) == CapturedOn(s, e) + InFlight(Next(s, e))
    ensures Next(s, e).d4 == Last([s.d4] + CapturedOn(s, e))
  {
    BoundaryMoves(s, p, e);
  }

  lemma Regroup<T>(i: seq<T>, s: seq<T>, s': seq<T>, c: seq<T>, m: seq<T>, c': seq<T>, f: seq<T>)
    requires i + s == c + m && m + s' == c' + f
    ensures i + (s + s') == (c + c') + f
  {
    assert i + (s + s') == (i + s) + s' == c + (m + s');
    assert c + (c' + f) == (c + c') + f;
  }

  /** What is in flight plus what is sent equals what is captured plus what is in flight
      afterwards, as sequences. */
  lemma {:induction false} Conservation<V>(s: Regs<V>, p: int, es: seq<Edge<V>>)
    requires At(s, p)
    ensures InFlight(s) + Sent(s, es) == Captured(s, es) + InFlight(Exec(s, es))
    decreases |es|
  {
    hide At, Next, InFlight, SentOn, CapturedOn, Move;
    RingIsWf(s, p);
    if es == [] {
      assert InFlight(s) + [] == [] + InFlight(s);
    } else {
      var e, r := es[0], Next(s, es[0]);
      BoundaryMoves(s, p, e);
      StepConserves(s, p, e);
      Conservation(r, Move(s, p, e), es[1..]);
      Regroup(InFlight(s), SentOn(s, e), Sent(r, es[1..]), CapturedOn(s, e), InFlight(r),
              Captured(r, es[1..]), InFlight(Exec(s, es)));
    }
  }

  lemma RingIsWf<V>(s: Regs<V>, p: int)
    requires At(s, p)
    ensures Wf(s)
  {
  }

  /** Output is the value captured last. */
  lemma {:induction false} LastCaptured<V>(s: Regs<V>, p: int, es: seq<Edge<V>>)
    requires At(s, p)
    ensures Exec(s, es).d4 == Last([s.d4] + Captured(s, es))
    decreases |es|
  {
    hide At, Next, CapturedOn, Move;
    RingIsWf(s, p);
    if es != [] {
      var e, r := es[0], Next(s, es[0]);
      BoundaryMoves(s, p, e);
      StepConserves(s, p, e);
      LastCaptured(r, Move(s, p, e), es[1..]);
    }
  }

  /** From power-up: the captured values are the sent ones, in order and once each, except for
      at most one that is still in flight; Output shows the latest captured value. */
  lemma Delivery<V>(depth: nat, init: V, es: seq<Edge<V>>)
    requires depth >= 2
    ensures var s := Initial(depth, init);
            && Sent(s, es) == Captured(s, es) + InFlight(Exec(s, es))
            && Exec(s, es).d4 == Last([init] + Captured(s, es))
  {
    var s := Initial(depth, init);
    Conservation(s, 2 * depth + 1, es);
    LastCaptured(s, 2 * depth + 1, es);
    assert InFlight(s) + Sent(s, es) == Sent(s, es);
  }

  // ---------------------------------------------------------------------------------
  // Timing of one handshake
  // ---------------------------------------------------------------------------------

  lemma {:induction false} Travel2<V>(s: Regs<V>, p: int, es: seq<Edge<V>>)
    requires At(s, p) && p + Count2(es) <= Depth(s)
    ensures At(Exec(s, es), p + Count2(es))
    ensures Captured(s, es) == [] && Exec(s, es).d0 == s.d0 && Busy(Exec(s, es))
    decreases |es|
  {
    if es == [] {
      BoundaryMoves(s, p, Clock2);
    } else {
      BoundaryMoves(s, p, es[0]);
      Travel2(Next(s, es[0]), Move(s, p, es[0]), es[1..]);
    }
  }

  lemma {:induction false} Travel1<V>(s: Regs<V>, p: int, es: seq<Edge<V>>)
    requires At(s, p) && Depth(s) < p && p + Count1(es) <= 2 * Depth(s) + 1
    requires es != [] ==> Count1(es[..|es| - 1]) + p < 2 * Depth(s) + 1
    ensures At(Exec(s, es), p + Count1(es))
    ensures Captured(s, es) == [] && Exec(s, es).d0 == s.d0 && Exec(s, es).d4 == s.d4
    decreases |es|
  {
    if es == [] {
    } else {
      BoundaryMoves(s, p, es[0]);
      if |es| > 1 {
        assert es[..|es| - 1][1..] == es[1..][..|es| - 2];
      }
      Travel1(Next(s, es[0]), Move(s, p, es[0]), es[1..]);
    }
  }

  lemma CaptureOnHit<V>(s: Regs<V>, wait: seq<Edge<V>>, hit: Edge<V>)
    requires At(s, 0) && Count2(wait) == Depth(s) && !hit.Clock1?
    ensures Captured(s, wait) == [] && Busy(Exec(s, wait))
    ensures Captured(s, wait + [hit]) == [s.d0]
    ensures At(Exec(s, wait + [hit]), Depth(s) + 1)
    ensures Exec(s, wait + [hit]).d4 == Exec(s, wait + [hit]).d0 == s.d0
  {
    Travel2(s, 0, wait);
    var a := Exec(s, wait);
    RunsConcatenate(s, wait, [hit]);
    BoundaryMoves(a, Depth(s), hit);
    assert Exec(a, [hit]) == Next(a, hit) by {
      assert [hit][1..] == [];
    }
    assert Captured(a, [hit]) == CapturedOn(a, hit) + [];
  }

  lemma ReleaseAfterBack<V>(s: Regs<V>, back: seq<Edge<V>>, k: nat)
    requires At(s, Depth(s) + 1)
    requires back != [] && Count1(back) == Depth(s) && !Last(back).Clock2? && k <= |back|
    ensures Busy(Exec(s, back[..k])) <==> k < |back|
    ensures Exec(s, back[..k]).d4 == s.d4
  {
    var n := Depth(s);
    CountOfPrefixes(back, k);
    if 0 < k {
      CountOfPrefixes(back, k - 1);
      assert back[..k][..k - 1] == back[..k - 1];
    }
    assert back[..|back|] == back;
    Travel1(s, n + 1, back[..k]);
    BoundaryMoves(Exec(s, back[..k]), n + 1 + Count1(back[..k]), Clock2);
  }

  /** A toggle finds every flip-flop of the ring in agreement and starts the boundary. */
  lemma ToggleStarts<V>(s: Regs<V>, p: int, e: Edge<V>)
    requires At(s, p) && SentOn(s, e) != []
    ensures At(Next(s, e), 0) && SentOn(s, e) == [Next(s, e).d0] && !Busy(s)
  {
    BoundaryMoves(s, p, e);
  }

  /** With N = Depth, after an edge that sends a value: during any `wait` with N edges of Clock2
      the reader sees nothing and the writer is held off; the next edge of Clock2, the (N+1)-th,
      captures the value; and Busy falls with the N-th edge of Clock1 after that, no earlier. */
  lemma HandshakeTiming<V>(before: Regs<V>, p: int, toggle: Edge<V>,
                           wait: seq<Edge<V>>, hit: Edge<V>, back: seq<Edge<V>>, k: nat)
    requires At(before, p) && SentOn(before, toggle) != []
    requires Count2(wait) == Depth(before) && !hit.Clock1?
    requires back != [] && Count1(back) == Depth(before) && !Last(back).Clock2? && k <= |back|
    ensures var s := Next(before, toggle);
            && Captured(s, wait) == [] && Busy(Exec(s, wait))
            && Captured(s, wait + [hit]) == SentOn(before, toggle)
            && (Busy(Exec(s, wait + [hit] + back[..k])) <==> k < |back|)
            && [Exec(s, wait + [hit] + back[..k]).d4] == SentOn(before, toggle)
  {
    ToggleStarts(before, p, toggle);
    hide Next;
    var s := Next(before, toggle);
    CaptureOnHit(s, wait, hit);
    ReleaseAfterBack(Exec(s, wait + [hit]), back, k);
    RunsConcatenate(s, wait + [hit], back[..k]);
  }

  lemma {:induction false} CountOfPrefixes<V>(es: seq<Edge<V>>, k: nat)
    requires k <= |es| && es != [] && !Last(es).Clock2?
    ensures Count1(es[..k]) <= Count1(es)
    ensures k < |es| <==> Count1(es[..k]) < Count1(es)
    decreases k
  {
    if k == 0 {
      LastEdgeCounts(es);
    } else {
      assert es[..k][1..] == es[1..][..k - 1];
      if |es| > 1 {
        CountOfPrefixes(es[1..], k - 1);
      }
    }
  }

  lemma {:induction false} LastEdgeCounts<V>(es: seq<Edge<V>>)
    requires es != [] && !Last(es).Clock2?
    ensures Count1(es) > 0
  {
    if |es| > 1 {
      LastEdgeCounts(es[1..]);
    }
  }

  // ---------------------------------------------------------------------------------
  // Convergence under a constant input
  // ---------------------------------------------------------------------------------

  ghost predicate Constant<V>(es: seq<Edge<V>>, x: V) {
    forall i :: 0 <= i < |es| && !es[i].Clock2? ==> es[i].input == x
  }

  /** Edges still needed until Output shows x, through the handshake under way and, when that
      one carries another value, the one after it. */
  function Remaining<V(==)>(s: Regs<V>, p: int, x: V): int {
    var n := Depth(s);
    if s.d0 != x then 3 * n + 3 - p
    else if p <= n then n + 1 - p
    else 0
  }

  /** Under a constant input no edge adds to what remains, and the clock that has the boundary
      in its domain takes something off. */
  lemma {:induction false} Approach<V>(s: Regs<V>, p: int, es: seq<Edge<V>>, x: V) returns (q: int)
    requires At(s, p) && Constant(es, x)
    requires s.d0 == x && p > Depth(s) ==> s.d4 == x
    ensures At(Exec(s, es), q)
    ensures Exec(s, es).d0 == x && q > Depth(s) ==> Exec(s, es).d4 == x
    ensures Remaining(Exec(s, es), q, x) <= Remaining(s, p, x)
    ensures Remaining(s, p, x) > 0 && (if p <= Depth(s) then Count2(es) > 0 else Count1(es) > 0)
            ==> Remaining(Exec(s, es), q, x) < Remaining(s, p, x)
    decreases |es|
  {
    if es == [] {
      q := p;
    } else {
      ApproachEdge(s, p, es[0], x);
      hide Next, Move, Remaining;
      q := Approach(Next(s, es[0]), Move(s, p, es[0]), es[1..], x);
    }
  }

  lemma ApproachEdge<V>(s: Regs<V>, p: int, e: Edge<V>, x: V)
    requires At(s, p) && (!e.Clock2? ==> e.input == x)
    requires s.d0 == x && p > Depth(s) ==> s.d4 == x
    ensures var r, m := Next(s, e), Move(s, p, e);
            && At(r, m)
            && (r.d0 == x && m > Depth(r) ==> r.d4 == x)
            && Remaining(r, m, x) <= Remaining(s, p, x)
            && (Remaining(s, p, x) > 0 && (if p <= Depth(s) then !e.Clock1? else !e.Clock2?)
                ==> Remaining(r, m, x) < Remaining(s, p, x))
            && (Remaining(r, m, x) == Remaining(s, p, x) > 0 ==> m == p)
  {
    BoundaryMoves(s, p, e);
  }

  function Flatten<T>(rounds: seq<seq<T>>): seq<T> {
    if rounds == [] then [] else rounds[0] + Flatten(rounds[1..])
  }

  lemma {:induction false} Rounds<V>(s: Regs<V>, p: int, rounds: seq<seq<Edge<V>>>, x: V) returns (q: int)
    requires At(s, p)
    requires s.d0 == x && p > Depth(s) ==> s.d4 == x
    requires forall es :: es in rounds ==> Constant(es, x) && Count1(es) > 0 && Count2(es) > 0
    ensures At(Exec(s, Flatten(rounds)), q)
    ensures var r := Exec(s, Flatten(rounds));
            && (r.d0 == x && q > Depth(s) ==> r.d4 == x)
            && (Remaining(r, q, x) == 0 || Remaining(r, q, x) + |rounds| <= Remaining(s, p, x))
    decreases |rounds|
  {
    if rounds == [] {
      q := p;
    } else {
      var m := Approach(s, p, rounds[0], x);
      var r := Exec(s, rounds[0]);
      q := Rounds(r, m, rounds[1..], x);
      RunsConcatenate(s, rounds[0], Flatten(rounds[1..]));
    }
  }

  /** From any reachable state: hold Input at x for 3 * Depth + 3 rounds, a round being any
      stretch of the run with at least one edge of each clock; Output is then x. */
  lemma Convergence<V>(depth: nat, init: V, es: seq<Edge<V>>, rounds: seq<seq<Edge<V>>>, x: V)
    requires depth >= 2
    requires forall r :: r in rounds ==> Constant(r, x) && Count1(r) > 0 && Count2(r) > 0
    requires |rounds| >= 3 * depth + 3
    ensures Exec(Initial(depth, init), es + Flatten(rounds)).d4 == x
  {
    var p := OutputFollows(depth, init, es);
    var s := Exec(Initial(depth, init), es);
    var q := Rounds(s, p, rounds, x);
    RunsConcatenate(Initial(depth, init), es, Flatten(rounds));
  }

  /** In every reachable state in which nothing is in flight, Output is D0. */
  lemma OutputFollows<V>(depth: nat, init: V, es: seq<Edge<V>>) returns (p: int)
    requires depth >= 2
    ensures At(Exec(Initial(depth, init), es), p)
    ensures p > depth ==> Exec(Initial(depth, init), es).d4 == Exec(Initial(depth, init), es).d0
  {
    p := Follow(Initial(depth, init), 2 * depth + 1, es);
  }

  lemma {:induction false} Follow<V>(s: Regs<V>, p: int, es: seq<Edge<V>>) returns (q: int)
    requires At(s, p) && (p > Depth(s) ==> s.d4 == s.d0)
    ensures At(Exec(s, es), q) && (q > Depth(s) ==> Exec(s, es).d4 == Exec(s, es).d0)
    decreases |es|
  {
    if es == [] {
      q := p;
    } else {
      BoundaryMoves(s, p, es[0]);
      q := Follow(Next(s, es[0]), Move(s, p, es[0]), es[1..]);
    }
  }
}
