/** Drivers are constructed on demand: a constructor asks the manager for the drivers it depends
    on, which constructs those first (drivers_manager.cpp, drivers_manager.hpp). */
module DriversManager {
  import opened Sequences

  /** deps[d] lists the drivers that the constructor of d asks for, in order. */
  type Graph = g: seq<seq<nat>> | forall d, i :: 0 <= d < |g| && 0 <= i < |g[d]| ==> g[d][i] < |g|

  ghost predicate Walk(deps: Graph, w: seq<nat>) {
    && w != [] && (forall i :: 0 <= i < |w| ==> w[i] < |deps|)
    && forall i :: 0 <= i < |w| - 1 ==> w[i + 1] in deps[w[i]]
  }

  ghost predicate Outside(w: seq<nat>, started: seq<nat>) {
    forall i :: 0 <= i < |w| ==> w[i] !in started
  }

  /** A cycle of drivers that are not started yet can be reached from `root`. */
  ghost predicate CycleReachable(deps: Graph, started: seq<nat>, root: nat) {
    exists w: seq<nat> :: Walk(deps, w) && w[0] == root && Outside(w, started) && !Distinct(w)
  }

  /** Every driver comes after all the drivers that its constructor asks for. */
  ghost predicate Topological(deps: Graph, log: seq<nat>) {
    forall k, i :: 0 <= k < |log| && log[k] < |deps| && 0 <= i < |deps[log[k]]| ==> deps[log[k]][i] in log[..k]
  }

  /** The flags say which of n drivers are constructed and which are under construction. */
  ghost predicate Marks(n: nat, starting: seq<bool>, started: seq<bool>, constructed: seq<nat>, stack: seq<nat>) {
    && |starting| == |started| == n
    && (forall d :: d in constructed || d in stack ==> d < n)
    && (forall d :: 0 <= d < n ==> (started[d] <==> d in constructed) && (starting[d] <==> d in stack))
  }

  /** Nothing is constructed twice, and without exit_all everything is after its dependencies. */
  ghost predicate Consistent(deps: Graph, starting: seq<bool>, started: seq<bool>, constructed: seq<nat>,
                             stack: seq<nat>, exitAll: bool)
  {
    && Marks(|deps|, starting, started, constructed, stack)
    && Distinct(constructed) && Distinct(stack) && (forall d :: d in stack ==> d !in constructed)
    && (!exitAll ==> Topological(deps, constructed))
  }

  class DriverManager {
    const deps: Graph
    /** The drivers constructed so far, in the order in which their constructors returned. */
    var constructed: seq<nat>
    var isStarting: seq<bool>
    var containerStarted: seq<bool>
    var isStarted: seq<bool>
    var exitAll: bool
    /** The constructors that are running, outermost first. */
    ghost var stack: seq<nat>

    constructor (deps: Graph)
      ensures Valid() && this.deps == deps && constructed == [] && stack == [] && !exitAll
    {
      this.deps := deps;
      constructed, stack, exitAll := [], [], false;
      isStarting := seq(|deps|, _ => false);
      containerStarted := seq(|deps|, _ => false);
      isStarted := seq(|deps|, _ => false);
    }

    /** Everything but the manager's own flags. */
    ghost predicate Inner()
      reads this
    {
      |isStarted| == |deps| && Consistent(deps, isStarting, containerStarted, constructed, stack, exitAll)
    }

    ghost predicate Valid()
      reads this
    {
      Inner() && isStarted == containerStarted
    }

    /** The running constructors lead from `root` to a request for d. */
    ghost predicate Requested(root: nat, base: nat, d: nat)
      reads this
    {
      && base <= |constructed| && d < |deps|
      && Walk(deps, stack + [d]) && (stack + [d])[0] == root
    }

    /** How many drivers are neither constructed nor under construction. */
    ghost function Free(): int
      reads this
    {
      |deps| - |constructed| - |stack|
    }

    /** get<driver>; `valid` says whether the reference it returns is one to a constructed driver. */
    method Get(d: nat, ghost root: nat, ghost base: nat) returns (valid: bool)
      requires Valid() && Requested(root, base, d)
      modifies this
      ensures Valid() && stack == old(stack) && old(constructed) <= constructed
      ensures d in constructed || d in stack
      ensures valid <==> d in constructed
      ensures !exitAll ==> valid
      ensures old(exitAll) ==> exitAll
      ensures exitAll && !old(exitAll) ==> CycleReachable(deps, old(constructed)[..base], root)
      decreases Free(), 2
    {
      if !isStarted[d] {
        AllocDriver(d, root, base);
      }
      return containerStarted[d];
    }

    method AllocDriver(d: nat, ghost root: nat, ghost base: nat)
      requires Valid() && Requested(root, base, d)
      modifies this
      ensures Valid() && stack == old(stack) && old(constructed) <= constructed
      ensures d in constructed || d in stack
      ensures !exitAll ==> d in constructed
      ensures old(exitAll) ==> exitAll
      ensures exitAll && !old(exitAll) ==> CycleReachable(deps, old(constructed)[..base], root)
      decreases Free(), 1
    {
      if isStarted[d] {
        return;
      }
      var err := Alloc(d, root, base);
      if err < 0 {
        exitAll := true;
        return;
      }
      isStarted := isStarted[d := true];
    }

    /** DriverContainer::alloc */
    method Alloc(d: nat, ghost root: nat, ghost base: nat) returns (err: int)
      requires Valid() && Requested(root, base, d)
      modifies this
      ensures Inner() && stack == old(stack) && old(constructed) <= constructed
      ensures err == if d in stack then -1 else 0
      ensures err == 0 ==> d in constructed && isStarted[d := true] == containerStarted
      ensures err < 0 ==> Valid() && constructed == old(constructed) && exitAll == old(exitAll)
                          && CycleReachable(deps, constructed[..base], root)
      ensures old(exitAll) ==> exitAll
      ensures exitAll && !old(exitAll) ==> CycleReachable(deps, old(constructed)[..base], root)
      decreases Free(), 0
    {
      if containerStarted[d] {
        return 0;
      }
      if isStarting[d] {
        Closes(deps, stack, d, constructed[..base]);
        return -1;
      }
      hide Walk, Distinct, Outside, Topological, CycleReachable, Consistent;
      Begun(deps, isStarting, containerStarted, constructed, stack, exitAll, d);
      isStarting := isStarting[d := true];
      stack := stack + [d];
      Construct(d, root, base);
      Finished(deps, isStarting, containerStarted, constructed, old(stack), exitAll, d);
      isStarting := isStarting[d := false];
      stack := stack[..|stack| - 1];
      containerStarted := containerStarted[d := true];
      constructed := constructed + [d];
      return 0;
    }

    /** The driver's constructor, as far as the manager can tell: it asks for its dependencies. */
    method Construct(d: nat, ghost root: nat, ghost base: nat)
      requires Valid() && stack != [] && stack[|stack| - 1] == d && base <= |constructed|
      requires Walk(deps, stack) && stack[0] == root
      modifies this
      ensures Valid() && stack == old(stack) && old(constructed) <= constructed
      ensures !exitAll ==> forall i :: 0 <= i < |deps[d]| ==> deps[d][i] in constructed
      ensures old(exitAll) ==> exitAll
      ensures exitAll && !old(exitAll) ==> CycleReachable(deps, old(constructed)[..base], root)
      decreases Free(), 3
    {
      NoMoreThan(constructed, stack, |deps|);
      for i := 0 to |deps[d]|
        invariant Valid() && stack == old(stack) && old(constructed) <= constructed
        invariant !exitAll ==> forall k :: 0 <= k < i ==> deps[d][k] in constructed
        invariant old(exitAll) ==> exitAll
        invariant exitAll && !old(exitAll) ==> CycleReachable(deps, old(constructed)[..base], root)
      {
        var _ := Get(deps[d][i], root, base);
      }
    }
  }

  /** A constructor begins. */
  lemma Begun(deps: Graph, starting: seq<bool>, started: seq<bool>, constructed: seq<nat>, stack: seq<nat>,
              exitAll: bool, d: nat)
    requires Consistent(deps, starting, started, constructed, stack, exitAll)
    requires d < |deps| && !starting[d] && !started[d]
    ensures Consistent(deps, starting[d := true], started, constructed, stack + [d], exitAll)
    ensures d !in stack && d !in constructed && |constructed| + |stack| + 1 <= |deps|
  {
    hide Topological;
    assert forall x :: x in stack + [d] <==> x in stack || x == d;
    NoMoreThan(constructed, stack + [d], |deps|);
  }

  /** It returns. */
  lemma Finished(deps: Graph, starting: seq<bool>, started: seq<bool>, constructed: seq<nat>, stack: seq<nat>,
                 exitAll: bool, d: nat)
    requires Consistent(deps, starting, started, constructed, stack + [d], exitAll) && d < |deps|
    requires !exitAll ==> forall i :: 0 <= i < |deps[d]| ==> deps[d][i] in constructed
    ensures (stack + [d])[..|stack|] == stack && d !in stack
    ensures |starting| == |started| == |deps|
    ensures Consistent(deps, starting[d := false], started[d := true], constructed + [d], stack, exitAll)
  {
    assert (stack + [d])[..|stack|] == stack;
    assert forall i :: 0 <= i < |stack| ==> (stack + [d])[i] == stack[i];
    assert (stack + [d])[|stack|] == d;
    assert forall x :: x in constructed + [d] <==> x in constructed || x == d;
    assert forall x :: x in stack + [d] <==> x in stack || x == d;
    if !exitAll {
      InOrder(deps, constructed, d);
    }
    hide Topological;
  }

  lemma InOrder(deps: Graph, constructed: seq<nat>, d: nat)
    requires Topological(deps, constructed) && d < |deps|
    requires forall i :: 0 <= i < |deps[d]| ==> deps[d][i] in constructed
    ensures Topological(deps, constructed + [d])
  {
    var log := constructed + [d];
    assert forall k :: 0 <= k <= |constructed| ==> log[..k] == constructed[..k];
    assert constructed[..|constructed|] == constructed;
  }

  /** A request for a driver whose constructor is running closes a cycle. */
  lemma Closes(deps: Graph, stack: seq<nat>, d: nat, started: seq<nat>)
    requires Walk(deps, stack + [d]) && d in stack
    requires forall x :: x in stack ==> x !in started
    ensures CycleReachable(deps, started, (stack + [d])[0])
  {
    var w := stack + [d];
    var i :| 0 <= i < |stack| && stack[i] == d;
    assert w[i] == w[|stack|];
    assert Outside(w, started);
  }

  ghost function SetOf(s: seq<nat>): (r: set<nat>)
    ensures forall x :: x in r <==> x in s
    ensures Distinct(s) ==> |r| == |s|
  {
    if s == [] then {} else
      var n := |s| - 1;
      assert s == s[..n] + [s[n]];
      assert Distinct(s) ==> s[n] !in s[..n];
      SetOf(s[..n]) + {s[n]}
  }

  ghost function Numbers(n: nat): (r: set<nat>)
    ensures |r| == n && forall x: nat :: x in r <==> x < n
  {
    if n == 0 then {} else Numbers(n - 1) + {n - 1}
  }

  lemma Subset(a: set<nat>, b: set<nat>)
    requires a <= b
    ensures |a| <= |b|
  {
    assert b == a + (b - a);
  }

  /** Two disjoint lists without repetition hold no more than n numbers below n. */
  lemma NoMoreThan(a: seq<nat>, b: seq<nat>, n: nat)
    requires Distinct(a) && Distinct(b) && (forall x :: x in b ==> x !in a)
    requires forall x :: x in a || x in b ==> x < n
    ensures |a| + |b| <= n
  {
    hide Distinct;
    var both := SetOf(a) + SetOf(b);
    assert SetOf(a) !! SetOf(b);
    assert both <= Numbers(n);
    Subset(both, Numbers(n));
  }

  // ---------------------------------------------------------------------------------
  // Requests from outside
  // ---------------------------------------------------------------------------------

  function IndexOf(log: seq<nat>, d: nat): nat
    requires d in log
    ensures IndexOf(log, d) < |log| && log[IndexOf(log, d)] == d
    ensures forall i :: 0 <= i < IndexOf(log, d) ==> log[i] != d
  {
    if log[0] == d then 0 else 1 + IndexOf(log[1..], d)
  }

  /** Along a walk that stays among new drivers, dependencies come earlier and earlier. */
  lemma {:induction false} WalkGoesBack(deps: Graph, log: seq<nat>, base: nat, w: seq<nat>, i: nat, j: nat)
    requires Topological(deps, log) && base <= |log|
    requires Walk(deps, w) && w[0] in log && Outside(w, log[..base])
    requires i < j < |w|
    ensures w[i] in log && w[j] in log && IndexOf(log, w[j]) < IndexOf(log, w[i])
    decreases j
  {
    if j - 1 > i {
      WalkGoesBack(deps, log, base, w, i, j - 1);
    } else if i > 0 {
      WalkGoesBack(deps, log, base, w, i - 1, i);
    }
    var k := IndexOf(log, w[j - 1]);
    assert w[(j - 1) + 1] in deps[w[j - 1]];
    var e := IndexOf(deps[w[j - 1]], w[j]);
    assert deps[log[k]][e] in log[..k];
    Earlier(log, k, w[j]);
  }

  lemma Earlier(log: seq<nat>, k: nat, d: nat)
    requires k <= |log| && d in log[..k]
    ensures d in log && IndexOf(log, d) < k
  {
    var i :| 0 <= i < k && log[..k][i] == d;
    assert log[i] == d;
  }

  /** No cycle lies ahead of a driver that has been constructed after its dependencies. */
  lemma NoCycleBehind(deps: Graph, log: seq<nat>, base: nat, d: nat)
    requires Topological(deps, log) && base <= |log| && d in log
    ensures !CycleReachable(deps, log[..base], d)
  {
    if CycleReachable(deps, log[..base], d) {
      var w: seq<nat> :| Walk(deps, w) && w[0] == d && Outside(w, log[..base]) && !Distinct(w);
      var i, j :| 0 <= i < j < |w| && w[i] == w[j];
      WalkGoesBack(deps, log, base, w, i, j);
      assert false;
    }
  }

  /** A request from a session, with no constructor running: it constructs what is missing, nothing
      twice, and tells the server to exit exactly when a cycle of missing drivers is in its way. */
  method Request(manager: DriverManager, d: nat)
    requires manager.Valid() && manager.stack == [] && d < |manager.deps|
    modifies manager
    ensures manager.Valid() && manager.stack == []
    ensures old(manager.constructed) <= manager.constructed && Distinct(manager.constructed)
    ensures d in manager.constructed
    ensures !manager.exitAll ==> Topological(manager.deps, manager.constructed)
    ensures old(manager.exitAll) ==> manager.exitAll
    ensures !old(manager.exitAll) ==>
              (manager.exitAll <==> CycleReachable(manager.deps, old(manager.constructed), d))
  {
    ghost var base := |manager.constructed|;
    var _ := manager.Get(d, d, base);
    assert old(manager.constructed)[..base] == old(manager.constructed);
    if !manager.exitAll {
      NoCycleBehind(manager.deps, manager.constructed, base, d);
      assert manager.constructed[..base] == old(manager.constructed);
    }
  }
}
