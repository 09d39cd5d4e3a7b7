/** Finite sets of integers have a least element. */
module OrderedSets {

  lemma Pick<T>(s: set<T>) returns (x: T)
    requires s != {}
    ensures x in s
  {
    x :| x in s;
  }

  lemma {:induction false} Smallest(s: set<int>) returns (m: int)
    requires s != {}
    ensures m in s && forall x :: x in s ==> m <= x
    decreases |s|
  {
    var x := Pick(s);
    m := x;
    var rest := s - {x};
    assert forall y :: y in s ==> y == x || y in rest;
    if rest != {} {
      var r := Smallest(rest);
      m := if r < m then r else m;
    }
  }
}

/** Session identifiers: a pool of live sessions, a stack of identifiers to use again and a
    counter that must agree with both (session_manager.hpp, session_manager.cpp). */
module SessionManager {
  import opened Sequences
  import OrderedSets

  /** The pool maps the identifiers of the live sessions to their sockets. */
  datatype State = State(pool: map<int, int>, reusable: seq<int>, count: int)

  datatype Op = Create(fd: int) | Delete(id: int) | DeleteAll

  const EMPTY := State(map[], [], 0)

  function NewId(s: State): int {
    if s.reusable == [] then s.count else s.reusable[|s.reusable| - 1]
  }

  function Created(s: State, fd: int): State {
    State(s.pool[NewId(s) := fd], if s.reusable == [] then [] else s.reusable[..|s.reusable| - 1], s.count + 1)
  }

  function Deleted(s: State, id: int): State {
    if id !in s.pool then s else State(s.pool - {id}, s.reusable + [id], s.count - 1)
  }

  function AllDeleted(s: State, ids: seq<int>): State
    decreases |ids|
  {
    if ids == [] then s else AllDeleted(Deleted(s, ids[0]), ids[1..])
  }

  /** The identifiers of the pool from the smallest on, as std::map iterates over them. */
  ghost predicate Listing(ids: seq<int>, pool: map<int, int>) {
    && (forall id :: id in ids <==> id in pool)
    && Ascending(ids)
  }

  ghost predicate Ascending(ids: seq<int>) {
    forall i, j :: 0 <= i < j < |ids| ==> ids[i] < ids[j]
  }

  ghost predicate Step(s: State, op: Op, t: State) {
    match op
    case Create(fd) => t == Created(s, fd)
    case Delete(id) => t == Deleted(s, id)
    case DeleteAll => exists ids :: Listing(ids, s.pool) && t == AllDeleted(s, ids)
  }

  /** A run of the manager from its construction. */
  ghost predicate Run(states: seq<State>, ops: seq<Op>) {
    && |states| == |ops| + 1 && states[0] == EMPTY
    && forall i :: 0 <= i < |ops| ==> Step(states[i], ops[i], states[i + 1])
  }

  function Max(a: int, b: int): int {
    if a < b then b else a
  }

  /** The largest number of sessions that were live at the same time. */
  function Peak(states: seq<State>): nat {
    if states == [] then 0 else Max(Peak(states[..|states| - 1]), |states[|states| - 1].pool|)
  }

  /** The identifiers 0..k-1 are shared out between the pool and the stack, each in one place. */
  ghost predicate Shared(s: State, k: nat) {
    && s.count == |s.pool|
    && |s.pool| + |s.reusable| == k
    && Distinct(s.reusable)
    && (forall id :: id in s.reusable ==> id !in s.pool)
    && forall id :: 0 <= id < k <==> id in s.pool || id in s.reusable
  }

  lemma CreateKeeps(s: State, fd: int, k: nat)
    requires Shared(s, k)
    ensures NewId(s) !in s.pool
    ensures NewId(s) in Created(s, fd).pool && |Created(s, fd).pool| == |s.pool| + 1
    ensures Shared(Created(s, fd), Max(k, |s.pool| + 1))
  {
    OneKeyMore(s.pool, NewId(s), fd);
    if s.reusable == [] {
      NextIdIsNew(s, k);
      hide Distinct;
    } else {
      PopKeeps(s.reusable);
      hide Distinct;
      assert NewId(s) in s.reusable;
    }
  }

  lemma OneKeyMore(m: map<int, int>, key: int, value: int)
    requires key !in m
    ensures |m[key := value]| == |m| + 1
    ensures forall id :: id in m[key := value] <==> id in m || id == key
  {
    assert m[key := value].Keys == m.Keys + {key};
  }

  lemma NextIdIsNew(s: State, k: nat)
    requires Shared(s, k) && s.reusable == []
    ensures NewId(s) == k == |s.pool| && k !in s.pool
  {
  }

  lemma PopKeeps(ids: seq<int>)
    requires Distinct(ids) && ids != []
    ensures var n := |ids| - 1;
            && Distinct(ids[..n]) && ids[n] !in ids[..n] && ids[n] in ids
            && forall id :: id in ids <==> id in ids[..n] || id == ids[n]
  {
    var n := |ids| - 1;
    assert ids == ids[..n] + [ids[n]];
  }

  lemma DeleteKeeps(s: State, id: int, k: nat)
    requires Shared(s, k)
    ensures Shared(Deleted(s, id), k)
    ensures |Deleted(s, id).pool| <= |s.pool|
  {
    if id in s.pool {
      var t := Deleted(s, id);
      assert s.pool.Keys == t.pool.Keys + {id};
    }
  }

  lemma {:induction false} DeleteAllKeeps(s: State, ids: seq<int>, k: nat)
    requires Shared(s, k) && Distinct(ids)
    requires forall id :: id in ids ==> id in s.pool
    ensures var t := AllDeleted(s, ids);
            && Shared(t, k)
            && t.reusable == s.reusable + ids
            && (forall id :: id in t.pool <==> id in s.pool && id !in ids)
    decreases |ids|
  {
    hide Shared, Distinct, Deleted;
    if ids != [] {
      var t := Deleted(s, ids[0]);
      DeleteKeeps(s, ids[0], k);
      DeletedIs(s, ids[0]);
      FirstAndRest(ids);
      DeleteAllKeeps(t, ids[1..], k);
      assert s.reusable + [ids[0]] + ids[1..] == s.reusable + ids;
    }
  }

  /** After deleting everything that the pool lists nothing is left. */
  lemma AllGone(s: State, ids: seq<int>, k: nat)
    requires Shared(s, k) && Listing(ids, s.pool)
    ensures AllDeleted(s, ids).pool == map[] && AllDeleted(s, ids).count == 0
  {
    DeleteAllKeeps(s, ids, k);
    var t := AllDeleted(s, ids);
    assert forall id :: id !in t.pool;
    assert t.pool == map[];
  }

  lemma DeleteNext(s: State, ids: seq<int>, i: nat)
    requires i <= |ids|
    ensures AllDeleted(s, ids[i..]) == if i == |ids| then s else AllDeleted(Deleted(s, ids[i]), ids[i + 1..])
  {
    hide Deleted;
    if i < |ids| {
      assert ids[i..][1..] == ids[i + 1..];
    }
  }

  lemma DeletedIs(s: State, id: int)
    requires id in s.pool
    ensures Deleted(s, id).reusable == s.reusable + [id]
    ensures forall other :: other in Deleted(s, id).pool <==> other in s.pool && other != id
  {
  }

  lemma FirstAndRest(ids: seq<int>)
    requires Distinct(ids) && ids != []
    ensures Distinct(ids[1..]) && ids[0] !in ids[1..]
    ensures forall id :: id in ids <==> id == ids[0] || id in ids[1..]
  {
    assert ids == [ids[0]] + ids[1..];
  }

  lemma StepKeeps(s: State, op: Op, t: State, k: nat)
    requires Shared(s, k) && Step(s, op, t) && |s.pool| <= k
    ensures Shared(t, Max(k, |t.pool|)) && |t.pool| <= Max(k, |t.pool|)
    ensures op.DeleteAll? ==> t.pool == map[] && t.count == 0
  {
    match op {
      case Create(fd) => CreateKeeps(s, fd, k);
      case Delete(id) => DeleteKeeps(s, id, k);
      case DeleteAll =>
        var ids :| Listing(ids, s.pool) && t == AllDeleted(s, ids);
        DeleteAllKeeps(s, ids, k);
        AllGone(s, ids, k);
    }
  }

  /** In every run, after every step: the live identifiers and the reusable ones are 0..k-1 without
      repetition, where k is the peak so far, and the counter is the size of the pool. */
  lemma {:induction false} RunKeeps(states: seq<State>, ops: seq<Op>)
    requires Run(states, ops)
    ensures Shared(states[|ops|], Peak(states))
    decreases |ops|
  {
    hide Shared, Step;
    var n := |ops|;
    if n == 0 {
      assert states[..0] == [];
      EmptyShared();
    } else {
      RunKeeps(states[..n], ops[..n - 1]);
      PoolBelowPeak(states[..n], n - 1);
      StepKeeps(states[n - 1], ops[n - 1], states[n], Peak(states[..n]));
    }
  }

  lemma EmptyShared()
    ensures Shared(EMPTY, 0)
  {
  }

  lemma {:induction false} PoolBelowPeak(states: seq<State>, i: nat)
    requires i < |states|
    ensures |states[i].pool| <= Peak(states)
  {
    var n := |states| - 1;
    if i < n {
      PoolBelowPeak(states[..n], i);
    }
  }

  /** The peak is reached: one moment of the run had exactly that many sessions. */
  lemma {:induction false} PeakIsReached(states: seq<State>) returns (i: nat)
    requires states != []
    ensures i < |states| && |states[i].pool| == Peak(states)
  {
    var n := |states| - 1;
    i := n;
    if n > 0 && |states[n].pool| < Peak(states[..n]) {
      i := PeakIsReached(states[..n]);
    } else if n == 0 {
      assert states[..n] == [];
    }
  }

  /** A new identifier is never one of a live session, and is the smallest number never used when
      every used one is taken. */
  lemma FreshIds(states: seq<State>, ops: seq<Op>)
    requires Run(states, ops)
    ensures var s := states[|ops|];
            && NewId(s) !in s.pool
            && 0 <= NewId(s) <= Peak(states)
            && (NewId(s) == Peak(states) <==> |s.pool| == Peak(states))
  {
    RunKeeps(states, ops);
    var s := states[|ops|];
    CreateKeeps(s, 0, Peak(states));
    if s.reusable != [] {
      assert NewId(s) in s.reusable;
    }
  }

  /** The identifier that was freed last is used first. */
  lemma LastFreedFirst(s: State, id: int, fd: int)
    requires id in s.pool
    ensures NewId(Deleted(s, id)) == id
    ensures Created(Deleted(s, id), fd) == State(s.pool[id := fd], s.reusable, s.count)
  {
    assert (s.pool - {id})[id := fd] == s.pool[id := fd];
    assert (s.reusable + [id])[..|s.reusable|] == s.reusable;
  }

  // ---------------------------------------------------------------------------------
  // The class
  // ---------------------------------------------------------------------------------

  lemma LargerLast(ids: seq<int>, id: int)
    requires Ascending(ids) && forall x :: x in ids ==> x < id
    ensures Ascending(ids + [id])
  {
    assert forall i :: 0 <= i < |ids| ==> ids[i] in ids;
  }

  class SessionManager {
    var sessionPool: map<int, int>
    var reusableIds: seq<int>
    var numberOfSessions: int
    /** The most sessions that have been live at once. */
    ghost var peak: nat

    constructor ()
      ensures Valid() && Current() == EMPTY && peak == 0
    {
      sessionPool, reusableIds, numberOfSessions, peak := map[], [], 0, 0;
    }

    ghost predicate Valid()
      reads this
    {
      Shared(Current(), peak)
    }

    function Current(): State
      reads this
    {
      State(sessionPool, reusableIds, numberOfSessions)
    }

    method CreateSession(commFd: int) returns (newId: int)
      requires Valid()
      modifies this
      ensures Valid() && Current() == Created(old(Current()), commFd)
      ensures newId == NewId(old(Current())) && newId !in old(sessionPool) && sessionPool[newId] == commFd
      ensures peak == Max(old(peak), |sessionPool|)
    {
      CreateKeeps(Current(), commFd, peak);
      hide Shared;
      if |reusableIds| == 0 {
        newId := numberOfSessions;
      } else {
        newId := reusableIds[|reusableIds| - 1];
        reusableIds := reusableIds[..|reusableIds| - 1];
      }
      sessionPool := sessionPool[newId := commFd];
      numberOfSessions := numberOfSessions + 1;
      peak := Max(peak, |sessionPool|);
    }

    method GetSessionIds() returns (res: seq<int>)
      ensures Listing(res, sessionPool)
    {
      res := [];
      var rest := sessionPool.Keys;
      assert Ascending([]);
      hide Ascending;
      while rest != {}
        invariant rest <= sessionPool.Keys
        invariant forall id :: id in sessionPool <==> id in res || id in rest
        invariant Ascending(res)
        invariant forall done, id :: done in res && id in rest ==> done < id
        decreases |rest|
      {
        ghost var m := OrderedSets.Smallest(rest);
        var id :| id in rest && forall x :: x in rest ==> id <= x;
        assert forall done :: done in res + [id] <==> done in res || done == id;
        LargerLast(res, id);
        res := res + [id];
        rest := rest - {id};
      }
    }

    method IsIdInSessionIds(id: int) returns (found: bool)
      ensures found <==> id in sessionPool
    {
      var currIds := GetSessionIds();
      for i := 0 to |currIds|
        invariant id !in currIds[..i]
      {
        if currIds[i] == id {
          return true;
        }
      }
      return false;
    }

    method DeleteSession(id: int)
      requires Valid()
      modifies this
      ensures Valid() && Current() == Deleted(old(Current()), id)
      ensures peak == old(peak)
    {
      DeleteKeeps(Current(), id, peak);
      hide Shared;
      var known := IsIdInSessionIds(id);
      if !known {
        return;
      }
      sessionPool := sessionPool - {id};
      reusableIds := reusableIds + [id];
      numberOfSessions := numberOfSessions - 1;
    }

    method DeleteAll()
      requires Valid()
      modifies this
      ensures Valid() && sessionPool == map[] && numberOfSessions == 0
      ensures Step(old(Current()), Op.DeleteAll, Current())
      ensures peak == old(peak)
    {
      if |sessionPool| != 0 {
        hide Shared, Distinct, Listing, Ascending, Deleted, AllDeleted;
        ghost var before := Current();
        var ids := GetSessionIds();
        AllGone(before, ids, peak);
        for i := 0 to |ids|
          invariant Valid() && peak == old(peak)
          invariant AllDeleted(Current(), ids[i..]) == AllDeleted(before, ids)
        {
          DeleteNext(Current(), ids, i);
          DeleteSession(ids[i]);
        }
        DeleteNext(Current(), ids, |ids|);
      } else {
        assert Listing([], sessionPool) && AllDeleted(Current(), []) == Current();
      }
    }
  }
}
