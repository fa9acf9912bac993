/** The pool of uids a host hands to its sandboxes (src/sandboxes.rs, `UidPool`).

    `Pool` is the pool's state as a value and `TakeFrom`, `Returned` and `SetAside` say what each
    operation makes of it; the class `UidPool` does the same work step by step, in place.
    Which uids own a live process is the answer of `pids_of_uid`; it comes in as the set `busy`. */
module Uids {
  import opened Wrappers

  const UID_BASE: nat := 20_000
  const UID_MAX: nat := 65_000

  type Uid = nat

  /** `next` is an offset from UID_BASE; `free` and `quarantined` hold uids. */
  datatype Pool = Pool(next: nat, free: seq<Uid>, quarantined: seq<Uid>)

  predicate InRange(u: Uid) {
    20_000 <= u < 65_000
  }

  /** The reuse half of `take`: pop until a uid without processes turns up. */
  function TakeFree(p: Pool, busy: set<Uid>): (Pool, Option<Uid>)
    decreases |p.free|
  {
    if p.free == [] then (p, None)
    else
      var u := p.free[|p.free| - 1];
      var rest := p.(free := p.free[..|p.free| - 1]);
      if u !in busy then (rest, Some(u))
      else TakeFree(rest.(quarantined := p.quarantined + [u]), busy)
  }

  /** The fresh half of `take`: advance the cursor past quarantined uids. */
  function TakeNew(p: Pool): (Pool, Option<Uid>)
    decreases UID_MAX - p.next
  {
    var u := UID_BASE + p.next;
    if u >= UID_MAX then (p, None)
    else
      var q := p.(next := p.next + 1);
      if u !in p.quarantined then (q, Some(u)) else TakeNew(q)
  }

  function TakeFrom(p: Pool, busy: set<Uid>): (Pool, Option<Uid>) {
    var (q, r) := TakeFree(p, busy);
    if r.Some? then (q, r) else TakeNew(q)
  }

  function Returned(p: Pool, u: Uid): Pool {
    p.(free := p.free + [u])
  }

  function SetAside(p: Pool, u: Uid): Pool {
    p.(quarantined := p.quarantined + [u])
  }

  /** How much of the free list the reuse half looks at: all of it when every entry is busy. */
  function Inspected(q: Pool, r: Option<Uid>): nat {
    if r.Some? then |q.free| + 1 else 0
  }

  /** What the reuse half may do: keep a prefix of the free list, hand out the uid just behind
      that prefix, and quarantine everything popped before it, all of it busy. */
  ghost predicate ReusedFrom(p: Pool, busy: set<Uid>, q: Pool, r: Option<Uid>) {
    && q.next == p.next
    && |q.free| <= |p.free| && q.free == p.free[..|q.free|]
    && (r.Some? ==> |q.free| < |p.free| && r.value == p.free[|q.free|] && r.value !in busy)
    && (r.None? ==> q.free == [])
    && (forall u :: u in p.quarantined ==> u in q.quarantined)
    && (forall i :: Inspected(q, r) <= i < |p.free| ==> p.free[i] in busy && p.free[i] in q.quarantined)
    && (forall u :: u in q.quarantined ==>
          u in p.quarantined || exists i :: Inspected(q, r) <= i < |p.free| && p.free[i] == u)
  }

  lemma {:induction false} TakeFreeEffect(p: Pool, busy: set<Uid>)
    ensures ReusedFrom(p, busy, TakeFree(p, busy).0, TakeFree(p, busy).1)
    decreases |p.free|
  {
    if p.free != [] {
      var n := |p.free| - 1;
      if p.free[n] in busy {
        var smaller := p.(free := p.free[..n], quarantined := p.quarantined + [p.free[n]]);
        TakeFreeEffect(smaller, busy);
        PopBusy(p, busy, TakeFree(smaller, busy).0, TakeFree(smaller, busy).1);
      }
    }
  }

  lemma PopBusy(p: Pool, busy: set<Uid>, q: Pool, r: Option<Uid>)
    requires p.free != [] && p.free[|p.free| - 1] in busy
    requires var n := |p.free| - 1; ReusedFrom(p.(free := p.free[..n], quarantined := p.quarantined + [p.free[n]]), busy, q, r)
    ensures ReusedFrom(p, busy, q, r)
  {
    var n := |p.free| - 1;
    var smaller := p.(free := p.free[..n], quarantined := p.quarantined + [p.free[n]]);
    assert p.free[n] in smaller.quarantined;
    forall u | u in q.quarantined && u !in p.quarantined
      ensures exists i :: Inspected(q, r) <= i < |p.free| && p.free[i] == u
    {
      if u in smaller.quarantined {
        assert p.free[n] == u;
      } else {
        var i :| Inspected(q, r) <= i < n && smaller.free[i] == u;
        assert p.free[i] == u;
      }
    }
  }

  /** What the fresh half does: it stops at the first uid from the cursor on that is not
      quarantined, and fails only when there is none left in the range. */
  lemma {:induction false} TakeNewEffect(p: Pool)
    ensures var (q, r) := TakeNew(p);
      && q.free == p.free && q.quarantined == p.quarantined
      && p.next <= q.next
      && (r.Some? ==> p.next < q.next && r.value == UID_BASE + q.next - 1 && InRange(r.value) && r.value !in p.quarantined)
      && (r.None? ==> UID_BASE + q.next >= UID_MAX && (q.next == p.next || UID_BASE + q.next == UID_MAX))
      && (forall u :: UID_BASE + p.next <= u < UID_BASE + q.next && Some(u) != r ==> u in p.quarantined)
    decreases UID_MAX - p.next
  {
    if UID_BASE + p.next < UID_MAX && UID_BASE + p.next in p.quarantined {
      TakeNewEffect(p.(next := p.next + 1));
    }
  }

  /** Each uid below the cursor that no sandbox holds is either free, once, or quarantined;
      nothing at or above the cursor is free or held. `held` are the uids in use. */
  ghost predicate Partitioned(p: Pool, held: set<Uid>) {
    && UID_BASE + p.next <= UID_MAX
    && (forall i, j :: 0 <= i < j < |p.free| ==> p.free[i] != p.free[j])
    && (forall u :: u in p.free ==> UID_BASE <= u < UID_BASE + p.next && u !in p.quarantined && u !in held)
    && (forall u :: u in held ==> UID_BASE <= u < UID_BASE + p.next && u !in p.quarantined)
    && (forall u :: UID_BASE <= u < UID_BASE + p.next ==> u in held || u in p.free || u in p.quarantined)
  }

  /** Taking keeps the partition: the uid handed out was held by nobody and now is held.
      `None` means that every uid of the range is held or quarantined. */
  lemma TakeKeepsPartition(p: Pool, busy: set<Uid>, held: set<Uid>)
    requires Partitioned(p, held)
    ensures var (q, r) := TakeFrom(p, busy);
      && (forall u :: u in p.quarantined ==> u in q.quarantined)
      && (r.Some? ==>
            && InRange(r.value) && r.value !in held && r.value !in p.quarantined
            && (r.value in p.free ==> r.value !in busy)
            && Partitioned(q, held + {r.value}))
      && (r.None? ==>
            && Partitioned(q, held) && q.free == []
            && forall u :: InRange(u) ==> u in held || u in q.quarantined)
  {
    TakeFreeEffect(p, busy);
    var (q, r) := TakeFree(p, busy);
    if r.Some? {
      ReuseKeepsPartition(p, busy, held, q, r.value);
    } else {
      assert Partitioned(q, held);
      TakeNewEffect(q);
    }
  }

  lemma ReuseKeepsPartition(p: Pool, busy: set<Uid>, held: set<Uid>, q: Pool, u: Uid)
    requires Partitioned(p, held) && ReusedFrom(p, busy, q, Some(u))
    ensures u !in held && InRange(u) && u !in p.quarantined && Partitioned(q, held + {u})
  {
    var k := |q.free|;
    assert u == p.free[k] && u in p.free;
    forall v | v in q.free
      ensures v !in q.quarantined && v != u && v in p.free
    {
      var i :| 0 <= i < k && q.free[i] == v;
      assert p.free[i] == v;
    }
    forall v | UID_BASE <= v < UID_BASE + q.next
      ensures v in held + {u} || v in q.free || v in q.quarantined
    {
      if v in p.free {
        var i :| 0 <= i < |p.free| && p.free[i] == v;
        assert i < k ==> q.free[i] == v;
      }
    }
  }

  /** Giving back a held uid, or setting it aside for good, keeps the partition. */
  lemma ReturnKeepsPartition(p: Pool, held: set<Uid>, u: Uid)
    requires Partitioned(p, held) && u in held
    ensures Partitioned(Returned(p, u), held - {u})
    ensures Partitioned(SetAside(p, u), held - {u})
  {
  }

  /** The pool as the program keeps it: three fields changed in place under one lock. */
  class UidPool {
    var next: nat
    var free: seq<Uid>
    var quarantined: seq<Uid>

    ghost function View(): Pool
      reads this
    {
      Pool(next, free, quarantined)
    }

    constructor WithReserved(inUse: seq<Uid>)
      ensures View() == Pool(0, [], inUse)
      ensures Partitioned(View(), {})
    {
      next, free, quarantined := 0, [], inUse;
    }

    /** Take a uid, preferring reuse; `None` means the range is exhausted. */
    method Take(busy: set<Uid>) returns (r: Option<Uid>)
      modifies this
      ensures View() == TakeFrom(old(View()), busy).0
      ensures r == TakeFrom(old(View()), busy).1
    {
      while free != []
        invariant TakeFree(View(), busy) == TakeFree(old(View()), busy)
        decreases |free|
      {
        var uid := free[|free| - 1];
        free := free[..|free| - 1];
        if uid !in busy {
          return Some(uid);
        }
        quarantined := quarantined + [uid];
      }
      while true
        invariant free == [] && TakeFree(View(), busy) == (View(), None)
        invariant TakeNew(View()) == TakeFrom(old(View()), busy)
        decreases UID_MAX - next
      {
        var uid := UID_BASE + next;
        if uid >= UID_MAX {
          return None;
        }
        next := next + 1;
        if uid !in quarantined {
          return Some(uid);
        }
      }
    }

    method Release(uid: Uid)
      modifies this
      ensures View() == Returned(old(View()), uid)
    {
      free := free + [uid];
    }

    method Quarantine(uid: Uid)
      modifies this
      ensures View() == SetAside(old(View()), uid)
    {
      quarantined := quarantined + [uid];
    }
  }
}
