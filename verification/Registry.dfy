/** The registry of background processes (src/exec.rs, `ProcRegistry`).

    The list is guarded by a lock, but a process exits without it: its state can change between
    any two looks that an insertion takes. */
module Registry {
  import opened Wrappers
  import opened Numbers

  const MAX_FINISHED: nat := 256

  class Proc {
    const id: string
    const sandbox: Option<string>
    var exited: bool

    constructor (id: string, sandbox: Option<string>)
      ensures this.id == id && this.sandbox == sandbox && !exited
    {
      this.id, this.sandbox, exited := id, sandbox, false;
    }
  }

  // ---- trimming, on what an insertion has seen -------------------------------------------

  function Count(seen: seq<bool>): nat {
    if seen == [] then 0 else Count(seen[..|seen| - 1]) + if seen[|seen| - 1] then 1 else 0
  }

  function Surplus(seen: seq<bool>): nat {
    if Count(seen) > MAX_FINISHED then Count(seen) - MAX_FINISHED else 0
  }

  /** Entry i is one of the `drop` oldest finished ones. */
  predicate IsDropped(seen: seq<bool>, drop: nat, i: nat)
    requires i < |seen|
  {
    seen[i] && Count(seen[..i]) < drop
  }

  /** The entries below n that stay, in order. */
  function Survivors(seen: seq<bool>, drop: nat, n: nat): (s: seq<nat>)
    requires n <= |seen|
    ensures forall k :: 0 <= k < |s| ==> s[k] < n
  {
    if n == 0 then []
    else Survivors(seen, drop, n - 1) + if IsDropped(seen, drop, n - 1) then [] else [n - 1]
  }

  function Staying(seen: seq<bool>): (s: seq<nat>)
    ensures forall k :: 0 <= k < |s| ==> s[k] < |seen|
  {
    Survivors(seen, Surplus(seen), |seen|)
  }

  /** The indices below n that were seen finished. */
  function Finished(seen: seq<bool>, n: nat): (s: seq<nat>)
    requires n <= |seen|
    ensures forall k :: 0 <= k < |s| ==> s[k] < n
  {
    if n == 0 then [] else Finished(seen, n - 1) + if seen[n - 1] then [n - 1] else []
  }

  function Select<T>(s: seq<T>, indices: seq<nat>): (r: seq<T>)
    requires forall k :: 0 <= k < |indices| ==> indices[k] < |s|
    ensures |r| == |indices| && forall k :: 0 <= k < |r| ==> r[k] == s[indices[k]]
  {
    seq(|indices|, k requires 0 <= k < |indices| => s[indices[k]])
  }

  lemma {:induction false} FinishedAreCounted(seen: seq<bool>, n: nat)
    requires n <= |seen|
    ensures |Finished(seen, n)| == Count(seen[..n])
  {
    if n > 0 {
      FinishedAreCounted(seen, n - 1);
      assert seen[..n][..n - 1] == seen[..n - 1];
    }
  }

  /** The first `drop` of the finished indices are the ones to drop. */
  lemma {:induction false} DoomedAreDropped(seen: seq<bool>, drop: nat, n: nat, i: nat)
    requires i < n <= |seen|
    ensures var f := Finished(seen, n);
      i in f[..if drop < |f| then drop else |f|] <==> IsDropped(seen, drop, i)
    decreases n
  {
    var f, g := Finished(seen, n), Finished(seen, n - 1);
    FinishedAreCounted(seen, n - 1);
    if i < n - 1 {
      DoomedAreDropped(seen, drop, n - 1, i);
      if seen[n - 1] && drop >= |f| {
        assert f[..|f|] == g + [n - 1] && g[..|g|] == g;
      } else if drop < |f| {
        assert f[..drop] == g[..drop];
      }
    } else {
      forall k | 0 <= k < |g| ensures g[k] != i {
      }
      if seen[i] {
        assert f == g + [i] && f[|g|] == i;
        if drop < |f| {
          assert f[..drop] == g[..drop];
        } else {
          assert f[..|f|] == f;
        }
      }
    }
  }

  /** What stays: a subsequence of the entries, without exactly the `drop` oldest finished. */
  lemma {:induction false} SurvivorsAreRight(seen: seq<bool>, drop: nat, n: nat)
    requires n <= |seen|
    ensures var s := Survivors(seen, drop, n);
      && (forall k, l :: 0 <= k < l < |s| ==> s[k] < s[l])
      && (forall i: nat :: i in s <==> i < n && !IsDropped(seen, drop, i))
  {
    if n > 0 {
      SurvivorsAreRight(seen, drop, n - 1);
    }
  }

  lemma CountMore(seen: seq<bool>, b: bool)
    ensures Count(seen + [b]) == Count(seen) + if b then 1 else 0
  {
    assert (seen + [b])[..|seen|] == seen;
  }

  lemma {:induction false} SurvivorsAreCounted(seen: seq<bool>, drop: nat, n: nat)
    requires n <= |seen|
    ensures Count(Select(seen, Survivors(seen, drop, n)))
         == if Count(seen[..n]) < drop then 0 else Count(seen[..n]) - drop
  {
    if n > 0 {
      SurvivorsAreCounted(seen, drop, n - 1);
      assert seen[..n][..n - 1] == seen[..n - 1];
      var before := Survivors(seen, drop, n - 1);
      if IsDropped(seen, drop, n - 1) {
        assert Survivors(seen, drop, n) == before;
      } else {
        assert Survivors(seen, drop, n) == before + [n - 1];
        assert Select(seen, before + [n - 1]) == Select(seen, before) + [seen[n - 1]];
        CountMore(Select(seen, before), seen[n - 1]);
      }
    }
  }

  /** After an insertion at most 256 of the entries are ones that it saw finished; unless there
      were more, nothing was dropped. */
  lemma AtMost256Finished(seen: seq<bool>)
    ensures Count(Select(seen, Staying(seen))) == if Count(seen) < 256 then Count(seen) else 256
    ensures Count(seen) <= 256 ==> Staying(seen) == seq(|seen|, i => i)
  {
    SurvivorsAreCounted(seen, Surplus(seen), |seen|);
    assert seen[..|seen|] == seen;
    if Count(seen) <= MAX_FINISHED {
      NoneDropped(seen, |seen|);
    }
  }

  lemma {:induction false} NoneDropped(seen: seq<bool>, n: nat)
    requires n <= |seen|
    ensures Survivors(seen, 0, n) == seq(n, i => i)
  {
    if n > 0 {
      NoneDropped(seen, n - 1);
    }
  }

  // ---- the registry as a value -----------------------------------------------------------

  datatype Entry = Entry(id: string, sandbox: Option<string>, exited: bool)

  type Entries = seq<Entry>

  /** The same processes a while later: some of them may have exited since. */
  ghost predicate Later(before: Entries, after: Entries) {
    && |after| == |before|
    && forall i :: 0 <= i < |before| ==>
         after[i] == before[i].(exited := after[i].exited) && (before[i].exited ==> after[i].exited)
  }

  /** What was seen of each entry was true at some time between. */
  ghost predicate Witnessed(before: Entries, seen: seq<bool>, after: Entries) {
    && |seen| == |before| == |after|
    && forall i :: 0 <= i < |before| ==> (before[i].exited ==> seen[i]) && (seen[i] ==> after[i].exited)
  }

  predicate Matches(e: Entry, id: string, scope: Option<string>) {
    e.id == id && (scope.None? || e.sandbox == scope)
  }

  /** The first entry that matches. */
  function Position(s: Entries, id: string, scope: Option<string>): (r: Option<nat>)
    ensures r.Some? ==> r.value < |s| && Matches(s[r.value], id, scope) && forall j :: 0 <= j < r.value ==> !Matches(s[j], id, scope)
    ensures r.None? ==> forall j :: 0 <= j < |s| ==> !Matches(s[j], id, scope)
  {
    if s == [] then None
    else if Matches(s[0], id, scope) then Some(0)
    else
      match Position(s[1..], id, scope)
      case None => None
      case Some(i) =>
        assert forall j :: 0 < j < |s| ==> s[j] == s[1..][j - 1];
        Some(i + 1)
  }

  /** The entries of all other sandboxes, in order. */
  function Others(s: Entries, sandbox: string): Entries {
    if s == [] then []
    else Others(s[..|s| - 1], sandbox) + if s[|s| - 1].sandbox == Some(sandbox) then [] else [s[|s| - 1]]
  }

  datatype Op =
    | Insert(entry: Entry, seen: seq<bool>, after: Entries)
    | RemoveById(id: string, scope: Option<string>)
    | RemoveForSandbox(sandbox: string)
    | Exits(after: Entries)

  ghost predicate Allowed(s: Entries, op: Op) {
    match op
    case Insert(e, seen, after) => Later(s + [e], after) && Witnessed(s + [e], seen, after)
    case RemoveById(_, _) => true
    case RemoveForSandbox(_) => true
    case Exits(after) => Later(s, after)
  }

  function Step(s: Entries, op: Op): Entries
    requires Allowed(s, op)
  {
    match op
    case Insert(_, seen, after) => Select(after, Staying(seen))
    case RemoveById(id, scope) =>
      (match Position(s, id, scope) case None => s case Some(i) => s[..i] + s[i + 1..])
    case RemoveForSandbox(sandbox) => Others(s, sandbox)
    case Exits(after) => after
  }

  // ---- the code ---------------------------------------------------------------------------

  function EntryOf(p: Proc): Entry
    reads p
  {
    Entry(p.id, p.sandbox, p.exited)
  }

  ghost function EntriesOf(procs: seq<Proc>): (s: Entries)
    reads procs
    ensures |s| == |procs|
  {
    seq(|procs|, i requires 0 <= i < |procs| reads procs => EntryOf(procs[i]))
  }

  class ProcRegistry {
    var procs: seq<Proc>
    var next: nat

    constructor ()
      ensures procs == [] && next == 0
    {
      procs, next := [], 0;
    }

    ghost function View(): Entries
      reads this, procs
    {
      EntriesOf(procs)
    }

    /** A fresh process id; the counter has 64 bits. */
    method AllocId() returns (id: string)
      modifies `next
      ensures id == "p-" + Print(old(next), 10) && next == (old(next) + 1) % U64
    {
      id := "p-" + Print(next, 10);
      next := (next + 1) % U64;
    }

    /** Any of the processes may exit here. */
    method Interfere(ps: seq<Proc>)
      modifies ps
      ensures forall p :: p in ps && old(p.exited) ==> p.exited
    {
      for i := 0 to |ps|
        invariant forall p :: p in ps && old(p.exited) ==> p.exited
      {
        if * {
          ps[i].exited := true;
        }
      }
    }

    /** Looks at the processes one by one; they go on exiting meanwhile. */
    method Scan(ps: seq<Proc>) returns (finished: seq<nat>, ghost seen: seq<bool>)
      modifies ps
      ensures Later(old(EntriesOf(ps)), EntriesOf(ps)) && Witnessed(old(EntriesOf(ps)), seen, EntriesOf(ps))
      ensures finished == Finished(seen, |seen|)
    {
      finished, seen := [], [];
      for i := 0 to |ps|
        invariant |seen| == i && finished == Finished(seen, i)
        invariant forall p :: p in ps && old(p.exited) ==> p.exited
        invariant forall j :: 0 <= j < i ==> (old(ps[j].exited) ==> seen[j]) && (seen[j] ==> ps[j].exited)
      {
        Interfere(ps);
        var exited := ps[i].exited;
        FinishedOfMore(seen, exited, i);
        seen := seen + [exited];
        if exited {
          finished := finished + [i];
        }
      }
    }

    /** Adds a process, and drops the oldest finished ones if there are more than 256. */
    method Insert(p: Proc) returns (ghost op: Op)
      modifies this`procs, procs, p
      ensures op.Insert? && op.entry == old(EntryOf(p))
      ensures Allowed(old(View()), op) && View() == Step(old(View()), op)
    {
      hide Later;
      hide Witnessed;
      hide Count;
      hide Survivors;
      hide Finished;
      ghost var start, entry := View(), EntryOf(p);
      procs := procs + [p];
      var all := procs;
      assert EntriesOf(all) == start + [entry];
      var finished;
      ghost var seen;
      finished, seen := Scan(all);
      ghost var after := EntriesOf(all);
      op := Op.Insert(entry, seen, after);
      assert Allowed(start, op);
      SeenOfEach(start + [entry], seen, after);
      FinishedAreCounted(seen, |seen|);
      assert seen[..|seen|] == seen;
      if |finished| > MAX_FINISHED {
        procs := Retain(all, finished, |finished| - MAX_FINISHED, seen);
      } else {
        NoneDropped(seen, |seen|);
      }
      assert procs == Select(all, Staying(seen));
      SelectedEntries(all, Staying(seen));
    }

    /** The index-counting `retain`: keeps every entry but those at the first `drop` indices. */
    static method Retain(procs: seq<Proc>, finished: seq<nat>, drop: nat, ghost seen: seq<bool>) returns (kept: seq<Proc>)
      requires |seen| == |procs| && finished == Finished(seen, |seen|) && drop <= |finished|
      ensures kept == Select(procs, Survivors(seen, drop, |seen|))
    {
      var doomed := set i | i in finished[..drop];
      kept := [];
      var index := 0;
      while index < |procs|
        invariant 0 <= index <= |procs|
        invariant kept == Select(procs, Survivors(seen, drop, index))
      {
        DoomedAreDropped(seen, drop, |seen|, index);
        if index !in doomed {
          kept := kept + [procs[index]];
        }
        index := index + 1;
      }
    }

    method RemoveById(id: string, scope: Option<string>) returns (removed: Option<Proc>)
      modifies `procs
      ensures View() == Step(old(View()), Op.RemoveById(id, scope))
      ensures match removed
        case None => procs == old(procs) && forall p :: p in procs ==> !Matches(EntryOf(p), id, scope)
        case Some(p) => p in old(procs) && Matches(EntryOf(p), id, scope)
    {
      hide Position;
      ghost var entries := View();
      var i := 0;
      while i < |procs| && !Matches(EntryOf(procs[i]), id, scope)
        invariant 0 <= i <= |procs|
        invariant forall j :: 0 <= j < i ==> !Matches(EntryOf(procs[j]), id, scope)
      {
        i := i + 1;
      }
      if i == |procs| {
        return None;
      }
      assert Position(entries, id, scope) == Some(i) by {
        assert Matches(entries[i], id, scope) && forall j :: 0 <= j < i ==> !Matches(entries[j], id, scope);
      }
      removed := Some(procs[i]);
      procs := procs[..i] + procs[i + 1..];
      assert View() == entries[..i] + entries[i + 1..];
    }

    method RemoveForSandbox(sandbox: string)
      modifies `procs
      ensures View() == Step(old(View()), Op.RemoveForSandbox(sandbox))
    {
      ghost var entries := View();
      var kept: seq<Proc> := [];
      for i := 0 to |procs|
        invariant procs == old(procs)
        invariant EntriesOf(kept) == Others(entries[..i], sandbox)
      {
        assert entries[..i + 1][..i] == entries[..i] && entries[..i + 1][i] == EntryOf(procs[i]);
        if procs[i].sandbox != Some(sandbox) {
          ghost var before := kept;
          kept := kept + [procs[i]];
          assert EntriesOf(kept) == EntriesOf(before) + [EntryOf(procs[i])];
        }
      }
      assert entries[..|entries|] == entries;
      procs := kept;
    }
  }

  lemma SeenOfEach(before: Entries, seen: seq<bool>, after: Entries)
    requires Witnessed(before, seen, after)
    ensures |seen| == |before|
  {
  }

  lemma SelectedEntries(procs: seq<Proc>, indices: seq<nat>)
    requires forall k :: 0 <= k < |indices| ==> indices[k] < |procs|
    ensures EntriesOf(Select(procs, indices)) == Select(EntriesOf(procs), indices)
  {
  }

  lemma {:induction false} FinishedOfMore(seen: seq<bool>, b: bool, n: nat)
    requires n <= |seen|
    ensures Finished(seen + [b], n) == Finished(seen, n)
  {
    if n > 0 {
      FinishedOfMore(seen, b, n - 1);
    }
  }

  // ---- all runs ---------------------------------------------------------------------------

  /** An insertion drops nothing that runs, and of the rest only the oldest: an entry is gone
      exactly if it was seen finished and fewer than the surplus were so before it. */
  lemma InsertDropsOldest(s: Entries, op: Op, i: nat)
    requires op.Insert? && Allowed(s, op) && i < |s| + 1
    ensures !op.after[i].exited ==> op.after[i] in Step(s, op)
    ensures i in Staying(op.seen) <==> !IsDropped(op.seen, Surplus(op.seen), i)
    ensures i !in Staying(op.seen) ==> forall j :: 0 <= j < i && op.seen[j] ==> j !in Staying(op.seen)
  {
    var kept := Staying(op.seen);
    SurvivorsAreRight(op.seen, Surplus(op.seen), |op.seen|);
    if !op.after[i].exited {
      assert i in kept;
      var k :| 0 <= k < |kept| && kept[k] == i;
      assert Step(s, op)[k] == op.after[i];
    }
    if i !in kept {
      forall j | 0 <= j < i && op.seen[j] ensures j !in kept {
        CountGrows(op.seen, j, i);
      }
    }
  }

  lemma {:induction false} CountGrows(seen: seq<bool>, j: nat, i: nat)
    requires j <= i <= |seen|
    ensures Count(seen[..j]) <= Count(seen[..i])
    decreases i
  {
    if j < i {
      CountGrows(seen, j, i - 1);
      assert seen[..i][..i - 1] == seen[..i - 1];
    }
  }

  lemma {:induction false} OthersAreOthers(s: Entries, sandbox: string)
    ensures forall e :: e in Others(s, sandbox) <==> e in s && e.sandbox != Some(sandbox)
  {
    if s != [] {
      OthersAreOthers(s[..|s| - 1], sandbox);
      assert s == s[..|s| - 1] + [s[|s| - 1]];
    }
  }

  /** A removal within a scope takes at most one entry, of that scope; all others stay as and
      where they were. */
  lemma ScopedRemoval(s: Entries, id: string, scope: string)
    ensures var after := Step(s, RemoveById(id, Some(scope)));
      || (after == s && forall e :: e in s ==> !(e.id == id && e.sandbox == Some(scope)))
      || exists i :: 0 <= i < |s| && s[i].id == id && s[i].sandbox == Some(scope) && after == s[..i] + s[i + 1..]
  {
  }

  /** What may end the entry of a running process: its exit, a removal that names it, or the
      deletion of its sandbox. Never an insertion. */
  predicate Spares(op: Op, e: Entry) {
    match op
    case Insert(_, _, after) => e in after
    case Exits(after) => e in after
    case RemoveById(id, scope) => !Matches(e, id, scope)
    case RemoveForSandbox(sandbox) => e.sandbox != Some(sandbox)
  }

  lemma RunningIsKept(s: Entries, op: Op, e: Entry)
    requires Allowed(s, op) && e in s && !e.exited && Spares(op, e)
    ensures e in Step(s, op)
  {
    match op {
      case Insert(entry, seen, after) =>
        var i :| 0 <= i < |after| && after[i] == e;
        InsertDropsOldest(s, op, i);
      case Exits(after) =>
      case RemoveById(id, scope) =>
        var found := Position(s, id, scope);
        if found.Some? {
          assert s == s[..found.value] + [s[found.value]] + s[found.value + 1..];
        }
      case RemoveForSandbox(sandbox) =>
        OthersAreOthers(s, sandbox);
    }
  }

  ghost predicate AllowedRun(s: Entries, ops: seq<Op>)
    decreases |ops|
  {
    ops == [] || (Allowed(s, ops[0]) && AllowedRun(Step(s, ops[0]), ops[1..]))
  }

  function Run(s: Entries, ops: seq<Op>): Entries
    requires AllowedRun(s, ops)
    decreases |ops|
  {
    if ops == [] then s else Run(Step(s, ops[0]), ops[1..])
  }

  /** In every run a running process stays registered until it exits, is removed by name, or its
      sandbox goes, however many processes are inserted. */
  lemma {:induction false} RunningStays(s: Entries, ops: seq<Op>, e: Entry)
    requires AllowedRun(s, ops) && e in s && !e.exited
    requires forall op :: op in ops ==> Spares(op, e)
    ensures e in Run(s, ops)
    decreases |ops|
  {
    if ops != [] {
      RunningIsKept(s, ops[0], e);
      RunningStays(Step(s, ops[0]), ops[1..], e);
    }
  }

  ghost predicate DistinctIds(s: Entries) {
    forall i, j :: 0 <= i < j < |s| ==> s[i].id != s[j].id
  }

  /** Ids stay distinct as long as each new process comes with a fresh one. */
  lemma DistinctKept(s: Entries, op: Op)
    requires Allowed(s, op) && DistinctIds(s)
    requires op.Insert? ==> forall e :: e in s ==> e.id != op.entry.id
    ensures DistinctIds(Step(s, op))
  {
    match op {
      case Insert(entry, seen, after) =>
        SurvivorsAreRight(seen, Surplus(seen), |seen|);
        assert forall i :: 0 <= i < |after| ==> after[i].id == (s + [entry])[i].id;
        assert DistinctIds(after);
      case Exits(after) =>
      case RemoveById(id, scope) =>
      case RemoveForSandbox(sandbox) => OthersAreDistinct(s, sandbox);
    }
  }

  lemma {:induction false} OthersAreDistinct(s: Entries, sandbox: string)
    requires DistinctIds(s)
    ensures DistinctIds(Others(s, sandbox))
  {
    if s != [] {
      var front := s[..|s| - 1];
      OthersAreDistinct(front, sandbox);
      OthersAreOthers(front, sandbox);
    }
  }

  /** The id that the k-th allocation gives. */
  function IdOf(first: nat, k: nat): string {
    "p-" + Print((first + k) % U64, 10)
  }

  /** Two allocations give the same id if and only if a multiple of 2^64 lies between them; so
      any 2^64 in a row are distinct. */
  lemma AllocatedIds(first: nat, j: nat, k: nat)
    ensures IdOf(first, j) == IdOf(first, k) <==> (first + j) % U64 == (first + k) % U64
    ensures j < k < j + U64 ==> IdOf(first, j) != IdOf(first, k)
  {
    var a, b := (first + j) % U64, (first + k) % U64;
    ReadPrint(a, 10);
    ReadPrint(b, 10);
    assert IdOf(first, j)[2..] == Print(a, 10) && IdOf(first, k)[2..] == Print(b, 10);
  }
}
