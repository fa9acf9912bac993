/** Directory trees as they are when nobody interferes: what lies below a directory, and what is
    left when a part of it is removed. */
module Trees {
  import opened Wrappers
  import opened Inodes
  import opened Paths

  type Nodes = map<Ino, Inode>

  ghost predicate Child(nodes: Nodes, p: Ino, n: string, c: Ino) {
    IsDir(nodes, p) && n in nodes[p].entries && nodes[p].entries[n] == c && IsDir(nodes, c)
  }

  /** No directory lies below itself: `rank` falls from each directory to those in it. */
  ghost predicate Ranked(nodes: Nodes, rank: Ino -> nat) {
    forall p, n, c :: Child(nodes, p, n, c) ==> rank(c) < rank(p)
  }

  /** No directory hangs in two places. */
  ghost predicate Tree(nodes: Nodes) {
    forall p, n, q, m, c :: Child(nodes, p, n, c) && Child(nodes, q, m, c) ==> p == q && n == m
  }

  /** A directory and all directories below it. */
  ghost function Below(nodes: Nodes, rank: Ino -> nat, d: Ino): set<Ino>
    requires Ranked(nodes, rank) && IsDir(nodes, d)
    decreases rank(d)
  {
    {d} + set n, x | n in nodes[d].entries && Child(nodes, d, n, nodes[d].entries[n])
                     && x in Below(nodes, rank, nodes[d].entries[n]) :: x
  }

  /** The directories of a set emptied; everything else as it was. */
  function Emptied(nodes: Nodes, ds: set<Ino>): Nodes {
    map i | i in nodes :: if i in ds && nodes[i].Directory? then nodes[i].(entries := map[]) else nodes[i]
  }

  /** b is a with some entries missing. */
  ghost predicate Fewer(a: Nodes, b: Nodes) {
    && a.Keys == b.Keys
    && (forall i :: i in a ==> a[i].Directory? == b[i].Directory?)
    && (forall i, n :: IsDir(b, i) && n in b[i].entries ==> n in a[i].entries && b[i].entries[n] == a[i].entries[n])
  }

  lemma FewerIsTree(a: Nodes, b: Nodes, rank: Ino -> nat)
    requires Fewer(a, b) && Ranked(a, rank) && Tree(a)
    ensures Ranked(b, rank) && Tree(b)
  {
    forall p, n, c | Child(b, p, n, c) ensures Child(a, p, n, c) {
    }
  }

  lemma {:induction false} BelowIsLower(nodes: Nodes, rank: Ino -> nat, d: Ino, x: Ino)
    requires Ranked(nodes, rank) && IsDir(nodes, d) && x in Below(nodes, rank, d)
    ensures IsDir(nodes, x) && rank(x) <= rank(d) && (x != d ==> rank(x) < rank(d))
    decreases rank(d)
  {
    if x != d {
      var n :| n in nodes[d].entries && Child(nodes, d, n, nodes[d].entries[n])
               && x in Below(nodes, rank, nodes[d].entries[n]);
      assert Child(nodes, d, n, nodes[d].entries[n]);
      BelowIsLower(nodes, rank, nodes[d].entries[n], x);
    }
  }

  lemma {:induction false} ParentIsBelow(nodes: Nodes, rank: Ino -> nat, d: Ino, y: Ino) returns (q: Ino, m: string)
    requires Ranked(nodes, rank) && IsDir(nodes, d) && y in Below(nodes, rank, d) && y != d
    ensures q in Below(nodes, rank, d) && Child(nodes, q, m, y)
    decreases rank(d)
  {
    var n :| n in nodes[d].entries && Child(nodes, d, n, nodes[d].entries[n])
             && y in Below(nodes, rank, nodes[d].entries[n]);
    var c := nodes[d].entries[n];
    assert Child(nodes, d, n, c);
    if y == c {
      q, m := d, n;
    } else {
      q, m := ParentIsBelow(nodes, rank, c, y);
    }
  }

  lemma ChildIsBelow(nodes: Nodes, rank: Ino -> nat, d: Ino, n: string, c: Ino, x: Ino)
    requires Ranked(nodes, rank) && Child(nodes, d, n, c) && x in Below(nodes, rank, c)
    ensures x in Below(nodes, rank, d)
  {
  }

  /** Two subtrees that share a directory are one inside the other. */
  lemma {:induction false} Nested(nodes: Nodes, rank: Ino -> nat, a: Ino, b: Ino, x: Ino)
    requires Ranked(nodes, rank) && Tree(nodes) && IsDir(nodes, a) && IsDir(nodes, b)
    requires x in Below(nodes, rank, a) && x in Below(nodes, rank, b)
    ensures a in Below(nodes, rank, b) || b in Below(nodes, rank, a)
    decreases rank(a)
  {
    if x != a {
      var n :| n in nodes[a].entries && Child(nodes, a, n, nodes[a].entries[n])
               && x in Below(nodes, rank, nodes[a].entries[n]);
      var c := nodes[a].entries[n];
      assert Child(nodes, a, n, c);
      Nested(nodes, rank, c, b, x);
      if b in Below(nodes, rank, c) {
        ChildIsBelow(nodes, rank, a, n, c, b);
      } else if c == b {
        ChildIsBelow(nodes, rank, a, n, c, b);
      } else {
        var q, m := ParentIsBelow(nodes, rank, b, c);
      }
    }
  }

  lemma SiblingIsApart(nodes: Nodes, rank: Ino -> nat, d: Ino, n1: string, c1: Ino, n2: string, c2: Ino)
    requires Ranked(nodes, rank) && Tree(nodes) && Child(nodes, d, n1, c1) && Child(nodes, d, n2, c2) && n1 != n2
    ensures c1 !in Below(nodes, rank, c2)
  {
    if c1 in Below(nodes, rank, c2) {
      if c1 != c2 {
        var q, m := ParentIsBelow(nodes, rank, c2, c1);
        BelowIsLower(nodes, rank, c2, q);
      }
    }
  }

  /** The subtrees of one directory have nothing in common. */
  lemma SiblingsAreApart(nodes: Nodes, rank: Ino -> nat, d: Ino, n1: string, c1: Ino, n2: string, c2: Ino)
    requires Ranked(nodes, rank) && Tree(nodes) && Child(nodes, d, n1, c1) && Child(nodes, d, n2, c2) && n1 != n2
    ensures Below(nodes, rank, c1) !! Below(nodes, rank, c2)
  {
    forall x | x in Below(nodes, rank, c1) && x in Below(nodes, rank, c2) ensures false {
      Nested(nodes, rank, c1, c2, x);
      SiblingIsApart(nodes, rank, d, n1, c1, n2, c2);
      SiblingIsApart(nodes, rank, d, n2, c2, n1, c1);
    }
  }

  /** What lies below a directory depends on those directories only. */
  lemma {:induction false} BelowStays(a: Nodes, b: Nodes, rank: Ino -> nat, d: Ino)
    requires Ranked(a, rank) && Ranked(b, rank) && IsDir(a, d) && Fewer(a, b)
    requires forall i :: i in Below(a, rank, d) ==> i in b && b[i] == a[i]
    ensures Below(b, rank, d) == Below(a, rank, d)
    decreases rank(d), 1
  {
    assert d in Below(a, rank, d);
    forall n | n in a[d].entries && IsDir(a, a[d].entries[n])
      ensures Child(a, d, n, a[d].entries[n]) && Child(b, d, n, a[d].entries[n])
      ensures Below(b, rank, a[d].entries[n]) == Below(a, rank, a[d].entries[n])
    {
      hide Below;
      assert Child(a, d, n, a[d].entries[n]) && Child(b, d, n, a[d].entries[n]);
      BelowStaysAt(a, b, rank, d, n);
    }
    SameBelow(a, b, rank, d);
  }

  lemma {:induction false} BelowStaysAt(a: Nodes, b: Nodes, rank: Ino -> nat, d: Ino, n: string)
    requires Ranked(a, rank) && Ranked(b, rank) && IsDir(a, d) && Fewer(a, b)
    requires forall i :: i in Below(a, rank, d) ==> i in b && b[i] == a[i]
    requires n in a[d].entries && Child(a, d, n, a[d].entries[n])
    ensures IsDir(b, a[d].entries[n]) && Below(b, rank, a[d].entries[n]) == Below(a, rank, a[d].entries[n])
    decreases rank(d), 0
  {
    var c := a[d].entries[n];
    forall i | i in Below(a, rank, c) ensures i in b && b[i] == a[i] {
      ChildIsBelow(a, rank, d, n, c, i);
    }
    BelowStays(a, b, rank, c);
  }

  lemma SameBelow(a: Nodes, b: Nodes, rank: Ino -> nat, d: Ino)
    requires Ranked(a, rank) && Ranked(b, rank) && IsDir(a, d) && d in b && b[d] == a[d] && Fewer(a, b)
    requires forall n :: n in a[d].entries && IsDir(a, a[d].entries[n]) ==>
               Below(b, rank, a[d].entries[n]) == Below(a, rank, a[d].entries[n])
    ensures Below(b, rank, d) == Below(a, rank, d)
  {
  }

  // ---- directory by directory ------------------------------------------------------------

  /** Everything below the directories of d with these names. */
  ghost function Gone(nodes: Nodes, rank: Ino -> nat, d: Ino, names: seq<string>): set<Ino>
    requires Ranked(nodes, rank) && IsDir(nodes, d) && AllChildren(nodes, d, names)
  {
    if names == [] then {}
    else
      var last := names[|names| - 1];
      assert Child(nodes, d, last, nodes[d].entries[last]);
      Gone(nodes, rank, d, names[..|names| - 1]) + Below(nodes, rank, nodes[d].entries[last])
  }

  ghost predicate AllChildren(nodes: Nodes, d: Ino, names: seq<string>)
    requires IsDir(nodes, d)
  {
    forall n :: n in names ==> n in nodes[d].entries && Child(nodes, d, n, nodes[d].entries[n])
  }

  /** The second pass part of the way: some subtrees are empty and their entries gone, `rest` are
      still there. */
  ghost function Partly(nodes: Nodes, d: Ino, gone: set<Ino>, rest: seq<string>): Nodes
    requires IsDir(nodes, d)
  {
    SetEntries(Emptied(nodes, gone), d, map n | n in nodes[d].entries && n in rest :: nodes[d].entries[n])
  }

  lemma {:induction false} InGone(nodes: Nodes, rank: Ino -> nat, d: Ino, names: seq<string>, x: Ino) returns (n: string)
    requires Ranked(nodes, rank) && IsDir(nodes, d) && AllChildren(nodes, d, names) && x in Gone(nodes, rank, d, names)
    ensures n in names && n in nodes[d].entries && Child(nodes, d, n, nodes[d].entries[n])
    ensures x in Below(nodes, rank, nodes[d].entries[n])
  {
    n := names[|names| - 1];
    assert Child(nodes, d, n, nodes[d].entries[n]);
    if x !in Below(nodes, rank, nodes[d].entries[n]) {
      n := InGone(nodes, rank, d, names[..|names| - 1], x);
    }
  }

  lemma {:induction false} GoneHolds(nodes: Nodes, rank: Ino -> nat, d: Ino, names: seq<string>, n: string)
    requires Ranked(nodes, rank) && IsDir(nodes, d) && AllChildren(nodes, d, names) && n in names
    ensures Child(nodes, d, n, nodes[d].entries[n]) && Below(nodes, rank, nodes[d].entries[n]) <= Gone(nodes, rank, d, names)
  {
    if n != names[|names| - 1] {
      GoneHolds(nodes, rank, d, names[..|names| - 1], n);
    }
  }

  /** The subtree of the next name is as it was at the beginning: the ones before did not reach
      into it, nor up to d. */
  lemma NextIsUntouched(nodes: Nodes, rank: Ino -> nat, d: Ino, done: seq<string>, name: string, rest: seq<string>)
    requires Ranked(nodes, rank) && Tree(nodes) && IsDir(nodes, d)
    requires AllChildren(nodes, d, done) && name in nodes[d].entries && Child(nodes, d, name, nodes[d].entries[name])
    requires name !in done
    ensures var now, c := Partly(nodes, d, Gone(nodes, rank, d, done), [name] + rest), nodes[d].entries[name];
      && Ranked(now, rank) && Tree(now) && Child(now, d, name, c) && now[d].entries[name] == c
      && Below(now, rank, c) == Below(nodes, rank, c)
      && rank(c) < rank(d)
  {
    var gone, c := Gone(nodes, rank, d, done), nodes[d].entries[name];
    var now := Partly(nodes, d, gone, [name] + rest);
    assert Fewer(nodes, now);
    FewerIsTree(nodes, now, rank);
    forall i | i in Below(nodes, rank, c) ensures i in now && now[i] == nodes[i] {
      BelowIsLower(nodes, rank, c, i);
      if i in gone {
        var n := InGone(nodes, rank, d, done, i);
        SiblingsAreApart(nodes, rank, d, n, nodes[d].entries[n], name, c);
      }
    }
    BelowStays(nodes, now, rank, c);
  }

  lemma GoneMore(nodes: Nodes, rank: Ino -> nat, d: Ino, done: seq<string>, name: string)
    requires Ranked(nodes, rank) && IsDir(nodes, d)
    requires AllChildren(nodes, d, done) && name in nodes[d].entries && Child(nodes, d, name, nodes[d].entries[name])
    ensures AllChildren(nodes, d, done + [name])
    ensures Gone(nodes, rank, d, done + [name]) == Gone(nodes, rank, d, done) + Below(nodes, rank, nodes[d].entries[name])
  {
    hide Below;
    assert (done + [name])[..|done|] == done;
  }

  lemma DropNext(nodes: Nodes, d: Ino, gone: set<Ino>, subtree: set<Ino>, name: string, rest: seq<string>)
    requires IsDir(nodes, d) && d !in subtree && name in nodes[d].entries && name !in rest
    ensures var after := Emptied(Partly(nodes, d, gone, [name] + rest), subtree);
      && IsDir(after, d) && name in after[d].entries && after[d].entries[name] == nodes[d].entries[name]
      && Drop(after, d, name) == Partly(nodes, d, gone + subtree, rest)
  {
    var after := Emptied(Partly(nodes, d, gone, [name] + rest), subtree);
    assert Drop(after, d, name)[d].entries == Partly(nodes, d, gone + subtree, rest)[d].entries;
  }

  /** Emptying it and dropping its entry takes the pass one name further. */
  lemma NextIsRemoved(nodes: Nodes, rank: Ino -> nat, d: Ino, done: seq<string>, name: string, rest: seq<string>)
    requires Ranked(nodes, rank) && Tree(nodes) && IsDir(nodes, d)
    requires AllChildren(nodes, d, done) && name in nodes[d].entries && Child(nodes, d, name, nodes[d].entries[name])
    requires name !in done && name !in rest
    ensures AllChildren(nodes, d, done + [name])
    ensures var now, c := Partly(nodes, d, Gone(nodes, rank, d, done), [name] + rest), nodes[d].entries[name];
      var after := Emptied(now, Below(nodes, rank, c));
      && IsDir(after, d) && name in after[d].entries && after[d].entries[name] == c
      && IsDir(after, c) && after[c].entries == map[]
      && Drop(after, d, name) == Partly(nodes, d, Gone(nodes, rank, d, done + [name]), rest)
  {
    var c := nodes[d].entries[name];
    var subtree := Below(nodes, rank, c);
    assert c in subtree;
    hide Below;
    hide Gone;
    if d in subtree {
      BelowIsLower(nodes, rank, c, d);
    }
    DropNext(nodes, d, Gone(nodes, rank, d, done), subtree, name, rest);
    GoneMore(nodes, rank, d, done, name);
  }

  /** When no name is left, everything below d is empty. */
  lemma AllRemoved(nodes: Nodes, rank: Ino -> nat, d: Ino, names: seq<string>)
    requires Ranked(nodes, rank) && IsDir(nodes, d) && AllChildren(nodes, d, names)
    requires forall n :: n in nodes[d].entries && IsDir(nodes, nodes[d].entries[n]) ==> n in names
    ensures Partly(nodes, d, Gone(nodes, rank, d, names), []) == Emptied(nodes, Below(nodes, rank, d))
  {
    var gone := Gone(nodes, rank, d, names);
    forall x ensures x in gone + {d} <==> x in Below(nodes, rank, d) {
      if x in gone {
        var n := InGone(nodes, rank, d, names, x);
        ChildIsBelow(nodes, rank, d, n, nodes[d].entries[n], x);
      }
      if x in Below(nodes, rank, d) && x != d {
        var n :| n in nodes[d].entries && Child(nodes, d, n, nodes[d].entries[n]) && x in Below(nodes, rank, nodes[d].entries[n]);
        GoneHolds(nodes, rank, d, names, n);
      }
    }
  }

  // ---- deletion -------------------------------------------------------------------------

  /** What deleting the entry at a path leaves: the entry is gone, and with a directory everything
      below it. The root itself is not deleted, and a directory that is not empty only if asked. */
  ghost function AfterDelete(nodes: Nodes, rank: Ino -> nat, home: Ino, names: seq<string>, recursive: bool): Result<Nodes, Errno>
    requires Ranked(nodes, rank) && IsDir(nodes, home)
  {
    if names == [] then Err(NotPermitted)
    else
      match WalkDown(nodes, home, FrontOf(names))
      case Err(e) => Err(e)
      case Ok(p) =>
        var name := names[|names| - 1];
        match Opened(nodes, p, name, ForPath)
        case Err(e) => Err(e)
        case Ok(i) =>
          if !IsDir(nodes, i) then Ok(Drop(nodes, p, name))
          else if recursive then Ok(Drop(Emptied(nodes, Below(nodes, rank, i)), p, name))
          else if nodes[i].entries != map[] then Err(NotEmpty)
          else Ok(Drop(nodes, p, name))
  }

  // ---- every other path stays ------------------------------------------------------------

  lemma {:induction false} WalkMore(nodes: Nodes, d: Ino, names: seq<string>, n: string)
    requires IsDir(nodes, d)
    ensures WalkDown(nodes, d, names + [n]) ==
      match WalkDown(nodes, d, names)
      case Err(e) => Err(e)
      case Ok(x) => Opened(nodes, x, n, ForDirectory)
    decreases |names|
  {
    if names == [] {
      assert (names + [n])[1..] == [] && names + [n] == [n];
    } else {
      assert (names + [n])[1..] == names[1..] + [n];
      var next := Opened(nodes, d, names[0], ForDirectory);
      if next.Ok? {
        WalkMore(nodes, next.value, names[1..], n);
      }
    }
  }

  lemma WalkLast(nodes: Nodes, d: Ino, names: seq<string>) returns (p: Ino)
    requires IsDir(nodes, d) && AllNames(names) && names != [] && WalkDown(nodes, d, names).Ok?
    ensures WalkDown(nodes, d, FrontOf(names)) == Ok(p)
    ensures Child(nodes, p, names[|names| - 1], WalkDown(nodes, d, names).value)
  {
    var front, n := FrontOf(names), names[|names| - 1];
    assert names == front + [n] && IsName(n);
    WalkMore(nodes, d, front, n);
    p := WalkDown(nodes, d, front).value;
  }

  lemma {:induction false} WalkGoesDown(nodes: Nodes, rank: Ino -> nat, d: Ino, names: seq<string>)
    requires Ranked(nodes, rank) && IsDir(nodes, d) && AllNames(names) && WalkDown(nodes, d, names).Ok?
    ensures rank(WalkDown(nodes, d, names).value) <= rank(d)
    ensures names != [] ==> rank(WalkDown(nodes, d, names).value) < rank(d)
    decreases |names|
  {
    if names != [] {
      var p := WalkLast(nodes, d, names);
      WalkGoesDown(nodes, rank, d, FrontOf(names));
    }
  }

  /** One path leads to each directory. */
  lemma {:induction false} OnePathOnly(nodes: Nodes, rank: Ino -> nat, home: Ino, a: seq<string>, b: seq<string>)
    requires Ranked(nodes, rank) && Tree(nodes) && IsDir(nodes, home) && AllNames(a) && AllNames(b)
    requires WalkDown(nodes, home, a).Ok? && WalkDown(nodes, home, a) == WalkDown(nodes, home, b)
    ensures a == b
    decreases |a|
  {
    WalkGoesDown(nodes, rank, home, a);
    WalkGoesDown(nodes, rank, home, b);
    if a != [] && b != [] {
      var p := WalkLast(nodes, home, a);
      var q := WalkLast(nodes, home, b);
      OnePathOnly(nodes, rank, home, FrontOf(a), FrontOf(b));
      assert a == FrontOf(a) + [a[|a| - 1]] && b == FrontOf(b) + [b[|b| - 1]];
    }
  }

  /** A path into a subtree goes through the top of it. */
  lemma {:induction false} ThroughTheTop(nodes: Nodes, rank: Ino -> nat, home: Ino, top: seq<string>, names: seq<string>)
    requires Ranked(nodes, rank) && Tree(nodes) && IsDir(nodes, home) && AllNames(top) && AllNames(names)
    requires WalkDown(nodes, home, top).Ok? && WalkDown(nodes, home, names).Ok?
    requires WalkDown(nodes, home, names).value in Below(nodes, rank, WalkDown(nodes, home, top).value)
    ensures top <= names
    decreases |names|
  {
    var i, x := WalkDown(nodes, home, top).value, WalkDown(nodes, home, names).value;
    if x == i {
      OnePathOnly(nodes, rank, home, top, names);
    } else {
      BelowIsLower(nodes, rank, i, x);
      WalkGoesDown(nodes, rank, home, top);
      var q, m := ParentIsBelow(nodes, rank, i, x);
      if names != [] {
        var p := WalkLast(nodes, home, names);
        ThroughTheTop(nodes, rank, home, top, FrontOf(names));
      }
    }
  }

  /** A walk that does not meet a changed entry goes as it did before. */
  lemma {:induction false} SameWalk(a: Nodes, b: Nodes, home: Ino, names: seq<string>)
    requires IsDir(a, home) && IsDir(b, home) && AllNames(names)
    requires forall i :: i in a <==> i in b
    requires forall i :: i in a ==> a[i].Directory? == b[i].Directory? && a[i].Symlink? == b[i].Symlink?
    requires forall k :: 0 <= k < |names| && WalkDown(a, home, names[..k]).Ok? ==>
               SameEntry(a, b, WalkDown(a, home, names[..k]).value, names[k])
    ensures WalkDown(b, home, names) == WalkDown(a, home, names)
    decreases |names|
  {
    if names != [] {
      hide WalkDown;
      hide Opened;
      var front, n := FrontOf(names), names[|names| - 1];
      assert names == front + [n] && IsName(n);
      forall k | 0 <= k < |front| && WalkDown(a, home, front[..k]).Ok?
        ensures SameEntry(a, b, WalkDown(a, home, front[..k]).value, front[k]) {
        assert front[..k] == names[..k];
      }
      SameWalk(a, b, home, front);
      WalkMore(a, home, front, n);
      WalkMore(b, home, front, n);
      assert names[..|front|] == front;
      if WalkDown(a, home, front).Ok? {
        SameOpening(a, b, WalkDown(a, home, front).value, n);
      }
    }
  }

  lemma SameOpening(a: Nodes, b: Nodes, x: Ino, n: string)
    requires SameEntry(a, b, x, n)
    requires forall i :: i in a <==> i in b
    requires forall i :: i in a ==> a[i].Directory? == b[i].Directory? && a[i].Symlink? == b[i].Symlink?
    ensures Opened(a, x, n, ForDirectory) == Opened(b, x, n, ForDirectory)
  {
  }

  ghost predicate SameEntry(a: Nodes, b: Nodes, x: Ino, n: string) {
    IsDir(a, x) && IsDir(b, x) && Lookup(a, x, n) == Lookup(b, x, n)
  }

  /** Deleting leaves every other entry as it was: an entry under any other path, unless it lies
      below the deleted one, is found where it was found before. */
  lemma OtherEntriesStay(nodes: Nodes, rank: Ino -> nat, home: Ino, names: seq<string>, recursive: bool,
                         dir: seq<string>, n: string)
    requires Ranked(nodes, rank) && Tree(nodes) && IsDir(nodes, home) && AllNames(names) && AllNames(dir) && IsName(n)
    requires AfterDelete(nodes, rank, home, names, recursive).Ok?
    requires WalkDown(nodes, home, dir).Ok? && !(names <= dir + [n])
    ensures SameEntry(nodes, AfterDelete(nodes, rank, home, names, recursive).value, WalkDown(nodes, home, dir).value, n)
  {
    hide WalkDown;
    hide Below;
    hide Ranked;
    hide Tree;
    var x := WalkDown(nodes, home, dir).value;
    var front, name := FrontOf(names), names[|names| - 1];
    var p := WalkDown(nodes, home, front).value;
    var i := Opened(nodes, p, name, ForPath).value;
    assert names == front + [name] && IsName(name);
    if x == p && n == name {
      OnePathOnly(nodes, rank, home, front, dir);
    }
    if IsDir(nodes, i) && x in Below(nodes, rank, i) {
      WalkMore(nodes, home, front, name);
      ThroughTheTop(nodes, rank, home, names, dir);
      assert false;
    }
  }

  /** And so every path that does not lead through the deleted entry still leads where it led. */
  lemma OtherPathsStay(nodes: Nodes, rank: Ino -> nat, home: Ino, names: seq<string>, recursive: bool, path: seq<string>)
    requires Ranked(nodes, rank) && Tree(nodes) && IsDir(nodes, home) && AllNames(names) && AllNames(path)
    requires AfterDelete(nodes, rank, home, names, recursive).Ok? && !(names <= path)
    ensures IsDir(AfterDelete(nodes, rank, home, names, recursive).value, home)
    ensures WalkDown(AfterDelete(nodes, rank, home, names, recursive).value, home, path) == WalkDown(nodes, home, path)
  {
    var after := AfterDelete(nodes, rank, home, names, recursive).value;
    forall k | 0 <= k < |path| && WalkDown(nodes, home, path[..k]).Ok?
      ensures SameEntry(nodes, after, WalkDown(nodes, home, path[..k]).value, path[k])
    {
      assert path[..k] + [path[k]] == path[..k + 1] <= path;
      OtherEntriesStay(nodes, rank, home, names, recursive, path[..k], path[k]);
    }
    SameWalk(nodes, after, home, path);
  }

  /** The deleted entry is gone; nothing that is no directory changed, whatever led to it; and
      below a deleted directory nothing is left. */
  lemma DeletedIsGone(nodes: Nodes, rank: Ino -> nat, home: Ino, names: seq<string>, recursive: bool)
    requires Ranked(nodes, rank) && IsDir(nodes, home) && AllNames(names)
    requires AfterDelete(nodes, rank, home, names, recursive).Ok?
    ensures var after := AfterDelete(nodes, rank, home, names, recursive).value;
      var p, name := WalkDown(nodes, home, FrontOf(names)).value, names[|names| - 1];
      && IsDir(after, p) && Lookup(after, p, name) == None && Lookup(nodes, p, name).Some?
      && after.Keys == nodes.Keys
      && (forall i :: i in nodes && !nodes[i].Directory? ==> after[i] == nodes[i])
      && (IsDir(nodes, Lookup(nodes, p, name).value) ==>
            forall i :: i in Below(nodes, rank, Lookup(nodes, p, name).value) && i != p ==> IsDir(after, i) && after[i].entries == map[])
  {
    var p, name := WalkDown(nodes, home, FrontOf(names)).value, names[|names| - 1];
    assert IsName(name);
    var i := Lookup(nodes, p, name).value;
    if IsDir(nodes, i) {
      forall x | x in Below(nodes, rank, i) ensures IsDir(nodes, x) && (nodes[i].entries == map[] ==> x == i) {
        BelowIsLower(nodes, rank, i, x);
      }
    }
  }
}
