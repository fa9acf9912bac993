/** Making missing directories along a path (src/fsutil.rs, `locate` and `mkdir_all`), when nobody
    interferes: what one step does, and when a whole path can be made. */
module Making {
  import opened Wrappers
  import opened Paths
  import opened Inodes
  import opened Trees

  /** A new, empty directory hangs in d under this name. */
  predicate NewDir(a: Nodes, b: Nodes, d: Ino, name: string, i: Ino, owner: nat) {
    IsDir(a, d) && i !in a && b == Enter(a[i := Directory(map[], d, owner)], d, name, i)
  }

  /** The name is free, or leads to a directory. */
  predicate Passable(nodes: Nodes, d: Ino, name: string)
    requires IsDir(nodes, d)
  {
    && !HasNul(name)
    && match Lookup(nodes, d, name)
       case None => true
       case Some(i) => IsDir(nodes, i)
  }

  /** A path can be made: no name has a NUL, and none of its prefixes leads to an entry that is no
      directory. */
  ghost predicate CanMake(nodes: Nodes, d: Ino, names: seq<string>)
    requires IsDir(nodes, d)
  {
    forall k :: 0 <= k < |names| ==>
      !HasNul(names[k]) && (WalkDown(nodes, d, names[..k]).Ok? ==> Passable(nodes, WalkDown(nodes, d, names[..k]).value, names[k]))
  }

  /** One name further down, r is what is opened: a directory that was there or is new, and belongs
      to uid now; or the name is not passable, and nothing changes. */
  ghost predicate Stepped(a: Nodes, b: Nodes, d: Ino, name: string, r: Result<Ino, Errno>, uid: nat) {
    && IsDir(a, d) && (r.Ok? <==> Passable(a, d, name))
    && match r
       case Err(_) => b == a
       case Ok(i) =>
         match Lookup(a, d, name)
         case None => NewDir(a, b, d, name, i, uid)
         case Some(j) => i == j && IsDir(a, i) && b == a[i := SetOwner(a[i], uid)]
  }

  /** What is new from a to b are directories of uid; a directory that was there changes its owner to
      uid if at all. */
  ghost predicate MadeOnly(a: Nodes, b: Nodes, uid: nat) {
    && (forall i :: i in b && i !in a ==> b[i].Directory? && b[i].owner == uid)
    && (forall i, n :: IsDir(b, i) && n in b[i].entries && !(IsDir(a, i) && n in a[i].entries) ==>
          IsDir(b, b[i].entries[n]) && b[i].entries[n] !in a)
    && (forall i :: IsDir(a, i) && IsDir(b, i) ==> b[i].owner == a[i].owner || b[i].owner == uid)
  }

  lemma NothingMade(a: Nodes, uid: nat)
    ensures MadeOnly(a, a, uid) && Grown(a, a)
  {
  }

  lemma NewDirIsGrown(a: Nodes, b: Nodes, d: Ino, name: string, i: Ino, owner: nat)
    requires NewDir(a, b, d, name, i, owner) && Lookup(a, d, name).None?
    ensures Grown(a, b)
  {
  }

  lemma SteppedIsGrown(a: Nodes, b: Nodes, d: Ino, name: string, r: Result<Ino, Errno>, uid: nat)
    requires Stepped(a, b, d, name, r, uid)
    ensures Grown(a, b) && MadeOnly(a, b, uid)
  {
  }

  lemma MadeBoth(a: Nodes, b: Nodes, c: Nodes, uid: nat)
    requires Grown(a, b) && Grown(b, c) && MadeOnly(a, b, uid) && MadeOnly(b, c, uid)
    ensures MadeOnly(a, c, uid)
  {
    forall i, n | IsDir(c, i) && n in c[i].entries && !(IsDir(a, i) && n in a[i].entries)
      ensures IsDir(c, c[i].entries[n]) && c[i].entries[n] !in a {
      if IsDir(b, i) && n in b[i].entries {
        assert IsDir(b, b[i].entries[n]);
      }
    }
  }

  // ---- a path ---------------------------------------------------------------------------

  /** i is one of the directories down the path. */
  ghost predicate OnPath(nodes: Nodes, d: Ino, names: seq<string>, i: Ino)
    requires IsDir(nodes, d)
  {
    exists k :: 0 < k <= |names| && WalkDown(nodes, d, names[..k]) == Ok(i)
  }

  /** Every directory on the path, but for the one where it starts, belongs to uid. */
  ghost predicate OwnedAlong(nodes: Nodes, d: Ino, names: seq<string>, uid: nat)
    requires IsDir(nodes, d)
  {
    forall k :: 0 < k <= |names| ==>
      WalkDown(nodes, d, names[..k]).Ok? && nodes[WalkDown(nodes, d, names[..k]).value].owner == uid
  }

  /** The path was made from a to b and leads to p: nothing is lost, what is new are directories on
      the path, and all directories on it are uid's. Either nothing is new, or p is, and is empty. */
  ghost predicate Along(a: Nodes, b: Nodes, d: Ino, names: seq<string>, p: Ino, uid: nat) {
    && IsDir(a, d) && IsDir(b, d) && Grown(a, b) && MadeOnly(a, b, uid)
    && WalkDown(b, d, names) == Ok(p)
    && (forall i :: i in b && i !in a ==> OnPath(b, d, names, i))
    && OwnedAlong(b, d, names, uid)
    && (b.Keys == a.Keys || (p !in a && b[p].entries == map[]))
  }

  lemma AlongNothing(a: Nodes, d: Ino, uid: nat)
    requires IsDir(a, d)
    ensures Along(a, a, d, [], d, uid)
  {
    NothingMade(a, uid);
  }

  lemma PrefixOf(names: seq<string>, n: string, k: nat)
    requires k <= |names|
    ensures (names + [n])[..k] == names[..k]
  {
  }

  /** Where the path led before the step it leads after it. */
  lemma WalkedOn(b: Nodes, c: Nodes, d: Ino, names: seq<string>, name: string, p: Ino, i: Ino)
    requires IsDir(b, d) && Grown(b, c) && WalkDown(b, d, names) == Ok(p)
    requires IsDir(c, p) && Opened(c, p, name, ForDirectory) == Ok(i)
    ensures IsDir(c, d) && WalkDown(c, d, names + [name]) == Ok(i)
  {
    WalkGrows(b, c, d, names);
    WalkMore(c, d, names, name);
  }

  lemma SteppedIsOpen(b: Nodes, c: Nodes, p: Ino, name: string, i: Ino, uid: nat)
    requires Stepped(b, c, p, name, Ok(i), uid) && IsName(name)
    ensures IsDir(c, p) && Opened(c, p, name, ForDirectory) == Ok(i) && IsDir(c, i) && c[i].owner == uid
    ensures Lookup(b, p, name).None? ==> i !in b && c.Keys == b.Keys + {i} && c[i].entries == map[]
    ensures Lookup(b, p, name).Some? ==> i in b && c.Keys == b.Keys
  {
  }

  lemma OnPathStill(b: Nodes, c: Nodes, d: Ino, names: seq<string>, name: string, x: Ino)
    requires IsDir(b, d) && IsDir(c, d) && Grown(b, c) && OnPath(b, d, names, x)
    ensures OnPath(c, d, names + [name], x)
  {
    var k :| 0 < k <= |names| && WalkDown(b, d, names[..k]) == Ok(x);
    PrefixOf(names, name, k);
    WalkGrows(b, c, d, names[..k]);
  }

  lemma OwnedOn(b: Nodes, c: Nodes, d: Ino, names: seq<string>, name: string, i: Ino, uid: nat)
    requires IsDir(b, d) && IsDir(c, d) && Grown(b, c) && MadeOnly(b, c, uid) && OwnedAlong(b, d, names, uid)
    requires WalkDown(c, d, names + [name]) == Ok(i) && c[i].owner == uid
    ensures OwnedAlong(c, d, names + [name], uid)
  {
    var more := names + [name];
    forall k | 0 < k <= |more|
      ensures WalkDown(c, d, more[..k]).Ok? && c[WalkDown(c, d, more[..k]).value].owner == uid {
      if k <= |names| {
        PrefixOf(names, name, k);
        WalkGrows(b, c, d, names[..k]);
      } else {
        assert more[..k] == more;
      }
    }
  }

  lemma NewOnPath(a: Nodes, b: Nodes, c: Nodes, d: Ino, names: seq<string>, name: string, i: Ino)
    requires IsDir(b, d) && IsDir(c, d) && Grown(b, c) && WalkDown(c, d, names + [name]) == Ok(i)
    requires forall x :: x in b && x !in a ==> OnPath(b, d, names, x)
    requires forall x :: x in c && x !in b ==> x == i
    ensures forall x :: x in c && x !in a ==> OnPath(c, d, names + [name], x)
  {
    var more := names + [name];
    forall x | x in c && x !in a ensures OnPath(c, d, more, x) {
      if x in b {
        OnPathStill(b, c, d, names, name, x);
      } else {
        assert more[..|more|] == more;
      }
    }
  }

  /** One step more. */
  lemma AlongStep(a: Nodes, b: Nodes, c: Nodes, d: Ino, names: seq<string>, name: string, p: Ino, i: Ino, uid: nat)
    requires Along(a, b, d, names, p, uid) && Stepped(b, c, p, name, Ok(i), uid) && IsName(name)
    ensures Along(a, c, d, names + [name], i, uid)
  {
    SteppedIsGrown(b, c, p, name, Ok(i), uid);
    SteppedIsOpen(b, c, p, name, i, uid);
    EmptyIsFree(b, p, name);
    hide Stepped;
    hide Opened;
    hide WalkDown;
    hide MadeOnly;
    hide OnPath;
    hide OwnedAlong;
    hide Lookup;
    GrownBoth(a, b, c);
    MadeBoth(a, b, c, uid);
    WalkedOn(b, c, d, names, name, p, i);
    NewOnPath(a, b, c, d, names, name, i);
    OwnedOn(b, c, d, names, name, i, uid);
    hide Grown;
  }

  lemma EmptyIsFree(nodes: Nodes, p: Ino, name: string)
    requires IsDir(nodes, p) && IsName(name)
    ensures nodes[p].entries == map[] ==> Lookup(nodes, p, name).None?
  {
  }

  // ---- when a path can be made -----------------------------------------------------------

  /** Whatever a path leads to from the home is the sandbox's. */
  lemma {:induction false} WalkIsOwn(fs: Fs, home: Ino, d: Ino, names: seq<string>)
    requires Inv(fs, home) && d in fs.mine && IsDir(fs.nodes, d) && AllNames(names) && WalkDown(fs.nodes, d, names).Ok?
    ensures WalkDown(fs.nodes, d, names).value in fs.mine
    decreases |names|
  {
    if names != [] {
      assert IsName(names[0]);
      EntryIsOwn(fs, home, d, names[0]);
      WalkIsOwn(fs, home, Opened(fs.nodes, d, names[0], ForDirectory).value, names[1..]);
    }
  }

  lemma {:induction false} PrefixIsWalked(nodes: Nodes, d: Ino, names: seq<string>, k: nat)
    requires IsDir(nodes, d) && k <= |names| && WalkDown(nodes, d, names).Ok?
    ensures WalkDown(nodes, d, names[..k]).Ok?
    decreases |names| - k
  {
    if k == |names| {
      assert names[..k] == names;
    } else {
      PrefixIsWalked(nodes, d, names, k + 1);
      assert names[..k + 1] == names[..k] + [names[k]];
      WalkMore(nodes, d, names[..k], names[k]);
    }
  }

  lemma PassedBefore(fs: Fs, now: Nodes, home: Ino, q: Ino, name: string)
    requires Inv(fs, home) && q in fs.mine && IsDir(fs.nodes, q) && Grown(fs.nodes, now) && IsName(name)
    requires IsDir(now, q) && Opened(now, q, name, ForDirectory).Ok?
    ensures Passable(fs.nodes, q, name)
  {
    EntryIsOwn(fs, home, q, name);
  }

  /** A path that was made could be made. */
  lemma MadeCouldBe(fs: Fs, now: Nodes, home: Ino, names: seq<string>, p: Ino, uid: nat)
    requires Inv(fs, home) && AllNames(names) && Along(fs.nodes, now, home, names, p, uid)
    ensures CanMake(fs.nodes, home, names)
  {
    hide Inv;
    hide MadeOnly;
    hide OnPath;
    hide OwnedAlong;
    hide Opened;
    hide Passable;
    forall k | 0 <= k < |names|
      ensures !HasNul(names[k])
      ensures WalkDown(fs.nodes, home, names[..k]).Ok? ==> Passable(fs.nodes, WalkDown(fs.nodes, home, names[..k]).value, names[k]) {
      OneName(fs, now, home, names, k);
    }
  }

  lemma OneName(fs: Fs, now: Nodes, home: Ino, names: seq<string>, k: nat)
    requires Inv(fs, home) && AllNames(names) && k < |names| && Grown(fs.nodes, now)
    requires IsDir(now, home) && WalkDown(now, home, names).Ok?
    ensures !HasNul(names[k])
    ensures WalkDown(fs.nodes, home, names[..k]).Ok? ==> Passable(fs.nodes, WalkDown(fs.nodes, home, names[..k]).value, names[k])
  {
    hide WalkDown;
    hide Grown;
    assert IsName(names[k]);
    PrefixIsWalked(now, home, names, k + 1);
    assert names[..k + 1] == names[..k] + [names[k]];
    WalkMore(now, home, names[..k], names[k]);
    if WalkDown(fs.nodes, home, names[..k]).Ok? {
      WalkIsOwn(fs, home, home, names[..k]);
      WalkGrows(fs.nodes, now, home, names[..k]);
      PassedBefore(fs, now, home, WalkDown(fs.nodes, home, names[..k]).value, names[k]);
    }
  }

  /** Where nothing is new the same names lead to the same directories. */
  lemma {:induction false} SameWalk(a: Nodes, b: Nodes, d: Ino, names: seq<string>, uid: nat)
    requires Grown(a, b) && MadeOnly(a, b, uid) && a.Keys == b.Keys && IsDir(a, d) && IsDir(b, d) && AllNames(names)
    ensures WalkDown(b, d, names).Ok? ==> WalkDown(a, d, names) == WalkDown(b, d, names)
    decreases |names|
  {
    if names != [] {
      assert IsName(names[0]);
      SameEntry(a, b, d, names[0], uid);
      var next := Opened(b, d, names[0], ForDirectory);
      if next.Ok? {
        hide Grown;
        hide MadeOnly;
        SameWalk(a, b, next.value, names[1..], uid);
      }
    }
  }

  lemma SameEntry(a: Nodes, b: Nodes, d: Ino, name: string, uid: nat)
    requires Grown(a, b) && MadeOnly(a, b, uid) && a.Keys == b.Keys && IsDir(a, d) && IsDir(b, d) && IsName(name)
    ensures Lookup(a, d, name) == Lookup(b, d, name)
    ensures Opened(b, d, name, ForDirectory).Ok? ==>
      Opened(a, d, name, ForDirectory) == Opened(b, d, name, ForDirectory) && IsDir(a, Opened(b, d, name, ForDirectory).value)
  {
    assert name in b[d].entries ==> name in a[d].entries;
  }

  lemma BlockedBefore(a: Nodes, b: Nodes, p: Ino, name: string, uid: nat)
    requires Grown(a, b) && MadeOnly(a, b, uid) && IsDir(b, p) && IsName(name) && !HasNul(name) && !Passable(b, p, name)
    ensures IsDir(a, p) && !Passable(a, p, name)
  {
    assert name in b[p].entries;
    assert IsDir(a, p) && name in a[p].entries;
  }

  /** A path that is blocked could not be made. */
  lemma BlockedCouldNot(a: Nodes, b: Nodes, d: Ino, names: seq<string>, k: nat, p: Ino, uid: nat)
    requires k < |names| && AllNames(names) && Along(a, b, d, names[..k], p, uid) && !Passable(b, p, names[k])
    ensures !CanMake(a, d, names)
  {
    hide OnPath;
    hide OwnedAlong;
    hide WalkDown;
    assert IsName(names[k]);
    if !HasNul(names[k]) {
      BlockedBefore(a, b, p, names[k], uid);
      SameWalk(a, b, d, names[..k], uid);
    }
  }

  lemma {:induction false} LongerCannot(nodes: Nodes, d: Ino, names: seq<string>, name: string)
    requires IsDir(nodes, d)
    ensures CanMake(nodes, d, names + [name]) ==> CanMake(nodes, d, names)
  {
    var more := names + [name];
    if CanMake(nodes, d, more) {
      forall k | 0 <= k < |names|
        ensures !HasNul(names[k])
        ensures WalkDown(nodes, d, names[..k]).Ok? ==> Passable(nodes, WalkDown(nodes, d, names[..k]).value, names[k]) {
        PrefixOf(names, name, k);
        assert more[k] == names[k];
      }
    }
  }

  // ---- a file at the end of the path ------------------------------------------------------

  /** The name is free, or a regular file stands there. */
  ghost predicate IsFreeOrFile(nodes: Nodes, d: Ino, name: string) {
    && !HasNul(name) && IsDir(nodes, d)
    && match Lookup(nodes, d, name)
       case None => true
       case Some(i) => i in nodes && nodes[i].Regular?
  }

  /** A file can be written whose parents are made if they are missing. */
  ghost predicate CanCreate(nodes: Nodes, d: Ino, names: seq<string>)
    requires IsDir(nodes, d)
  {
    && names != [] && CanMake(nodes, d, FrontOf(names)) && !HasNul(names[|names| - 1])
    && (WalkDown(nodes, d, FrontOf(names)).Ok? ==>
          IsFreeOrFile(nodes, WalkDown(nodes, d, FrontOf(names)).value, names[|names| - 1]))
  }

  /** In a directory that was made or was there, a name is free or a file if and only if it was, had
      the directory been there. */
  lemma FreeAsBefore(a: Nodes, b: Nodes, d: Ino, names: seq<string>, p: Ino, name: string, uid: nat)
    requires Along(a, b, d, names, p, uid) && AllNames(names) && IsName(name)
    ensures IsFreeOrFile(b, p, name) <==>
      !HasNul(name) && (WalkDown(a, d, names).Ok? ==> IsFreeOrFile(a, WalkDown(a, d, names).value, name))
  {
    hide OnPath;
    hide OwnedAlong;
    hide WalkDown;
    if b.Keys == a.Keys {
      SameWalk(a, b, d, names, uid);
      FileAsBefore(a, b, p, name, uid);
    } else {
      EmptyIsFree(b, p, name);
      if WalkDown(a, d, names).Ok? {
        WalkGrows(a, b, d, names);
        assert false;
      }
    }
  }

  lemma FileAsBefore(a: Nodes, b: Nodes, p: Ino, name: string, uid: nat)
    requires Grown(a, b) && MadeOnly(a, b, uid) && a.Keys == b.Keys && IsDir(a, p) && IsDir(b, p) && IsName(name)
    ensures IsFreeOrFile(b, p, name) <==> IsFreeOrFile(a, p, name)
  {
    SameEntry(a, b, p, name, uid);
  }
}
