/** The file tree as a graph of inodes, and what the kernel calls do to it that the file API and
    a sandbox make. `mine` are the inodes that lay beneath the sandbox's home when the API call
    began or were created there since; `touched` are those the API opened, created, chowned or
    unlinked. */
module Inodes {
  import opened Wrappers
  import opened Paths

  type Ino = nat

  datatype Inode =
    | Directory(entries: map<string, Ino>, up: Ino, owner: nat)
    | Regular(content: string, owner: nat)
    | Symlink(target: string, owner: nat)
    | Special(owner: nat)

  datatype Fs = Fs(nodes: map<Ino, Inode>, mine: set<Ino>, touched: set<Ino>)

  predicate IsDir(nodes: map<Ino, Inode>, i: Ino) {
    i in nodes && nodes[i].Directory?
  }

  predicate HasNul(name: string) {
    (0 as char) in name
  }

  /** What can stand in a directory. */
  predicate IsEntryName(name: string) {
    IsName(name) && !HasNul(name)
  }

  /** The entries of a sandbox's directory are names, and lead to inodes of the sandbox. */
  ghost predicate Own(fs: Fs, d: Ino)
    requires IsDir(fs.nodes, d)
  {
    forall n :: n in fs.nodes[d].entries ==> IsEntryName(n) && fs.nodes[d].entries[n] in fs.mine
  }

  ghost predicate Inv(fs: Fs, home: Ino) {
    && home in fs.mine && IsDir(fs.nodes, home)
    && fs.touched <= fs.mine <= fs.nodes.Keys
    && forall d :: d in fs.mine && IsDir(fs.nodes, d) ==> Own(fs, d)
  }

  /** From a to b nothing outside changed: the sandbox only gained inodes that did not exist, and
      every inode that was not its own is as it was. */
  ghost predicate Confined(a: Fs, b: Fs) {
    && a.mine <= b.mine && a.nodes.Keys <= b.nodes.Keys && a.touched <= b.touched
    && (forall i :: i in b.mine && i !in a.mine ==> i !in a.nodes)
    && (forall i :: i in b.nodes && i !in a.nodes ==> i in b.mine)
    && (forall i :: i in a.nodes && i !in a.mine ==> b.nodes[i] == a.nodes[i])
    && (forall i :: i in a.nodes && a.nodes[i].Directory? ==> b.nodes[i].Directory?)
  }

  lemma ConfinedBoth(a: Fs, b: Fs, c: Fs)
    requires Confined(a, b) && Confined(b, c)
    ensures Confined(a, c)
  {
  }

  lemma NothingChanged(fs: Fs)
    ensures Confined(fs, fs)
  {
  }

  /** Nothing is lost from a to b: inodes and entries are added, and directories may change their
      owner. */
  ghost predicate Grown(a: map<Ino, Inode>, b: map<Ino, Inode>) {
    && a.Keys <= b.Keys
    && (forall i :: i in a && !a[i].Directory? ==> b[i] == a[i])
    && (forall i :: i in a && a[i].Directory? ==> b[i].Directory? && b[i].up == a[i].up)
    && (forall i, n :: IsDir(a, i) && n in a[i].entries ==> n in b[i].entries && b[i].entries[n] == a[i].entries[n])
  }

  lemma GrownBoth(a: map<Ino, Inode>, b: map<Ino, Inode>, c: map<Ino, Inode>)
    requires Grown(a, b) && Grown(b, c)
    ensures Grown(a, c)
  {
  }

  lemma {:induction false} WalkGrows(a: map<Ino, Inode>, b: map<Ino, Inode>, d: Ino, names: seq<string>)
    requires Grown(a, b) && IsDir(a, d) && WalkDown(a, d, names).Ok?
    ensures IsDir(b, d) && WalkDown(b, d, names) == WalkDown(a, d, names)
    decreases |names|
  {
    if names != [] {
      WalkGrows(a, b, Opened(a, d, names[0], ForDirectory).value, names[1..]);
    }
  }

  // ---- names ----------------------------------------------------------------------------

  datatype Errno = NotFound | NotDir | IsADir | Loop | NotEmpty | InvalidInput | NotPermitted | NoDescriptors | Other

  datatype How = ForDirectory | ForPath | ForReading

  /** What opening an entry gives: a symlink is never followed. */
  function Opened(nodes: map<Ino, Inode>, d: Ino, name: string, how: How): Result<Ino, Errno>
    requires IsDir(nodes, d)
  {
    if HasNul(name) then Err(InvalidInput)
    else
      match Lookup(nodes, d, name)
      case None => Err(NotFound)
      case Some(i) =>
        if i !in nodes then Err(Other)
        else if how == ForPath then Ok(i)
        else if nodes[i].Symlink? then Err(Loop)
        else if how == ForDirectory && !nodes[i].Directory? then Err(NotDir)
        else Ok(i)
  }

  /** Down along names, opening each as a directory. */
  function WalkDown(nodes: map<Ino, Inode>, d: Ino, names: seq<string>): (r: Result<Ino, Errno>)
    requires IsDir(nodes, d)
    ensures r.Ok? ==> IsDir(nodes, r.value)
    decreases |names|
  {
    if names == [] then Ok(d)
    else
      match Opened(nodes, d, names[0], ForDirectory)
      case Err(e) => Err(e)
      case Ok(i) => WalkDown(nodes, i, names[1..])
  }

  function LastOf(names: seq<string>): Option<string> {
    if names == [] then None else Some(names[|names| - 1])
  }

  /** What unlinking an entry gives. */
  function Unlinked(nodes: map<Ino, Inode>, d: Ino, name: string, dir: bool): Result<(), Errno>
    requires IsDir(nodes, d)
  {
    if HasNul(name) then Err(InvalidInput)
    else
      match Lookup(nodes, d, name)
      case None => Err(NotFound)
      case Some(i) =>
        if i !in nodes then Err(Other)
        else if !dir then if nodes[i].Directory? then Err(IsADir) else Ok(())
        else if !nodes[i].Directory? then Err(NotDir)
        else if nodes[i].entries != map[] then Err(NotEmpty)
        else Ok(())
  }

  // ---- what calls do --------------------------------------------------------------------

  /** Looking a name up in a directory; `..` leads to wherever the directory hangs. */
  function Lookup(nodes: map<Ino, Inode>, d: Ino, name: string): Option<Ino>
    requires IsDir(nodes, d)
  {
    if name == "." then Some(d)
    else if name == ".." then Some(nodes[d].up)
    else if name in nodes[d].entries then Some(nodes[d].entries[name])
    else None
  }

  function SetEntries(nodes: map<Ino, Inode>, d: Ino, entries: map<string, Ino>): map<Ino, Inode>
    requires IsDir(nodes, d)
  {
    nodes[d := nodes[d].(entries := entries)]
  }

  function Enter(nodes: map<Ino, Inode>, d: Ino, name: string, i: Ino): map<Ino, Inode>
    requires IsDir(nodes, d)
  {
    SetEntries(nodes, d, nodes[d].entries[name := i])
  }

  function Drop(nodes: map<Ino, Inode>, d: Ino, name: string): map<Ino, Inode>
    requires IsDir(nodes, d)
  {
    SetEntries(nodes, d, nodes[d].entries - {name})
  }

  /** A new inode under a name that is free. */
  function Create(fs: Fs, d: Ino, name: string, i: Ino, node: Inode): Fs
    requires IsDir(fs.nodes, d) && i !in fs.nodes
  {
    fs.(nodes := Enter(fs.nodes[i := node], d, name, i), mine := fs.mine + {i})
  }

  function Unlink(fs: Fs, d: Ino, name: string): Fs
    requires IsDir(fs.nodes, d)
  {
    fs.(nodes := Drop(fs.nodes, d, name))
  }

  function Touch(fs: Fs, i: Ino): Fs {
    fs.(touched := fs.touched + {i})
  }

  function SetOwner(node: Inode, uid: nat): Inode {
    match node
    case Directory(entries, up, _) => Directory(entries, up, uid)
    case Regular(content, _) => Regular(content, uid)
    case Symlink(target, _) => Symlink(target, uid)
    case Special(_) => Special(uid)
  }

  /** A new inode as `mkdir`, `open`, `symlink` or `mknod` makes it. */
  predicate IsNew(node: Inode, d: Ino) {
    node.Directory? ==> node.entries == map[] && node.up == d
  }

  lemma CreateIsConfined(fs: Fs, home: Ino, d: Ino, name: string, i: Ino, node: Inode)
    requires Inv(fs, home) && d in fs.mine && IsDir(fs.nodes, d)
    requires IsEntryName(name) && i !in fs.nodes && IsNew(node, d)
    ensures Inv(Create(fs, d, name, i, node), home) && Confined(fs, Create(fs, d, name, i, node))
  {
    var after := Create(fs, d, name, i, node);
    forall x | x in after.mine && IsDir(after.nodes, x) ensures Own(after, x) {
      if x != i {
        assert Own(fs, x);
      }
    }
  }

  lemma EnterIsConfined(fs: Fs, home: Ino, d: Ino, name: string, i: Ino)
    requires Inv(fs, home) && d in fs.mine && IsDir(fs.nodes, d) && IsEntryName(name) && i in fs.mine
    ensures var after := fs.(nodes := Enter(fs.nodes, d, name, i)); Inv(after, home) && Confined(fs, after)
  {
    var after := fs.(nodes := Enter(fs.nodes, d, name, i));
    forall x | x in after.mine && IsDir(after.nodes, x) ensures Own(after, x) {
      assert Own(fs, x);
    }
  }

  lemma UnlinkIsConfined(fs: Fs, home: Ino, d: Ino, name: string)
    requires Inv(fs, home) && d in fs.mine && IsDir(fs.nodes, d)
    ensures Inv(Unlink(fs, d, name), home) && Confined(fs, Unlink(fs, d, name))
  {
    var after := Unlink(fs, d, name);
    forall x | x in after.mine && IsDir(after.nodes, x) ensures Own(after, x) {
      assert Own(fs, x);
    }
  }

  /** A change to an inode of the sandbox that leaves its entries alone. */
  lemma ChangeIsConfined(fs: Fs, home: Ino, i: Ino, node: Inode)
    requires Inv(fs, home) && i in fs.mine && node.Directory? == fs.nodes[i].Directory?
    requires node.Directory? ==> node.entries == fs.nodes[i].entries
    ensures var after := fs.(nodes := fs.nodes[i := node]); Inv(after, home) && Confined(fs, after)
  {
    var after := fs.(nodes := fs.nodes[i := node]);
    forall x | x in after.mine && IsDir(after.nodes, x) ensures Own(after, x) {
      assert Own(fs, x);
    }
  }

  lemma TouchIsConfined(fs: Fs, home: Ino, i: Ino)
    requires Inv(fs, home) && i in fs.mine
    ensures Inv(Touch(fs, i), home) && Confined(fs, Touch(fs, i))
  {
  }

  /** What a name of the sandbox's directory leads to is the sandbox's. */
  lemma EntryIsOwn(fs: Fs, home: Ino, d: Ino, name: string)
    requires Inv(fs, home) && d in fs.mine && IsDir(fs.nodes, d) && IsName(name)
    ensures var found := Lookup(fs.nodes, d, name);
      (found.Some? ==> found.value in fs.mine && found.value in fs.nodes) && (found.None? ==> name !in fs.nodes[d].entries)
  {
    assert Own(fs, d);
  }

  // ---- what the sandbox may do ----------------------------------------------------------

  datatype SandboxOp =
    | Make(d: Ino, name: string, i: Ino, node: Inode)
    | Hardlink(d: Ino, name: string, i: Ino)
    | Remove(d: Ino, name: string)
    | Rename(d: Ino, name: string, to: Ino, newName: string)
    | Rewrite(i: Ino, content: string)

  /** The sandbox works in its own directories, wherever they hang by now, with inodes of its own. */
  predicate Permitted(fs: Fs, op: SandboxOp) {
    match op
    case Make(d, name, i, node) =>
      d in fs.mine && IsDir(fs.nodes, d) && IsEntryName(name) && name !in fs.nodes[d].entries && i !in fs.nodes && IsNew(node, d)
    case Hardlink(d, name, i) =>
      d in fs.mine && IsDir(fs.nodes, d) && IsEntryName(name) && name !in fs.nodes[d].entries && i in fs.mine && !IsDir(fs.nodes, i)
    case Remove(d, name) => d in fs.mine && IsDir(fs.nodes, d) && name in fs.nodes[d].entries
    case Rename(d, name, to, newName) =>
      d in fs.mine && IsDir(fs.nodes, d) && name in fs.nodes[d].entries && to in fs.mine && IsDir(fs.nodes, to) && IsEntryName(newName)
    case Rewrite(i, _) => i in fs.mine && i in fs.nodes && fs.nodes[i].Regular?
  }

  /** A directory that is moved hangs under its new parent. */
  function Moved(nodes: map<Ino, Inode>, i: Ino, to: Ino): map<Ino, Inode> {
    if IsDir(nodes, i) then nodes[i := nodes[i].(up := to)] else nodes
  }

  function Apply(fs: Fs, op: SandboxOp): Fs
    requires Permitted(fs, op)
  {
    match op
    case Make(d, name, i, node) => Create(fs, d, name, i, node)
    case Hardlink(d, name, i) => fs.(nodes := Enter(fs.nodes, d, name, i))
    case Remove(d, name) => Unlink(fs, d, name)
    case Rename(d, name, to, newName) =>
      var i := fs.nodes[d].entries[name];
      fs.(nodes := Enter(Moved(Drop(fs.nodes, d, name), i, to), to, newName, i))
    case Rewrite(i, content) => fs.(nodes := fs.nodes[i := Regular(content, fs.nodes[i].owner)])
  }

  lemma SandboxIsConfined(fs: Fs, home: Ino, op: SandboxOp)
    requires Inv(fs, home) && Permitted(fs, op)
    ensures Inv(Apply(fs, op), home) && Confined(fs, Apply(fs, op))
  {
    match op {
      case Make(d, name, i, node) => CreateIsConfined(fs, home, d, name, i, node);
      case Hardlink(d, name, i) => EnterIsConfined(fs, home, d, name, i);
      case Remove(d, name) => UnlinkIsConfined(fs, home, d, name);
      case Rename(d, name, to, newName) => RenameIsConfined(fs, home, d, name, to, newName);
      case Rewrite(i, content) => ChangeIsConfined(fs, home, i, Regular(content, fs.nodes[i].owner));
    }
  }

  lemma RenameIsConfined(fs: Fs, home: Ino, d: Ino, name: string, to: Ino, newName: string)
    requires Inv(fs, home) && Permitted(fs, Rename(d, name, to, newName))
    ensures var after := Apply(fs, Rename(d, name, to, newName)); Inv(after, home) && Confined(fs, after)
  {
    var i := fs.nodes[d].entries[name];
    assert Own(fs, d);
    var dropped := Unlink(fs, d, name);
    UnlinkIsConfined(fs, home, d, name);
    var moved := dropped.(nodes := Moved(dropped.nodes, i, to));
    assert Inv(moved, home) && Confined(dropped, moved) by {
      if IsDir(dropped.nodes, i) {
        ChangeIsConfined(dropped, home, i, dropped.nodes[i].(up := to));
      } else {
        assert moved == dropped;
      }
    }
    EnterIsConfined(moved, home, to, newName, i);
    var after := moved.(nodes := Enter(moved.nodes, to, newName, i));
    ConfinedBoth(fs, dropped, moved);
    ConfinedBoth(fs, moved, after);
    assert after == Apply(fs, Rename(d, name, to, newName));
  }

  /** The outcome of some operations of the sandbox, if each is permitted when its turn comes. */
  function Applied(fs: Fs, ops: seq<SandboxOp>): Option<Fs>
    decreases |ops|
  {
    if ops == [] then Some(fs)
    else if Permitted(fs, ops[0]) then Applied(Apply(fs, ops[0]), ops[1..])
    else None
  }

  /** A symlink put where no entry is; what goes through that name stops there. */
  lemma LinkIsPut(fs: Fs, home: Ino, d: Ino, name: string, target: string, owner: nat) returns (op: SandboxOp, after: Fs)
    requires Inv(fs, home) && d in fs.mine && IsDir(fs.nodes, d) && IsEntryName(name) && name !in fs.nodes[d].entries
    ensures Permitted(fs, op) && Apply(fs, op) == after && Inv(after, home) && Confined(fs, after)
    ensures LeadsToLink(after.nodes, d, name, target, owner)
  {
    var i, node := Above(fs.nodes.Keys), Symlink(target, owner);
    op := Make(d, name, i, node);
    after := Create(fs, d, name, i, node);
    CreateIsConfined(fs, home, d, name, i, node);
  }

  predicate LeadsToLink(nodes: map<Ino, Inode>, d: Ino, name: string, target: string, owner: nat) {
    && IsDir(nodes, d)
    && Lookup(nodes, d, name).Some? && Lookup(nodes, d, name).value in nodes
    && nodes[Lookup(nodes, d, name).value] == Symlink(target, owner)
    && Opened(nodes, d, name, ForDirectory) == Opened(nodes, d, name, ForReading) == Err(Loop)
  }

  /** The sandbox can put a symlink to any target in the place of any entry of its directories, or
      where none was; what goes through that name from then on stops there. */
  lemma SandboxMaySwap(fs: Fs, home: Ino, d: Ino, name: string, target: string, owner: nat)
    returns (ops: seq<SandboxOp>, after: Fs)
    requires Inv(fs, home) && d in fs.mine && IsDir(fs.nodes, d) && IsEntryName(name)
    ensures Applied(fs, ops) == Some(after) && Inv(after, home) && Confined(fs, after)
    ensures LeadsToLink(after.nodes, d, name, target, owner)
  {
    hide Inv;
    hide Confined;
    hide LeadsToLink;
    hide Permitted;
    hide Apply;
    hide Applied;
    var put;
    if name in fs.nodes[d].entries {
      var freed := NameIsFreed(fs, home, d, name);
      put, after := LinkIsPut(freed, home, d, name, target, owner);
      ConfinedBoth(fs, freed, after);
      ops := [Remove(d, name), put];
      TwoApplied(fs, Remove(d, name), freed, put, after);
    } else {
      put, after := LinkIsPut(fs, home, d, name, target, owner);
      ops := [put];
      OneApplied(fs, put, after);
    }
  }

  lemma NameIsFreed(fs: Fs, home: Ino, d: Ino, name: string) returns (freed: Fs)
    requires Inv(fs, home) && d in fs.mine && IsDir(fs.nodes, d) && name in fs.nodes[d].entries
    ensures Permitted(fs, Remove(d, name)) && Apply(fs, Remove(d, name)) == freed
    ensures Inv(freed, home) && Confined(fs, freed) && d in freed.mine
    ensures IsDir(freed.nodes, d) && name !in freed.nodes[d].entries
  {
    freed := Unlink(fs, d, name);
    UnlinkIsConfined(fs, home, d, name);
  }

  lemma OneApplied(a: Fs, op: SandboxOp, b: Fs)
    requires Permitted(a, op) && Apply(a, op) == b
    ensures Applied(a, [op]) == Some(b)
  {
    hide Permitted;
    hide Apply;
    assert [op][1..] == [];
  }

  lemma TwoApplied(a: Fs, first: SandboxOp, b: Fs, second: SandboxOp, c: Fs)
    requires Permitted(a, first) && Apply(a, first) == b && Permitted(b, second) && Apply(b, second) == c
    ensures Applied(a, [first, second]) == Some(c)
  {
    hide Permitted;
    hide Apply;
    OneApplied(b, second, c);
    assert [first, second][1..] == [second];
  }
}
