/** The descriptor-relative file API (src/fsutil.rs): every call goes down from the sandbox's home
    name by name, and the sandbox may rearrange its home between any two calls to the kernel. */
module ScopedFs {
  import opened Wrappers
  import opened Paths
  import opened Inodes
  import opened Trees
  import opened Making

  /** `components_of`: the plain names of a path, and nothing else. */
  function NamesOf(components: seq<string>): (names: seq<string>)
    ensures (forall k :: 0 <= k < |components| ==> components[k] != "" && components[k] != "." && '/' !in components[k]) ==> AllNames(names)
  {
    if components == [] then []
    else (if components[0] == ".." then [] else [components[0]]) + NamesOf(components[1..])
  }

  function ComponentsOf(path: string): seq<string> {
    NamesOf(Components(Pieces(path)))
  }

  lemma {:induction false} ComponentsLackSlash(pieces: seq<string>)
    requires forall k :: 0 <= k < |pieces| ==> '/' !in pieces[k]
    ensures forall k :: 0 <= k < |Components(pieces)| ==>
              Components(pieces)[k] != "" && Components(pieces)[k] != "." && '/' !in Components(pieces)[k]
  {
    if pieces != [] {
      ComponentsLackSlash(pieces[1..]);
    }
  }

  lemma ComponentsAreNames(path: string)
    ensures AllNames(ComponentsOf(path))
  {
    forall k | 0 <= k < |Pieces(path)| ensures '/' !in Pieces(path)[k] {
      Text.PiecesLack(path, '/', k);
    }
    ComponentsLackSlash(Pieces(path));
  }

  lemma {:induction false} NamesAreKept(names: seq<string>)
    requires AllNames(names)
    ensures NamesOf(names) == names
  {
    if names != [] {
      assert IsName(names[0]);
      NamesAreKept(names[1..]);
    }
  }

  /** A normalized path is walked along exactly its names. */
  lemma NormalizedIsWalked(path: string)
    ensures ComponentsOf(PathText(Normal(path))) == Normal(path)
  {
    OnlyNames(path);
    PiecesOfText(Normal(path));
    NamesAreKept(Normal(path));
  }

  /** What the names lead to from a directory on, the last of them opened as asked. */
  ghost function Reached(nodes: map<Ino, Inode>, d: Ino, names: seq<string>, how: How): Result<Ino, Errno>
    requires IsDir(nodes, d)
  {
    if names == [] then Ok(d)
    else
      match WalkDown(nodes, d, FrontOf(names))
      case Err(e) => Err(e)
      case Ok(parent) => Opened(nodes, parent, names[|names| - 1], how)
  }

  /** A directory of the sandbox stays one, whatever the sandbox does. */
  lemma StaysHeld(a: Fs, b: Fs, d: Ino)
    requires Confined(a, b) && d in a.mine && IsDir(a.nodes, d)
    ensures d in b.mine && IsDir(b.nodes, d)
  {
  }

  datatype Located = Located(parent: Ino, name: Option<string>)

  class World {
    const home: Ino
    const uid: nat
    /** Nobody interferes, and calls fail for the stated reasons only. */
    const quiet: bool
    var fs: Fs

    ghost predicate Valid()
      reads this
    {
      Inv(fs, home)
    }

    /** An open directory of the sandbox. */
    ghost predicate Holds(d: Ino)
      reads this
    {
      d in fs.mine && IsDir(fs.nodes, d)
    }

    constructor (home: Ino, uid: nat, quiet: bool, fs: Fs)
      requires Inv(fs, home)
      ensures this.home == home && this.uid == uid && this.quiet == quiet && this.fs == fs && Valid()
    {
      this.home, this.uid, this.quiet, this.fs := home, uid, quiet, fs;
    }

    /** Any number of operations of the sandbox. */
    method Interfere()
      requires Valid()
      modifies this
      ensures Valid() && Confined(old(fs), fs) && (quiet ==> fs == old(fs)) && fs.touched == old(fs.touched)
    {
      if quiet {
        return;
      }
      var rounds: nat :| rounds >= 0;
      for r := 0 to rounds
        invariant Valid() && Confined(old(fs), fs) && fs.touched == old(fs.touched)
      {
        var op: SandboxOp := *;
        if Permitted(fs, op) {
          SandboxIsConfined(fs, home, op);
          ConfinedBoth(old(fs), fs, Apply(fs, op));
          fs := Apply(fs, op);
        }
      }
    }

    method MayFail() returns (fails: bool)
      ensures quiet ==> !fails
    {
      fails := *;
      fails := fails && !quiet;
    }

    /** Opens an entry of an open directory. */
    method OpenAt(d: Ino, name: string, how: How) returns (r: Result<Ino, Errno>)
      requires Valid() && Holds(d) && IsName(name)
      modifies this
      ensures Valid() && Confined(old(fs), fs)
      ensures r.Ok? ==> r.value in fs.touched && r.value in fs.nodes && (how == ForDirectory ==> Holds(r.value))
      ensures quiet ==> r == Opened(old(fs.nodes), d, name, how) && fs.nodes == old(fs.nodes) && fs.mine == old(fs.mine)
    {
      Interfere();
      var fails := MayFail();
      if fails {
        return Err(Other);
      }
      r := Opened(fs.nodes, d, name, how);
      if r.Ok? {
        assert Own(fs, d);
        fs := Touch(fs, r.value);
      }
    }

    /** Opens a file for writing: creates it if the name is free, truncates it on demand. */
    method OpenForWriting(d: Ino, name: string, truncate: bool) returns (r: Result<Ino, Errno>)
      requires Valid() && Holds(d) && IsName(name)
      modifies this
      ensures Valid() && Confined(old(fs), fs)
      ensures r.Ok? ==> r.value in fs.touched && r.value in fs.nodes && r.value in fs.mine
      ensures quiet && r.Ok? ==> OpenedForWriting(old(fs.nodes), fs.nodes, d, name, r.value, truncate)
      ensures quiet && r.Err? ==> fs.nodes == old(fs.nodes) && !IsFreeOrFile(old(fs.nodes), d, name)
    {
      Interfere();
      var fails := MayFail();
      if fails {
        return Err(Other);
      }
      if HasNul(name) {
        return Err(InvalidInput);
      }
      EntryIsOwn(fs, home, d, name);
      hide Inv;
      hide Confined;
      ghost var before := fs;
      NothingChanged(fs);
      var found := Lookup(fs.nodes, d, name);
      var i;
      if found.None? {
        NoInoInUse(Above(fs.nodes.Keys));
        i :| i !in fs.nodes;
        CreateIsConfined(fs, home, d, name, i, Regular("", 0));
        fs := Create(fs, d, name, i, Regular("", 0));
      } else {
        i := found.value;
        match fs.nodes[i] {
          case Symlink(_, _) => return Err(Loop);
          case Directory(_, _, _) => return Err(IsADir);
          case Special(_) =>
          case Regular(content, owner) =>
            var node := Regular(if truncate then "" else content, owner);
            ChangeIsConfined(fs, home, i, node);
            fs := fs.(nodes := fs.nodes[i := node]);
        }
      }
      assert OpenedForWriting(before.nodes, fs.nodes, d, name, i, truncate);
      hide OpenedForWriting;
      hide Lookup;
      hide Create;
      hide IsFreeOrFile;
      ghost var changed := fs;
      TouchIsConfined(fs, home, i);
      fs := Touch(fs, i);
      ConfinedBoth(before, changed, fs);
      ConfinedBoth(old(fs), before, fs);
      r := Ok(i);
    }

    lemma NoInoInUse(b: Ino)
      requires b == Above(fs.nodes.Keys)
      ensures b !in fs.nodes
    {
    }

    /** `mkdirat`; a name that is taken counts as success. */
    method MkdirAt(d: Ino, name: string) returns (r: Result<(), Errno>)
      requires Valid() && Holds(d) && IsName(name)
      modifies this
      ensures Valid() && Confined(old(fs), fs)
      ensures quiet ==> (r.Ok? <==> !HasNul(name)) && Grown(old(fs.nodes), fs.nodes)
      ensures quiet && r.Ok? && Lookup(old(fs.nodes), d, name).None? ==>
                exists i :: NewDir(old(fs.nodes), fs.nodes, d, name, i, 0)
      ensures quiet && (r.Err? || Lookup(old(fs.nodes), d, name).Some?) ==> fs.nodes == old(fs.nodes)
    {
      hide Grown;
      NothingMade(fs.nodes, uid);
      Interfere();
      var fails := MayFail();
      if fails {
        return Err(Other);
      }
      if HasNul(name) {
        return Err(InvalidInput);
      }
      if Lookup(fs.nodes, d, name).Some? {
        return Ok(());
      }
      ghost var before := fs;
      NoInoInUse(Above(fs.nodes.Keys));
      var i: Ino :| i !in fs.nodes;
      var node := Directory(map[], d, 0);
      CreateIsConfined(fs, home, d, name, i, node);
      fs := Touch(Create(fs, d, name, i, node), i);
      assert NewDir(before.nodes, fs.nodes, d, name, i, 0);
      NewDirIsGrown(before.nodes, fs.nodes, d, name, i, 0);
      hide NewDir;
      ConfinedBoth(old(fs), before, fs);
      r := Ok(());
    }

    /** `fchown` of an open inode to the sandbox; a failure is ignored. */
    method Chown(i: Ino)
      requires Valid() && i in fs.mine
      modifies this
      ensures Valid() && Confined(old(fs), fs)
      ensures quiet ==> fs.nodes == old(fs.nodes)[i := SetOwner(old(fs.nodes)[i], uid)]
    {
      Interfere();
      var fails := MayFail();
      if !fails {
        ghost var before := fs;
        var node := SetOwner(fs.nodes[i], uid);
        ChangeIsConfined(fs, home, i, node);
        fs := Touch(fs.(nodes := fs.nodes[i := node]), i);
        ConfinedBoth(old(fs), before, fs);
      }
    }

    /** `unlinkat`, of a directory or of anything else. */
    method UnlinkAt(d: Ino, name: string, dir: bool) returns (r: Result<(), Errno>)
      requires Valid() && Holds(d) && IsName(name)
      modifies this
      ensures Valid() && Confined(old(fs), fs)
      ensures quiet ==> r == Unlinked(old(fs.nodes), d, name, dir) && fs.mine == old(fs.mine)
      ensures quiet ==> fs.nodes == if r.Ok? then Drop(old(fs.nodes), d, name) else old(fs.nodes)
    {
      Interfere();
      var fails := MayFail();
      if fails {
        return Err(Other);
      }
      r := Unlinked(fs.nodes, d, name, dir);
      EntryIsOwn(fs, home, d, name);
      hide Inv;
      hide Confined;
      if r.Ok? {
        ghost var before := fs;
        var gone := Lookup(fs.nodes, d, name).value;
        UnlinkIsConfined(fs, home, d, name);
        fs := Unlink(fs, d, name);
        ConfinedBoth(old(fs), before, fs);
        ghost var dropped := fs;
        TouchIsConfined(fs, home, gone);
        fs := Touch(fs, gone);
        ConfinedBoth(old(fs), dropped, fs);
      }
    }

    /** Reads a directory. While the sandbox changes it, any names of the directory may come up,
        gone or not; otherwise exactly its entries do, each once. */
    method ReadDir(d: Ino) returns (r: Result<seq<string>, Errno>)
      requires Valid() && Holds(d)
      modifies this
      ensures Valid() && Confined(old(fs), fs)
      ensures r.Ok? ==> AllEntryNames(r.value)
      ensures quiet ==> fs == old(fs) && r.Ok? && Enumerates(r.value, fs.nodes[d].entries)
    {
      Interfere();
      var fails := MayFail();
      if fails {
        return Err(Other);
      }
      assert Own(fs, d);
      var left := fs.nodes[d].entries.Keys;
      var names: seq<string> := [];
      while left != {}
        invariant left <= fs.nodes[d].entries.Keys && AllEntryNames(names)
        invariant forall n :: n in names <==> n in fs.nodes[d].entries && n !in left
        invariant forall i, j :: 0 <= i < j < |names| ==> names[i] != names[j]
        decreases |left|
      {
        var n :| n in left;
        names, left := names + [n], left - {n};
      }
      if !quiet {
        var stale: seq<string> := *;
        if AllEntryNames(stale) {
          names := stale;
        }
      }
      r := Ok(names);
    }

    // ---- the API ------------------------------------------------------------------------

    /** One name further down; with `create` a missing directory is made on the way. */
    method Descend(d: Ino, name: string, create: bool) returns (r: Result<Ino, Errno>)
      requires Valid() && Holds(d) && IsName(name)
      modifies this
      ensures Valid() && Confined(old(fs), fs)
      ensures r.Ok? ==> Holds(r.value)
      ensures quiet && !create ==>
                r == Opened(old(fs.nodes), d, name, ForDirectory) && fs.nodes == old(fs.nodes) && fs.mine == old(fs.mine)
      ensures quiet && create ==> Stepped(old(fs.nodes), fs.nodes, d, name, r, uid)
    {
      hide Grown;
      hide Inv;
      hide Confined;
      ghost var before := fs;
      NothingChanged(fs);
      if create {
        var made := MkdirAt(d, name);
        if made.Err? {
          return Err(made.error);
        }
      }
      ghost var middle := fs;
      StaysHeld(before, fs, d);
      r := OpenAt(d, name, ForDirectory);
      ConfinedBoth(before, middle, fs);
      if quiet && create {
        StepIsDone(before.nodes, middle.nodes, d, name, uid);
      }
      if r.Ok? && create {
        ghost var handed := fs;
        Chown(r.value);
        ConfinedBoth(before, handed, fs);
        StaysHeld(handed, fs, r.value);
      }
    }

    lemma TouchedIsOwn(now: Fs)
      requires Inv(now, home)
      ensures now.touched <= now.mine
    {
    }

    lemma HomeIsDir()
      requires Valid()
      ensures IsDir(fs.nodes, home)
    {
    }

    /** Walks to the directory that holds the last name of a path. */
    method Locate(rel: string, create: bool) returns (r: Result<Located, Errno>)
      requires Valid()
      modifies this
      ensures Valid() && Confined(old(fs), fs)
      ensures r.Ok? ==> Holds(r.value.parent) && (r.value.name.Some? ==> IsName(r.value.name.value))
      ensures r.Ok? ==> r.value.name == LastOf(ComponentsOf(rel))
      ensures quiet && !create ==>
                && fs.nodes == old(fs.nodes) && fs.mine == old(fs.mine)
                && (r.Ok? <==> WalkDown(fs.nodes, home, FrontOf(ComponentsOf(rel))).Ok?)
      ensures quiet && !create && r.Ok? ==> Ok(r.value.parent) == WalkDown(fs.nodes, home, FrontOf(ComponentsOf(rel)))
      ensures quiet ==> Grown(old(fs.nodes), fs.nodes) && MadeOnly(old(fs.nodes), fs.nodes, uid)
      ensures quiet && create ==> (r.Ok? <==> CanMake(old(fs.nodes), home, FrontOf(ComponentsOf(rel))))
      ensures quiet && create && r.Ok? ==>
                Along(old(fs.nodes), fs.nodes, home, FrontOf(ComponentsOf(rel)), r.value.parent, uid)
    {
      var names := ComponentsOf(rel);
      ComponentsAreNames(rel);
      NothingChanged(fs);
      NothingMade(fs.nodes, uid);
      AlongNothing(fs.nodes, home, uid);
      assert WalkDown(fs.nodes, home, []) == Ok(home);
      hide Grown;
      hide MadeOnly;
      hide Along;
      hide CanMake;
      hide Passable;
      hide Inv;
      hide Confined;
      hide WalkDown;
      hide Opened;
      hide Stepped;
      var fails := MayFail();
      if fails {
        return Err(NoDescriptors);
      }
      var parent := home;
      ghost var start := fs;
      var front := FrontOf(names);
      if names == [] {
        MadeCouldBe(start, fs.nodes, home, front, home, uid);
        return Ok(Located(parent, None));
      }
      assert AllNames(front) && front[..0] == [];
      for k := 0 to |front|
        invariant Valid() && Confined(start, fs) && Holds(parent)
        invariant quiet && !create ==>
                    fs.nodes == start.nodes && fs.mine == start.mine && WalkDown(fs.nodes, home, front[..k]) == Ok(parent)
        invariant quiet && create ==> Along(start.nodes, fs.nodes, home, front[..k], parent, uid)
      {
        ghost var before := fs;
        assert IsName(front[k]) && front[..k + 1] == front[..k] + [front[k]];
        var next := Descend(parent, front[k], create);
        ConfinedBoth(start, before, fs);
        if quiet && !create {
          WalkMore(fs.nodes, home, front[..k], front[k]);
          if next.Err? {
            WalkStops(fs.nodes, home, front, k + 1);
          }
        }
        if quiet && create {
          OneStepMade(start.nodes, before.nodes, fs.nodes, home, front, k, parent, next, uid);
        }
        if next.Err? {
          return Err(next.error);
        }
        parent := next.value;
      }
      assert front[..|front|] == front;
      if quiet && create {
        MadeCouldBe(start, fs.nodes, home, front, parent, uid);
        AlongGrown(start.nodes, fs.nodes, home, front, parent, uid);
      }
      r := Ok(Located(parent, Some(names[|names| - 1])));
    }

    /** Opens a regular file for reading. */
    method OpenRead(rel: string) returns (r: Result<Ino, Errno>)
      requires Valid()
      modifies this
      ensures Valid() && Confined(old(fs), fs)
      ensures r.Ok? ==> r.value in fs.touched && r.value in fs.nodes && fs.nodes[r.value].Regular?
      ensures quiet ==> fs.nodes == old(fs.nodes)
      ensures quiet ==>
                var reached := Reached(fs.nodes, home, ComponentsOf(rel), ForReading);
                && (r.Ok? <==> reached.Ok? && reached.value in fs.nodes && fs.nodes[reached.value].Regular?)
                && (r.Ok? ==> r == reached)
    {
      assert IsDir(fs.nodes, home) && WalkDown(fs.nodes, home, []) == Ok(home);
      hide Inv;
      hide WalkDown;
      hide Opened;
      hide Grown;
      ghost var start := fs;
      var located := Locate(rel, false);
      if located.Err? {
        return Err(located.error);
      }
      if located.value.name.None? {
        return Err(IsADir);
      }
      ghost var before := fs;
      var file := OpenAt(located.value.parent, located.value.name.value, ForReading);
      ConfinedBoth(start, before, fs);
      if file.Err? {
        return Err(file.error);
      }
      match fs.nodes[file.value] {
        case Directory(_, _, _) => r := Err(IsADir);
        case Regular(_, _) => r := Ok(file.value);
        case _ => r := Err(InvalidInput);
      }
    }

    /** Opens an entry of an open directory for writing, and hands the file to the sandbox. */
    method OpenOwned(d: Ino, name: string, truncate: bool) returns (r: Result<Ino, Errno>)
      requires Valid() && Holds(d) && IsName(name)
      modifies this
      ensures Valid() && Confined(old(fs), fs)
      ensures r.Ok? ==> r.value in fs.touched && r.value in fs.nodes
      ensures quiet ==> (r.Ok? <==> IsFreeOrFile(old(fs.nodes), d, name))
      ensures quiet && r.Ok? ==> Written(old(fs.nodes), fs.nodes, d, name, r.value, truncate, uid)
    {
      hide Inv;
      hide OpenedForWriting;
      hide Written;
      hide SetOwner;
      ghost var start := fs;
      r := OpenForWriting(d, name, truncate);
      if r.Err? {
        return;
      }
      if quiet {
        FileIsOpen(start.nodes, fs.nodes, d, name, r.value, truncate);
      }
      if !fs.nodes[r.value].Regular? {
        return Err(InvalidInput);
      }
      ghost var handed := fs;
      Chown(r.value);
      ConfinedBoth(start, handed, fs);
      if quiet {
        WriteIsDone(start.nodes, handed.nodes, d, name, r.value, truncate, uid);
      }
    }

    /** Opens a file for writing, and creates it and its parents if asked to; without an offset
        the file is truncated. */
    method OpenWrite(rel: string, createParents: bool, offset: Option<nat>)
      returns (r: Result<Ino, Errno>, ghost grown: map<Ino, Inode>)
      requires Valid()
      modifies this
      ensures Valid() && Confined(old(fs), fs)
      ensures r.Ok? ==> r.value in fs.touched && r.value in fs.nodes
      ensures quiet ==> Grown(old(fs.nodes), grown) && (!createParents ==> grown == old(fs.nodes)) && IsDir(grown, home)
      ensures quiet && !createParents ==> (r.Ok? <==> CanWrite(grown, home, ComponentsOf(rel)))
      ensures quiet && createParents ==> (r.Ok? <==> CanCreate(old(fs.nodes), home, ComponentsOf(rel)))
      ensures quiet && r.Ok? ==>
                var names := ComponentsOf(rel);
                && CanWrite(grown, home, names)
                && Written(grown, fs.nodes, WalkDown(grown, home, FrontOf(names)).value, names[|names| - 1],
                           r.value, offset.None?, uid)
    {
      hide Inv;
      hide WalkDown;
      hide Grown;
      hide MadeOnly;
      hide CanMake;
      hide Along;
      hide Written;
      hide IsFreeOrFile;
      ghost var start := fs;
      HomeIsDir();
      var located := Locate(rel, createParents);
      HomeIsDir();
      grown := fs.nodes;
      if located.Err? {
        return Err(located.error), grown;
      }
      if located.value.name.None? {
        return Err(IsADir), grown;
      }
      ghost var before := fs;
      if quiet && createParents {
        ComponentsAreNames(rel);
        MadeAndFree(start.nodes, fs.nodes, home, ComponentsOf(rel), located.value.parent, uid);
      }
      r := OpenOwned(located.value.parent, located.value.name.value, offset.None?);
      ConfinedBoth(old(fs), before, fs);
    }

    /** What `stat` looks at: the entry itself, even if it is a symlink. */
    method Metadata(rel: string) returns (r: Result<Ino, Errno>)
      requires Valid()
      modifies this
      ensures Valid() && Confined(old(fs), fs)
      ensures r.Ok? ==> r.value in fs.mine && r.value in fs.nodes
      ensures quiet ==> fs.nodes == old(fs.nodes)
      ensures quiet ==>
                var reached := Reached(fs.nodes, home, ComponentsOf(rel), ForPath);
                (r.Ok? <==> reached.Ok?) && (r.Ok? ==> r == reached)
    {
      assert IsDir(fs.nodes, home) && WalkDown(fs.nodes, home, []) == Ok(home);
      hide WalkDown;
      hide Opened;
      hide Grown;
      var located := Locate(rel, false);
      if located.Err? {
        return Err(located.error);
      }
      if located.value.name.None? {
        return Ok(located.value.parent);
      }
      ghost var before := fs;
      r := OpenAt(located.value.parent, located.value.name.value, ForPath);
      ConfinedBoth(old(fs), before, fs);
    }

    /** The directory a path leads to, opened for reading. */
    method OpenListed(rel: string) returns (r: Result<Ino, Errno>)
      requires Valid()
      modifies this
      ensures Valid() && Confined(old(fs), fs)
      ensures r.Ok? ==> Holds(r.value)
      ensures quiet ==> fs.nodes == old(fs.nodes) && (r.Ok? <==> WalkDown(fs.nodes, home, ComponentsOf(rel)).Ok?)
      ensures quiet && r.Ok? ==> WalkDown(fs.nodes, home, ComponentsOf(rel)) == r
    {
      assert IsDir(fs.nodes, home);
      hide Inv;
      hide WalkDown;
      var names := ComponentsOf(rel);
      var located := Locate(rel, false);
      if quiet && names != [] {
        assert names == FrontOf(names) + [names[|names| - 1]];
        WalkMore(fs.nodes, home, FrontOf(names), names[|names| - 1]);
      }
      if located.Err? {
        return Err(located.error);
      }
      if located.value.name.None? {
        return Ok(located.value.parent);
      }
      ghost var walked := fs;
      r := OpenAt(located.value.parent, located.value.name.value, ForDirectory);
      ConfinedBoth(old(fs), walked, fs);
    }

    /** Looks the names of an open directory up, one after another; those that are gone are left out. */
    method LookUp(d: Ino, names: seq<string>) returns (entries: seq<(string, Ino)>)
      requires Valid() && Holds(d) && AllEntryNames(names)
      requires quiet ==> Enumerates(names, fs.nodes[d].entries)
      modifies this
      ensures Valid() && Confined(old(fs), fs)
      ensures forall k :: 0 <= k < |entries| ==> entries[k].1 in fs.mine
      ensures quiet ==> fs.nodes == old(fs.nodes) && Lists(entries, fs.nodes[d].entries)
    {
      hide Lists;
      hide Inv;
      hide Confined;
      ghost var start := fs;
      NothingChanged(fs);
      entries := [];
      for k := 0 to |names|
        invariant Valid() && Confined(start, fs) && Holds(d)
        invariant forall j :: 0 <= j < |entries| ==> entries[j].1 in fs.mine
        invariant quiet ==> fs.nodes == start.nodes && AreFound(entries, names[..k], fs.nodes[d].entries)
      {
        assert names[k] in names && names[..k + 1] == names[..k] + [names[k]];
        ghost var before := fs;
        EntryIsOwn(fs, home, d, names[k]);
        var handle := OpenAt(d, names[k], ForPath);
        StaysHeld(before, fs, d);
        TouchedIsOwn(fs);
        ConfinedBoth(start, before, fs);
        if handle.Ok? {
          entries := entries + [(names[k], handle.value)];
        }
      }
      assert names[..|names|] == names;
      if quiet {
        FoundAreListed(entries, names, fs.nodes[d].entries);
      }
    }

    /** Lists a directory; entries that are gone when they are looked at are left out. */
    method List(rel: string) returns (r: Result<seq<(string, Ino)>, Errno>)
      requires Valid()
      modifies this
      ensures Valid() && Confined(old(fs), fs)
      ensures r.Ok? ==> forall k :: 0 <= k < |r.value| ==> r.value[k].1 in fs.mine
      ensures quiet ==> fs.nodes == old(fs.nodes) && (r.Ok? <==> WalkDown(fs.nodes, home, ComponentsOf(rel)).Ok?)
      ensures quiet && r.Ok? ==> Lists(r.value, fs.nodes[WalkDown(fs.nodes, home, ComponentsOf(rel)).value].entries)
    {
      hide Inv;
      hide WalkDown;
      hide Lists;
      hide Enumerates;
      var dir := OpenListed(rel);
      if dir.Err? {
        return Err(dir.error);
      }
      ghost var looked := fs;
      var names := ReadDir(dir.value);
      ConfinedBoth(old(fs), looked, fs);
      if names.Err? {
        return Err(names.error);
      }
      ghost var start := fs;
      var entries := LookUp(dir.value, names.value);
      ConfinedBoth(old(fs), start, fs);
      r := Ok(entries);
    }

    /** Creates a directory and its parents. */
    method MkdirAll(rel: string) returns (r: Result<(), Errno>)
      requires Valid()
      modifies this
      ensures Valid() && Confined(old(fs), fs)
      ensures quiet ==> Grown(old(fs.nodes), fs.nodes) && MadeOnly(old(fs.nodes), fs.nodes, uid)
      ensures quiet ==> (r.Ok? <==> CanMake(old(fs.nodes), home, ComponentsOf(rel)))
      ensures quiet && r.Ok? ==> exists p :: Along(old(fs.nodes), fs.nodes, home, ComponentsOf(rel), p, uid)
    {
      hide Grown;
      hide MadeOnly;
      hide CanMake;
      hide Along;
      hide Inv;
      hide Confined;
      hide Stepped;
      ComponentsAreNames(rel);
      HomeIsDir();
      ghost var start := fs;
      ghost var names := ComponentsOf(rel);
      ghost var front := FrontOf(names);
      var located := Locate(rel, true);
      if located.Err? {
        if quiet {
          WholeCannot(start.nodes, home, names);
        }
        return Err(located.error);
      }
      if located.value.name.None? {
        return Ok(());
      }
      ghost var walked := fs;
      var dir := Descend(located.value.parent, located.value.name.value, true);
      ConfinedBoth(start, walked, fs);
      if quiet {
        LastStepMade(start, walked.nodes, fs.nodes, home, names, located.value.parent, dir, uid);
      }
      if dir.Err? {
        return Err(dir.error);
      }
      r := Ok(());
    }

    /** Unlinks an entry, unless it is a directory. */
    method RemoveUnlessDir(d: Ino, name: string) returns (r: Result<bool, Errno>)
      requires Valid() && Holds(d) && IsEntryName(name)
      requires quiet ==> name in fs.nodes[d].entries
      modifies this
      ensures Valid() && Confined(old(fs), fs)
      ensures quiet ==> r == Ok(IsDir(old(fs.nodes), old(fs.nodes)[d].entries[name])) && fs.mine == old(fs.mine)
      ensures quiet ==> fs.nodes == if r == Ok(true) then old(fs.nodes) else Drop(old(fs.nodes), d, name)
    {
      assert Own(fs, d);
      var handle := OpenAt(d, name, ForPath);
      var fails := MayFail();
      if handle.Ok? && !fails && IsDir(fs.nodes, handle.value) {
        return Ok(true);
      }
      ghost var before := fs;
      var gone := UnlinkAt(d, name, false);
      ConfinedBoth(old(fs), before, fs);
      if gone.Err? {
        return Err(gone.error);
      }
      r := Ok(false);
    }

    /** The first pass over a directory: unlinks what is no directory, and collects the rest. */
    method RemoveFiles(d: Ino, names: seq<string>) returns (r: Result<seq<string>, Errno>)
      requires Valid() && Holds(d) && AllEntryNames(names)
      requires quiet ==> Enumerates(names, fs.nodes[d].entries)
      modifies this
      ensures Valid() && Confined(old(fs), fs)
      ensures r.Ok? ==> AllEntryNames(r.value)
      ensures quiet ==> r.Ok? && fs.mine == old(fs.mine)
      ensures quiet ==> fs.nodes == SetEntries(old(fs.nodes), d, DirsOnly(old(fs.nodes), d))
      ensures quiet ==> Enumerates(r.value, DirsOnly(old(fs.nodes), d))
    {
      hide Confined;
      hide Inv;
      var subdirs: seq<string> := [];
      ghost var start := fs.nodes;
      NothingDropped(start, d);
      NothingChanged(fs);
      for k := 0 to |names|
        invariant Valid() && Confined(old(fs), fs) && Holds(d) && AllEntryNames(subdirs)
        invariant quiet ==> fs.mine == old(fs.mine) && fs.nodes == SetEntries(start, d, LeftAfter(start, d, names[..k]))
        invariant quiet ==> forall n :: n in subdirs <==> n in names[..k] && IsDir(start, start[d].entries[n])
        invariant quiet ==> forall i, j :: 0 <= i < j < |subdirs| ==> subdirs[i] != subdirs[j]
      {
        var name := names[k];
        assert name in names && names[..k + 1] == names[..k] + [name];
        ghost var before := fs;
        if quiet {
          DropOne(start, d, names[..k], name);
        }
        var dir := RemoveUnlessDir(d, name);
        ConfinedBoth(old(fs), before, fs);
        if dir.Err? {
          return Err(dir.error);
        }
        if dir.value {
          subdirs := subdirs + [name];
        }
      }
      assert names[..|names|] == names;
      assert quiet ==> LeftAfter(start, d, names) == DirsOnly(start, d);
      r := Ok(subdirs);
    }

    /** The second pass: empties the collected subdirectories one after another and unlinks them. */
    method RemoveDirs(d: Ino, subdirs: seq<string>, levels: nat, ghost rank: Ino -> nat) returns (r: Result<(), Errno>)
      requires Valid() && Holds(d) && AllEntryNames(subdirs)
      requires quiet ==> Ranked(fs.nodes, rank) && Tree(fs.nodes) && AllChildren(fs.nodes, d, subdirs)
      requires quiet ==> forall n :: n in fs.nodes[d].entries ==> n in subdirs
      requires quiet ==> forall i, j :: 0 <= i < j < |subdirs| ==> subdirs[i] != subdirs[j]
      modifies this
      ensures Valid() && Confined(old(fs), fs)
      ensures quiet ==> fs.mine == old(fs.mine) && (rank(d) <= levels ==> r.Ok?)
      ensures quiet && r.Ok? ==> fs.nodes == Partly(old(fs.nodes), d, Gone(old(fs.nodes), rank, d, subdirs), [])
      decreases levels, 1
    {
      ghost var start := fs.nodes;
      NothingChanged(fs);
      if quiet {
        NothingGone(start, d, subdirs);
        assert Gone(start, rank, d, subdirs[..0]) == {} && subdirs[0..] == subdirs;
      }
      hide Inv;
      hide Below;
      hide Gone;
      hide Emptied;
      hide Partly;
      for k := 0 to |subdirs|
        invariant Valid() && Confined(old(fs), fs) && Holds(d)
        invariant quiet ==> fs.mine == old(fs.mine) && AllChildren(start, d, subdirs[..k])
        invariant quiet ==> fs.nodes == Partly(start, d, Gone(start, rank, d, subdirs[..k]), subdirs[k..])
      {
        var name := subdirs[k];
        assert name in subdirs && subdirs[..k + 1] == subdirs[..k] + [name] && subdirs[k..] == [name] + subdirs[k + 1..];
        if quiet {
          NextIsUntouched(start, rank, d, subdirs[..k], name, subdirs[k + 1..]);
          NextIsRemoved(start, rank, d, subdirs[..k], name, subdirs[k + 1..]);
        }
        ghost var before := fs;
        r := RemoveOneDir(d, name, levels, rank);
        ConfinedBoth(old(fs), before, fs);
        if r.Err? {
          return;
        }
      }
      assert subdirs[..|subdirs|] == subdirs && subdirs[|subdirs|..] == [];
      r := Ok(());
    }

    method RemoveOneDir(d: Ino, name: string, levels: nat, ghost rank: Ino -> nat) returns (r: Result<(), Errno>)
      requires Valid() && Holds(d) && IsEntryName(name)
      requires quiet ==> Ranked(fs.nodes, rank) && Tree(fs.nodes)
      requires quiet ==> name in fs.nodes[d].entries && Child(fs.nodes, d, name, fs.nodes[d].entries[name])
      requires quiet ==> var after := Emptied(fs.nodes, Below(fs.nodes, rank, fs.nodes[d].entries[name]));
                 IsDir(after, d) && name in after[d].entries && after[d].entries[name] == fs.nodes[d].entries[name]
                 && after[fs.nodes[d].entries[name]].entries == map[]
      modifies this
      ensures Valid() && Confined(old(fs), fs)
      ensures quiet ==> fs.mine == old(fs.mine) && (rank(d) <= levels ==> r.Ok?)
      ensures quiet && r.Ok? ==>
                fs.nodes == Drop(Emptied(old(fs.nodes), Below(old(fs.nodes), rank, old(fs.nodes)[d].entries[name])), d, name)
      decreases levels, 0
    {
      if levels == 0 {
        return Err(NoDescriptors);
      }
      hide Inv;
      hide Confined;
      hide Below;
      var child := OpenAt(d, name, ForDirectory);
      if child.Err? {
        return Err(child.error);
      }
      ghost var before := fs;
      StaysHeld(old(fs), fs, d);
      r := RemoveDirContents(child.value, levels - 1, rank);
      StaysHeld(before, fs, d);
      ConfinedBoth(old(fs), before, fs);
      if r.Err? {
        return;
      }
      ghost var emptied := fs;
      r := UnlinkAt(d, name, true);
      ConfinedBoth(old(fs), emptied, fs);
    }

    /** Removes everything below an open directory: the files first, then the subdirectories, each
        emptied in the same way. `levels` is how many more directories may be held open. */
    method RemoveDirContents(d: Ino, levels: nat, ghost rank: Ino -> nat) returns (r: Result<(), Errno>)
      requires Valid() && Holds(d)
      requires quiet ==> Ranked(fs.nodes, rank) && Tree(fs.nodes)
      modifies this
      ensures Valid() && Confined(old(fs), fs)
      ensures quiet ==> fs.mine == old(fs.mine) && (rank(d) <= levels ==> r.Ok?)
      ensures quiet && r.Ok? ==> fs.nodes == Emptied(old(fs.nodes), Below(old(fs.nodes), rank, d))
      decreases levels, 2
    {
      ghost var start := fs.nodes;
      var names := ReadDir(d);
      if names.Err? {
        return Err(names.error);
      }
      ghost var listed := fs;
      var subdirs := RemoveFiles(d, names.value);
      ConfinedBoth(old(fs), listed, fs);
      if subdirs.Err? {
        return Err(subdirs.error);
      }
      if quiet {
        FilesGone(start, rank, d, subdirs.value);
      }
      ghost var cleared := fs;
      r := RemoveDirs(d, subdirs.value, levels, rank);
      ConfinedBoth(old(fs), cleared, fs);
    }

    /** Removes the entry at a path; a directory with everything below it if `recursive`. */
    method Delete(rel: string, recursive: bool, levels: nat, ghost rank: Ino -> nat) returns (r: Result<(), Errno>)
      requires Valid()
      requires quiet ==> Ranked(fs.nodes, rank) && Tree(fs.nodes)
      modifies this
      ensures Valid() && Confined(old(fs), fs)
      ensures quiet && rank(home) <= levels ==>
                var after := AfterDelete(old(fs.nodes), rank, home, ComponentsOf(rel), recursive);
                && (r.Ok? <==> after.Ok?)
                && fs.nodes == if after.Ok? then after.value else old(fs.nodes)
    {
      hide Inv;
      hide Confined;
      hide Ranked;
      hide Tree;
      hide WalkDown;
      HomeIsDir();
      ghost var first := fs;
      var located := Locate(rel, false);
      if located.Err? {
        return Err(located.error);
      }
      if located.value.name.None? {
        return Err(NotPermitted);
      }
      ghost var start := fs.nodes;
      var parent, name := located.value.parent, located.value.name.value;
      ghost var walked := fs;
      var handle := OpenAt(parent, name, ForPath);
      StaysHeld(walked, fs, parent);
      ConfinedBoth(first, walked, fs);
      if handle.Err? {
        return Err(handle.error);
      }
      var fails := MayFail();
      if fails || !IsDir(fs.nodes, handle.value) {
        ghost var looked := fs;
        r := UnlinkAt(parent, name, false);
        ConfinedBoth(first, looked, fs);
        return;
      }
      if recursive {
        ghost var looked := fs;
        var dir := OpenAt(parent, name, ForDirectory);
        ConfinedBoth(first, looked, fs);
        StaysHeld(looked, fs, parent);
        if dir.Err? {
          return Err(dir.error);
        }
        if quiet {
          ComponentsAreNames(rel);
          TargetIsLower(start, rank, home, FrontOf(ComponentsOf(rel)), parent, name, dir.value);
          TargetIsEmptied(start, rank, parent, name, dir.value);
        }
        ghost var held := fs;
        var emptied := RemoveDirContents(dir.value, levels, rank);
        ConfinedBoth(first, held, fs);
        StaysHeld(held, fs, parent);
        if emptied.Err? {
          return Err(emptied.error);
        }
      }
      ghost var last := fs;
      r := UnlinkAt(parent, name, true);
      ConfinedBoth(first, last, fs);
    }
  }

  /** What opening for writing does: the entry is there, and the file behind it is empty if it is
      new or was truncated, and has its old content otherwise. */
  ghost predicate OpenedForWriting(before: map<Ino, Inode>, after: map<Ino, Inode>, d: Ino, name: string, i: Ino, truncate: bool) {
    && !HasNul(name) && IsDir(before, d)
    && match Lookup(before, d, name)
       case None => i !in before && after == Enter(before[i := Regular("", 0)], d, name, i)
       case Some(j) =>
         i == j && i in before
         && after == if truncate && before[i].Regular? then before[i := Regular("", before[i].owner)] else before
  }

  /** A path can be written to: its directory is there, and its last name is free or a file. */
  ghost predicate CanWrite(nodes: map<Ino, Inode>, d: Ino, names: seq<string>)
    requires IsDir(nodes, d)
  {
    && names != [] && WalkDown(nodes, d, FrontOf(names)).Ok?
    && IsFreeOrFile(nodes, WalkDown(nodes, d, FrontOf(names)).value, names[|names| - 1])
  }

  /** What `open_write` leaves: a file of the sandbox under that name, empty if it is new or was to
      be truncated, with its old content otherwise; and everything else as it was. */
  ghost predicate Written(before: map<Ino, Inode>, after: map<Ino, Inode>, d: Ino, name: string, i: Ino,
                          truncate: bool, uid: nat) {
    IsDir(before, d)
    && match Lookup(before, d, name)
       case None => i !in before && after == Enter(before[i := Regular("", uid)], d, name, i)
       case Some(j) =>
         i == j && i in before && before[i].Regular?
         && after == before[i := Regular(if truncate then "" else before[i].content, uid)]
  }

  lemma FileIsOpen(before: map<Ino, Inode>, after: map<Ino, Inode>, d: Ino, name: string, i: Ino, truncate: bool)
    requires OpenedForWriting(before, after, d, name, i, truncate) && i in after
    ensures after[i].Regular? <==> IsFreeOrFile(before, d, name)
  {
  }

  lemma WriteIsDone(before: map<Ino, Inode>, after: map<Ino, Inode>, d: Ino, name: string, i: Ino, truncate: bool, uid: nat)
    requires OpenedForWriting(before, after, d, name, i, truncate) && i in after && after[i].Regular?
    ensures Written(before, after[i := SetOwner(after[i], uid)], d, name, i, truncate, uid)
  {
  }

  /** Creating a directory and opening it makes a step, once it is handed to uid. */
  lemma StepIsDone(a: map<Ino, Inode>, b: map<Ino, Inode>, d: Ino, name: string, uid: nat)
    requires IsDir(a, d) && IsDir(b, d) && IsName(name) && !HasNul(name)
    requires if Lookup(a, d, name).None? then exists i :: NewDir(a, b, d, name, i, 0) else b == a
    ensures var r := Opened(b, d, name, ForDirectory);
      if r.Ok? then r.value in b && Stepped(a, b[r.value := SetOwner(b[r.value], uid)], d, name, r, uid)
      else Stepped(a, b, d, name, r, uid)
  {
    if Lookup(a, d, name).None? {
      var i :| NewDir(a, b, d, name, i, 0);
      assert b[i := SetOwner(b[i], uid)] == Enter(a[i := Directory(map[], d, uid)], d, name, i);
    }
  }

  lemma OneStepMade(a: map<Ino, Inode>, b: map<Ino, Inode>, c: map<Ino, Inode>, d: Ino, names: seq<string>, k: nat, p: Ino,
                    next: Result<Ino, Errno>, uid: nat)
    requires k < |names| && AllNames(names) && Along(a, b, d, names[..k], p, uid)
    requires Stepped(b, c, p, names[k], next, uid)
    ensures Grown(a, c) && MadeOnly(a, c, uid)
    ensures next.Ok? ==> Along(a, c, d, names[..k + 1], next.value, uid)
    ensures next.Err? ==> !CanMake(a, d, names)
  {
    assert IsName(names[k]) && names[..k + 1] == names[..k] + [names[k]];
    if next.Ok? {
      AlongStep(a, b, c, d, names[..k], names[k], p, next.value, uid);
      AlongGrown(a, c, d, names[..k + 1], next.value, uid);
    } else {
      BlockedCouldNot(a, b, d, names, k, p, uid);
      AlongGrown(a, b, d, names[..k], p, uid);
    }
  }

  lemma MadeAndFree(a: map<Ino, Inode>, b: map<Ino, Inode>, d: Ino, names: seq<string>, p: Ino, uid: nat)
    requires names != [] && AllNames(names) && Along(a, b, d, FrontOf(names), p, uid) && CanMake(a, d, FrontOf(names))
    ensures WalkDown(b, d, FrontOf(names)) == Ok(p)
    ensures IsFreeOrFile(b, p, names[|names| - 1]) <==> CanCreate(a, d, names)
  {
    FreeAsBefore(a, b, d, FrontOf(names), p, names[|names| - 1], uid);
  }

  lemma WholeCannot(nodes: map<Ino, Inode>, d: Ino, names: seq<string>)
    requires IsDir(nodes, d) && !CanMake(nodes, d, FrontOf(names))
    ensures !CanMake(nodes, d, names)
  {
    if names != [] {
      assert names == FrontOf(names) + [names[|names| - 1]];
      LongerCannot(nodes, d, FrontOf(names), names[|names| - 1]);
    }
  }

  lemma LastStepMade(start: Fs, b: map<Ino, Inode>, c: map<Ino, Inode>, home: Ino, names: seq<string>, p: Ino,
                     last: Result<Ino, Errno>, uid: nat)
    requires Inv(start, home) && names != [] && AllNames(names) && Along(start.nodes, b, home, FrontOf(names), p, uid)
    requires Stepped(b, c, p, names[|names| - 1], last, uid)
    ensures Grown(start.nodes, c) && MadeOnly(start.nodes, c, uid)
    ensures last.Ok? ==> Along(start.nodes, c, home, names, last.value, uid)
    ensures last.Ok? <==> CanMake(start.nodes, home, names)
  {
    hide Along;
    hide Stepped;
    hide Grown;
    hide MadeOnly;
    hide CanMake;
    hide Inv;
    var k := |names| - 1;
    assert names[..k] == FrontOf(names) && names[..k + 1] == names;
    OneStepMade(start.nodes, b, c, home, names, k, p, last, uid);
    if last.Ok? {
      MadeCouldBe(start, c, home, names, last.value, uid);
    }
  }

  lemma AlongGrown(a: map<Ino, Inode>, b: map<Ino, Inode>, d: Ino, names: seq<string>, p: Ino, uid: nat)
    requires Along(a, b, d, names, p, uid)
    ensures Grown(a, b) && MadeOnly(a, b, uid)
  {
  }

  /** A walk that stops stops the longer walk as well. */
  lemma {:induction false} WalkStops(nodes: map<Ino, Inode>, d: Ino, names: seq<string>, k: nat)
    requires IsDir(nodes, d) && k <= |names| && WalkDown(nodes, d, names[..k]).Err?
    ensures WalkDown(nodes, d, names).Err?
    decreases |names| - k
  {
    if k == |names| {
      assert names[..k] == names;
    } else {
      assert names[..k + 1] == names[..k] + [names[k]];
      WalkMore(nodes, d, names[..k], names[k]);
      WalkStops(nodes, d, names, k + 1);
    }
  }

  lemma TargetIsLower(nodes: map<Ino, Inode>, rank: Ino -> nat, home: Ino, front: seq<string>, p: Ino, name: string, i: Ino)
    requires Ranked(nodes, rank) && IsDir(nodes, home) && AllNames(front) && WalkDown(nodes, home, front) == Ok(p)
    requires IsDir(nodes, p) && IsName(name) && Opened(nodes, p, name, ForDirectory) == Ok(i)
    ensures Child(nodes, p, name, i) && rank(i) < rank(p) <= rank(home)
  {
    WalkGoesDown(nodes, rank, home, front);
    assert Child(nodes, p, name, i);
  }

  /** Once what lies below it is gone, the directory itself can be unlinked. */
  lemma TargetIsEmptied(nodes: map<Ino, Inode>, rank: Ino -> nat, p: Ino, name: string, i: Ino)
    requires Ranked(nodes, rank) && Child(nodes, p, name, i) && IsName(name) && !HasNul(name)
    ensures var after := Emptied(nodes, Below(nodes, rank, i)); IsDir(after, p) && Unlinked(after, p, name, true) == Ok(())
  {
    if p in Below(nodes, rank, i) {
      BelowIsLower(nodes, rank, i, p);
    }
  }

  lemma NothingGone(nodes: map<Ino, Inode>, d: Ino, subdirs: seq<string>)
    requires IsDir(nodes, d)
    requires forall n :: n in nodes[d].entries ==> n in subdirs
    ensures Partly(nodes, d, {}, subdirs) == nodes
  {
    assert (map n | n in nodes[d].entries && n in subdirs :: nodes[d].entries[n]) == nodes[d].entries;
  }

  /** After the first pass the tree is one still, with the same directories below d. */
  lemma FilesGone(start: map<Ino, Inode>, rank: Ino -> nat, d: Ino, subdirs: seq<string>)
    requires IsDir(start, d) && Ranked(start, rank) && Tree(start) && Enumerates(subdirs, DirsOnly(start, d))
    ensures var now := SetEntries(start, d, DirsOnly(start, d));
      && Ranked(now, rank) && Tree(now) && AllChildren(now, d, subdirs)
      && (forall n :: n in now[d].entries ==> n in subdirs)
      && Partly(now, d, Gone(now, rank, d, subdirs), []) == Emptied(start, Below(start, rank, d))
  {
    var now := SetEntries(start, d, DirsOnly(start, d));
    assert Fewer(start, now);
    FewerIsTree(start, now, rank);
    AllRemoved(now, rank, d, subdirs);
    BelowWithoutFiles(start, now, rank, d);
  }

  lemma BelowWithoutFiles(start: map<Ino, Inode>, now: map<Ino, Inode>, rank: Ino -> nat, d: Ino)
    requires IsDir(start, d) && Ranked(start, rank) && Tree(start) && now == SetEntries(start, d, DirsOnly(start, d))
    requires Fewer(start, now) && Ranked(now, rank)
    ensures Below(now, rank, d) == Below(start, rank, d)
    ensures Emptied(now, Below(start, rank, d)) == Emptied(start, Below(start, rank, d))
  {
    forall n | n in start[d].entries && IsDir(start, start[d].entries[n])
      ensures Child(start, d, n, start[d].entries[n]) && Child(now, d, n, start[d].entries[n])
      ensures Below(now, rank, start[d].entries[n]) == Below(start, rank, start[d].entries[n])
    {
      var c := start[d].entries[n];
      assert Child(start, d, n, c) && Child(now, d, n, c);
      forall i | i in Below(start, rank, c) ensures i in now && now[i] == start[i] {
        BelowIsLower(start, rank, c, i);
      }
      BelowStays(start, now, rank, c);
    }
    assert d in Below(start, rank, d);
  }

  lemma NothingDropped(nodes: map<Ino, Inode>, d: Ino)
    requires IsDir(nodes, d)
    ensures SetEntries(nodes, d, LeftAfter(nodes, d, [])) == nodes
  {
    assert LeftAfter(nodes, d, []) == nodes[d].entries;
  }

  /** One name more: its entry stays if it is a directory, and is dropped otherwise. */
  lemma DropOne(start: map<Ino, Inode>, d: Ino, names: seq<string>, name: string)
    requires IsDir(start, d) && name !in names && name in start[d].entries
    ensures var now, i := SetEntries(start, d, LeftAfter(start, d, names)), start[d].entries[name];
      && name in now[d].entries && now[d].entries[name] == i && IsDir(now, i) == IsDir(start, i)
      && SetEntries(start, d, LeftAfter(start, d, names + [name])) == if IsDir(start, i) then now else Drop(now, d, name)
  {
    var i := start[d].entries[name];
    if IsDir(start, i) {
      assert LeftAfter(start, d, names + [name]) == LeftAfter(start, d, names);
    } else {
      assert LeftAfter(start, d, names + [name]) == LeftAfter(start, d, names) - {name};
    }
  }

  /** The entries of d that are left once the files among the given names are unlinked. */
  function LeftAfter(nodes: map<Ino, Inode>, d: Ino, names: seq<string>): map<string, Ino>
    requires IsDir(nodes, d)
  {
    map n | n in nodes[d].entries && (n !in names || IsDir(nodes, nodes[d].entries[n])) :: nodes[d].entries[n]
  }

  function DirsOnly(nodes: map<Ino, Inode>, d: Ino): map<string, Ino>
    requires IsDir(nodes, d)
  {
    map n | n in nodes[d].entries && IsDir(nodes, nodes[d].entries[n]) :: nodes[d].entries[n]
  }

  predicate AllEntryNames(names: seq<string>) {
    forall n :: n in names ==> IsEntryName(n)
  }

  /** Exactly the entries of a directory, each once, with what they lead to. */
  ghost predicate Lists(listing: seq<(string, Ino)>, entries: map<string, Ino>) {
    && (forall k :: 0 <= k < |listing| ==> listing[k].0 in entries && listing[k].1 == entries[listing[k].0])
    && (forall n :: n in entries ==> exists k :: 0 <= k < |listing| && listing[k].0 == n)
    && (forall j, k :: 0 <= j < k < |listing| ==> listing[j].0 != listing[k].0)
  }

  /** Each name with what it leads to. */
  ghost predicate AreFound(found: seq<(string, Ino)>, names: seq<string>, entries: map<string, Ino>) {
    && |found| == |names|
    && forall j :: 0 <= j < |names| ==>
         found[j].0 == names[j] && names[j] in entries && found[j].1 == entries[names[j]]
  }

  lemma FoundAreListed(found: seq<(string, Ino)>, names: seq<string>, entries: map<string, Ino>)
    requires Enumerates(names, entries) && AreFound(found, names, entries)
    ensures Lists(found, entries)
  {
    forall n | n in entries ensures exists k :: 0 <= k < |found| && found[k].0 == n {
      assert n in names;
      var k :| 0 <= k < |names| && names[k] == n;
      assert found[k].0 == n;
    }
  }

  ghost predicate Enumerates(names: seq<string>, entries: map<string, Ino>) {
    && (forall n :: n in names <==> n in entries)
    && (forall i, j :: 0 <= i < j < |names| ==> names[i] != names[j])
  }
}
