/** Lexical normalization of request paths (src/fsutil.rs, `normalize_relative`). */
module Paths {
  import opened Wrappers
  import opened Text

  /** A component that names a directory entry. */
  predicate IsName(c: string) {
    c != "" && c != "." && c != ".." && '/' !in c
  }

  predicate AllNames(names: seq<string>) {
    forall k :: 0 <= k < |names| ==> IsName(names[k])
  }

  function Pieces(path: string): seq<string> {
    Split(path, "/")
  }

  /** Rust's `Path::components`, without the root and the leading `.`, which the code ignores. */
  function Components(pieces: seq<string>): seq<string> {
    if pieces == [] then []
    else (if pieces[0] == "" || pieces[0] == "." then [] else [pieces[0]]) + Components(pieces[1..])
  }

  /** One component: a name goes down, `..` goes up but not above the root. */
  function Take(names: seq<string>, component: string): seq<string> {
    if component != ".." then names + [component] else FrontOf(names)
  }

  function FrontOf(names: seq<string>): seq<string> {
    if names == [] then [] else names[..|names| - 1]
  }

  function Fold(names: seq<string>, components: seq<string>): seq<string>
    decreases |components|
  {
    if components == [] then names else Fold(Take(names, components[0]), components[1..])
  }

  /** The names a path stands for. */
  function Normal(path: string): seq<string> {
    Fold([], Components(Pieces(path)))
  }

  /** The names as a relative path. */
  function PathText(names: seq<string>): string {
    if names == [] then "" else Join(names, "/")
  }

  // ---- the code -------------------------------------------------------------------------

  /** Rust's `PathBuf::push` of a single name. */
  method Push(path: string, name: string, ghost names: seq<string>) returns (r: string)
    requires path == PathText(names) && AllNames(names) && IsName(name)
    ensures r == PathText(names + [name])
  {
    JoinMore(names, name);
    r := path;
    if path != "" {
      r := r + "/";
    }
    r := r + name;
  }

  /** Rust's `PathBuf::pop`: cuts the last name off, and the slash before it. */
  method Pop(path: string, ghost names: seq<string>) returns (r: string)
    requires path == PathText(names) && AllNames(names)
    ensures r == PathText(FrontOf(names))
  {
    var i := |path|;
    ghost var front, last := PathText(FrontOf(names)), if names == [] then "" else names[|names| - 1];
    LastName(names);
    hide PathText;
    hide AllNames;
    while i > 0 && path[i - 1] != '/'
      invariant |path| - |last| <= i <= |path|
      invariant forall j :: i <= j < |path| ==> path[j] != '/'
    {
      i := i - 1;
    }
    r := if i == 0 then "" else path[..i - 1];
  }

  /** The last name stands behind the last slash. */
  lemma LastName(names: seq<string>)
    requires AllNames(names)
    ensures var path, front, last := PathText(names), PathText(FrontOf(names)), if names == [] then "" else names[|names| - 1];
      && '/' !in last
      && path == if front == "" then last else front + "/" + last
  {
    if names != [] {
      var last := names[|names| - 1];
      assert IsName(last) && names == FrontOf(names) + [last];
      JoinMore(FrontOf(names), last);
    }
  }

  method NormalizeRelative(path: string) returns (result: string)
    ensures result == PathText(Normal(path)) && AllNames(Normal(path))
  {
    result := "";
    var pieces := Pieces(path);
    ghost var names: seq<string> := [];
    for i := 0 to |pieces|
      invariant result == PathText(names) && AllNames(names)
      invariant Fold(names, Components(pieces[i..])) == Normal(path)
    {
      var piece := pieces[i];
      assert pieces[i..][0] == piece && pieces[i..][1..] == pieces[i + 1..];
      PiecesLack(path, '/', i);
      if piece == "" || piece == "." {
        assert Components(pieces[i..]) == Components(pieces[i + 1..]);
        continue;
      }
      assert Components(pieces[i..])[1..] == Components(pieces[i + 1..]);
      if piece == ".." {
        result := Pop(result, names);
      } else {
        result := Push(result, piece, names);
      }
      names := Take(names, piece);
    }
  }

  // ---- joining --------------------------------------------------------------------------

  lemma {:induction false} JoinMore(names: seq<string>, name: string)
    requires AllNames(names)
    ensures PathText(names + [name]) == if names == [] then name else PathText(names) + "/" + name
    ensures names != [] ==> PathText(names) != ""
    decreases |names|
  {
    if names == [] {
      assert [] + [name] == [name];
    } else if |names| == 1 {
      assert (names + [name])[1..] == [name] && (names + [name])[0] == names[0];
      assert Join([name], "/") == name && Join(names, "/") == names[0];
      assert IsName(names[0]);
    } else {
      var tail := names[1..];
      assert (names + [name])[1..] == tail + [name];
      JoinMore(tail, name);
      assert IsName(names[0]);
    }
  }

  lemma {:induction false} ComponentsOfNames(names: seq<string>)
    requires AllNames(names)
    ensures Components(names) == names
  {
    if names != [] {
      ComponentsOfNames(names[1..]);
    }
  }

  lemma PiecesOfText(names: seq<string>)
    requires AllNames(names)
    ensures Components(Pieces(PathText(names))) == names
  {
    if names == [] {
      NoChar("", '/');
    } else {
      SplitJoinChar(names, '/');
      ComponentsOfNames(names);
    }
  }

  lemma {:induction false} FoldNames(names: seq<string>, more: seq<string>)
    requires AllNames(more)
    ensures Fold(names, more) == names + more
    decreases |more|
  {
    if more != [] {
      assert IsName(more[0]);
      FoldNames(names + [more[0]], more[1..]);
      assert names + [more[0]] + more[1..] == names + more;
    }
  }

  lemma {:induction false} FoldKeepsNames(names: seq<string>, pieces: seq<string>)
    requires AllNames(names) && forall k :: 0 <= k < |pieces| ==> '/' !in pieces[k]
    ensures AllNames(Fold(names, Components(pieces)))
    decreases |pieces|
  {
    if pieces != [] {
      var rest := pieces[1..];
      if pieces[0] == "" || pieces[0] == "." {
        assert Components(pieces) == Components(rest);
        FoldKeepsNames(names, rest);
      } else {
        assert Components(pieces)[1..] == Components(rest);
        FoldKeepsNames(Take(names, pieces[0]), rest);
      }
    }
  }

  /** Only plain names come out: nothing empty, no `.`, no `..`, no slash. */
  lemma OnlyNames(path: string)
    ensures AllNames(Normal(path))
  {
    forall k | 0 <= k < |Pieces(path)| ensures '/' !in Pieces(path)[k] {
      PiecesLack(path, '/', k);
    }
    FoldKeepsNames([], Pieces(path));
  }

  /** Normalizing twice is normalizing once. */
  lemma NormalizingIsIdempotent(path: string)
    ensures Normal(PathText(Normal(path))) == Normal(path)
  {
    OnlyNames(path);
    PiecesOfText(Normal(path));
    FoldNames([], Normal(path));
    assert [] + Normal(path) == Normal(path);
  }

  lemma FirstPiece(a: string, rest: string)
    requires '/' !in a
    ensures Pieces(a + "/" + rest) == [a] + Pieces(rest)
  {
    FirstChar(a, '/', rest);
    var s := a + "/" + rest;
    assert s[..|a|] == a && s[|a| + 1..] == rest;
  }

  lemma CutAtSlash(p: string) returns (a: string, rest: string)
    requires '/' in p
    ensures '/' !in a && p == a + "/" + rest && |rest| < |p|
  {
    var i := 0;
    while p[i] != '/'
      invariant 0 <= i < |p| && '/' !in p[..i] && '/' in p[i..]
      decreases |p| - i
    {
      assert p[i..] == [p[i]] + p[i + 1..] && p[..i + 1] == p[..i] + [p[i]];
      i := i + 1;
    }
    a, rest := p[..i], p[i + 1..];
  }

  lemma SlashRegroup(a: string, b: string, c: string)
    ensures (a + "/" + b) + "/" + c == a + "/" + (b + "/" + c)
  {
  }

  lemma {:induction false} PiecesOfBoth(p: string, q: string)
    ensures Pieces(p + "/" + q) == Pieces(p) + Pieces(q)
    decreases |p|, 1
  {
    if '/' in p {
      PiecesOfCut(p, q);
    } else {
      NoChar(p, '/');
      FirstPiece(p, q);
    }
  }

  lemma {:induction false} PiecesOfCut(p: string, q: string)
    requires '/' in p
    ensures Pieces(p + "/" + q) == Pieces(p) + Pieces(q)
    decreases |p|, 0
  {
    hide Pieces;
    var a, rest := CutAtSlash(p);
    PiecesOfBoth(rest, q);
    FirstPiece(a, rest);
    FirstPiece(a, rest + "/" + q);
    SlashRegroup(a, rest, q);
    Regroup([a], Pieces(rest), Pieces(q));
  }

  lemma {:induction false} ComponentsOfBoth(a: seq<string>, b: seq<string>)
    ensures Components(a + b) == Components(a) + Components(b)
    decreases |a|
  {
    if a == [] {
      assert a + b == b;
    } else {
      assert (a + b)[1..] == a[1..] + b;
      ComponentsOfBoth(a[1..], b);
    }
  }

  lemma {:induction false} FoldBoth(names: seq<string>, a: seq<string>, b: seq<string>)
    ensures Fold(names, a + b) == Fold(Fold(names, a), b)
    decreases |a|
  {
    if a == [] {
      assert a + b == b;
    } else {
      assert (a + b)[1..] == a[1..] + b;
      FoldBoth(Take(names, a[0]), a[1..], b);
    }
  }

  /** A longer path goes on from where the shorter one ended, wherever it is cut; in particular
      from its normal form. */
  lemma NormalContinues(p: string, q: string)
    ensures Normal(p + "/" + q) == Fold(Normal(p), Components(Pieces(q)))
    ensures Normal(p + "/" + q) == Normal(PathText(Normal(p)) + "/" + q)
  {
    PiecesOfBoth(p, q);
    ComponentsOfBoth(Pieces(p), Pieces(q));
    FoldBoth([], Components(Pieces(p)), Components(Pieces(q)));
    var n := PathText(Normal(p));
    NormalizingIsIdempotent(p);
    PiecesOfBoth(n, q);
    ComponentsOfBoth(Pieces(n), Pieces(q));
    FoldBoth([], Components(Pieces(n)), Components(Pieces(q)));
  }

  // ---- walking --------------------------------------------------------------------------

  /** A tree without symlinks. */
  datatype Node = File(inode: nat) | Dir(inode: nat, entries: map<string, Node>)

  /** One step of a walk, piece by piece as a kernel takes it. `chain` are the nodes from the root
      to where the walk is; every step needs a directory to start from. */
  function WalkStep(chain: seq<Node>, piece: string): Option<seq<Node>>
    requires chain != []
  {
    var here := chain[|chain| - 1];
    if !here.Dir? then None
    else if piece == "" || piece == "." then Some(chain)
    else if piece == ".." then Some(if |chain| == 1 then chain else chain[..|chain| - 1])
    else if piece in here.entries then Some(chain + [here.entries[piece]])
    else None
  }

  function Walk(chain: seq<Node>, pieces: seq<string>): (r: Option<seq<Node>>)
    requires chain != []
    ensures r.Some? ==> r.value != []
    decreases |pieces|
  {
    if pieces == [] then Some(chain)
    else
      match WalkStep(chain, pieces[0])
      case None => None
      case Some(next) => Walk(next, pieces[1..])
  }

  /** Straight down along names. */
  function Down(root: Node, names: seq<string>): Option<Node>
    decreases |names|
  {
    if names == [] then Some(root)
    else if !root.Dir? || names[0] !in root.entries then None
    else Down(root.entries[names[0]], names[1..])
  }

  lemma {:induction false} DownMore(root: Node, names: seq<string>, name: string)
    ensures Down(root, names + [name]) ==
      match Down(root, names)
      case None => None
      case Some(n) => if n.Dir? && name in n.entries then Some(n.entries[name]) else None
    decreases |names|
  {
    if names == [] {
      assert (names + [name])[1..] == [] && names + [name] == [name];
    } else if root.Dir? && names[0] in root.entries {
      assert (names + [name])[1..] == names[1..] + [name];
      DownMore(root.entries[names[0]], names[1..], name);
    }
  }

  /** The chain holds the node at every prefix of the names. */
  ghost predicate IsChain(root: Node, names: seq<string>, chain: seq<Node>) {
    |chain| == |names| + 1 && forall k :: 0 <= k < |chain| ==> Down(root, names[..k]) == Some(chain[k])
  }

  lemma UpFollows(root: Node, names: seq<string>, chain: seq<Node>)
    requires IsChain(root, names, chain)
    ensures IsChain(root, FrontOf(names), if |chain| == 1 then chain else chain[..|chain| - 1])
  {
    hide Down;
    var up := FrontOf(names);
    assert forall k :: 0 <= k <= |up| ==> up[..k] == names[..k];
  }

  lemma DownFollows(root: Node, names: seq<string>, chain: seq<Node>, name: string, child: Node)
    requires IsChain(root, names, chain) && Down(root, names + [name]) == Some(child)
    ensures IsChain(root, names + [name], chain + [child])
  {
    hide Down;
    var down := names + [name];
    assert down[..|down|] == down;
    assert forall k :: 0 <= k <= |names| ==> down[..k] == names[..k];
  }

  lemma OneComponent(names: seq<string>, piece: string)
    ensures Fold(names, Components([piece])) == if piece == "" || piece == "." then names else Take(names, piece)
  {
    assert [piece][1..] == [];
    assert Components([piece]) == if piece == "" || piece == "." then [] else [piece];
  }

  lemma StepFollows(root: Node, names: seq<string>, chain: seq<Node>, piece: string)
    requires IsChain(root, names, chain) && WalkStep(chain, piece).Some?
    ensures IsChain(root, Fold(names, Components([piece])), WalkStep(chain, piece).value)
  {
    OneComponent(names, piece);
    if piece == "" || piece == "." {
    } else if piece == ".." {
      UpFollows(root, names, chain);
    } else {
      assert names[..|names|] == names;
      DownMore(root, names, piece);
      DownFollows(root, names, chain, piece, chain[|chain| - 1].entries[piece]);
    }
  }

  lemma {:induction false} WalkFollows(root: Node, names: seq<string>, chain: seq<Node>, pieces: seq<string>)
    requires IsChain(root, names, chain) && Walk(chain, pieces).Some?
    ensures IsChain(root, Fold(names, Components(pieces)), Walk(chain, pieces).value)
    decreases |pieces|
  {
    if pieces != [] {
      var next := WalkStep(chain, pieces[0]).value;
      StepFollows(root, names, chain, pieces[0]);
      WalkFollows(root, Fold(names, Components([pieces[0]])), next, pieces[1..]);
      ComponentsOfBoth([pieces[0]], pieces[1..]);
      FoldBoth(names, Components([pieces[0]]), Components(pieces[1..]));
      assert [pieces[0]] + pieces[1..] == pieces;
    }
  }

  /** Wherever the step-by-step walk of a path arrives in a tree without symlinks, walking its
      normal form arrives as well. */
  lemma NormalFormWalksThere(root: Node, path: string)
    requires Walk([root], Pieces(path)).Some?
    ensures var chain := Walk([root], Pieces(path)).value;
      Down(root, Normal(path)) == Some(chain[|chain| - 1])
  {
    assert IsChain(root, [], [root]);
    WalkFollows(root, [], [root], Pieces(path));
    var names := Normal(path);
    assert names[..|names|] == names;
  }

  // ---- and the other way round -----------------------------------------------------------

  /** The normal form of the first k pieces, taken from `names` on, leads to a node; to a directory
      if the walk goes on from there. */
  ghost predicate Leads(root: Node, names: seq<string>, pieces: seq<string>, k: nat)
    requires k <= |pieces|
  {
    var n := Down(root, Fold(names, Components(pieces[..k])));
    n.Some? && (k < |pieces| ==> n.value.Dir?)
  }

  ghost predicate AllLead(root: Node, names: seq<string>, pieces: seq<string>) {
    forall k: nat :: k <= |pieces| ==> Leads(root, names, pieces, k)
  }

  lemma StepIff(root: Node, names: seq<string>, chain: seq<Node>, pieces: seq<string>)
    requires IsChain(root, names, chain) && pieces != []
    ensures Leads(root, names, pieces, 0) <==> chain[|chain| - 1].Dir?
    ensures WalkStep(chain, pieces[0]).Some?
       <==> chain[|chain| - 1].Dir? && Down(root, Fold(names, Components(pieces[..1]))).Some?
  {
    assert pieces[..0] == [] && pieces[..1] == [pieces[0]];
    OneComponent(names, pieces[0]);
    assert names[..|names|] == names;
    assert Down(root, names) == Some(chain[|chain| - 1]);
    if pieces[0] == ".." {
      UpFollows(root, names, chain);
      var up := FrontOf(names);
      assert up[..|up|] == up;
    } else if pieces[0] != "" && pieces[0] != "." {
      DownMore(root, names, pieces[0]);
    }
  }

  lemma LeadsLater(root: Node, names: seq<string>, pieces: seq<string>, k: nat)
    requires pieces != [] && k < |pieces|
    ensures Leads(root, names, pieces, k + 1) <==> Leads(root, Fold(names, Components([pieces[0]])), pieces[1..], k)
  {
    var front, later := [pieces[0]], pieces[1..][..k];
    assert pieces[..k + 1] == front + later;
    ComponentsOfBoth(front, later);
    FoldBoth(names, Components(front), Components(later));
  }

  lemma {:induction false} WalkIff(root: Node, names: seq<string>, chain: seq<Node>, pieces: seq<string>)
    requires IsChain(root, names, chain)
    ensures Walk(chain, pieces).Some? <==> AllLead(root, names, pieces)
    decreases |pieces|
  {
    if pieces == [] {
      assert pieces[..0] == [] && names[..|names|] == names;
    } else {
      StepIff(root, names, chain, pieces);
      var after, rest := Fold(names, Components([pieces[0]])), pieces[1..];
      forall k: nat | k < |pieces| ensures Leads(root, names, pieces, k + 1) <==> Leads(root, after, rest, k) {
        LeadsLater(root, names, pieces, k);
      }
      FromTheSecond(root, names, pieces, after);
      if WalkStep(chain, pieces[0]).Some? {
        StepFollows(root, names, chain, pieces[0]);
        WalkIff(root, after, WalkStep(chain, pieces[0]).value, rest);
      } else if chain[|chain| - 1].Dir? {
        assert !Leads(root, names, pieces, 1);
      }
    }
  }

  lemma FromTheSecond(root: Node, names: seq<string>, pieces: seq<string>, after: seq<string>)
    requires pieces != []
    requires forall k: nat :: k < |pieces| ==> (Leads(root, names, pieces, k + 1) <==> Leads(root, after, pieces[1..], k))
    ensures AllLead(root, names, pieces) <==> Leads(root, names, pieces, 0) && AllLead(root, after, pieces[1..])
  {
    if Leads(root, names, pieces, 0) && AllLead(root, after, pieces[1..]) {
      forall k: nat | k <= |pieces| ensures Leads(root, names, pieces, k) {
        if k > 0 {
          assert Leads(root, after, pieces[1..], k - 1);
        }
      }
    }
    if AllLead(root, names, pieces) {
      forall k: nat | k <= |pieces[1..]| ensures Leads(root, after, pieces[1..], k) {
        assert Leads(root, names, pieces, k + 1);
      }
    }
  }

  /** The step-by-step walk of a path succeeds if and only if the normal form of every prefix of
      its pieces leads to a node, and to a directory wherever the path goes on. The walk of the
      normal form itself asks this of the whole path only. */
  lemma WalkSucceedsIff(root: Node, path: string)
    ensures Walk([root], Pieces(path)).Some? <==> AllLead(root, [], Pieces(path))
    ensures Leads(root, [], Pieces(path), |Pieces(path)|) <==> Down(root, Normal(path)).Some?
  {
    assert IsChain(root, [], [root]);
    WalkIff(root, [], [root], Pieces(path));
    assert Pieces(path)[..|Pieces(path)|] == Pieces(path);
  }

  lemma MissingThenUp()
    ensures Pieces("x/../a") == ["x", "..", "a"]
  {
    var pieces := ["x", "..", "a"];
    assert pieces[1..] == ["..", "a"] && ["..", "a"][1..] == ["a"];
    assert Join(["a"], "/") == "a" && Join(["..", "a"], "/") == "../a" && Join(pieces, "/") == "x/../a";
    SplitJoinChar(pieces, '/');
  }

  lemma UpTakesBack(a: string)
    requires a != "" && a != "." && a != ".."
    ensures Fold([], Components(["x", "..", a])) == [a]
  {
    ComponentsOfBoth(["x"], ["..", a]);
    ComponentsOfBoth([".."], [a]);
    assert ["x"] + ["..", a] == ["x", "..", a] && [".."] + [a] == ["..", a];
    assert forall c: string :: [c][1..] == [];
    assert Components(["x"]) == ["x"] && Components([".."]) == [".."] && Components([a]) == [a];
    FoldBoth([], ["x"], ["..", a]);
    FoldBoth(["x"], [".."], [a]);
    assert Fold([], ["x"]) == ["x"] && Fold(["x"], [".."]) == [] && Fold([], [a]) == [a];
  }

  /** Not the other way round: `..` takes back a name that was never looked up. */
  lemma NormalFormWalksFurther()
    ensures var root := Dir(0, map["a" := File(1)]);
      Normal("x/../a") == ["a"] && Down(root, ["a"]) == Some(File(1)) && Walk([root], Pieces("x/../a")).None?
  {
    hide Pieces;
    hide Components;
    hide Fold;
    MissingThenUp();
    UpTakesBack("a");
    var root := Dir(0, map["a" := File(1)]);
    assert ["a"][1..] == [] && Down(root.entries["a"], []) == Some(File(1));
    assert WalkStep([root], "x").None?;
  }
}
