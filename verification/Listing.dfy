/** Directory listings in pages (src/files.rs, `handle_list`). */
module Listing {
  import opened Wrappers

  const DEFAULT_LIMIT: nat := 10_000
  const MAX_LIMIT: nat := 50_000

  // ---- order ----------------------------------------------------------------------------

  /** Rust's order of strings, byte by byte. */
  predicate Less(a: string, b: string)
    decreases |a|
  {
    b != "" && (a == "" || a[0] < b[0] || (a[0] == b[0] && Less(a[1..], b[1..])))
  }

  lemma {:induction false} Irreflexive(a: string)
    ensures !Less(a, a)
    decreases |a|
  {
    if a != "" {
      Irreflexive(a[1..]);
    }
  }

  lemma {:induction false} Transitive(a: string, b: string, c: string)
    requires Less(a, b) && Less(b, c)
    ensures Less(a, c)
    decreases |a|
  {
    if a != "" && a[0] == b[0] == c[0] {
      Transitive(a[1..], b[1..], c[1..]);
    }
  }

  lemma {:induction false} Total(a: string, b: string)
    ensures Less(a, b) || Less(b, a) || a == b
    decreases |a|
  {
    if a != "" && b != "" && a[0] == b[0] {
      Total(a[1..], b[1..]);
      assert a == [a[0]] + a[1..] && b == [b[0]] + b[1..];
    }
  }

  lemma Antisymmetric(a: string, b: string)
    requires Less(a, b)
    ensures !Less(b, a)
  {
    if Less(b, a) {
      Transitive(a, b, a);
      Irreflexive(a);
    }
  }

  /** The first k bytes are the same; then a ends, or has the smaller byte. */
  predicate SmallerAt(a: string, b: string, k: nat) {
    k <= |a| && k < |b| && a[..k] == b[..k] && (k == |a| || a[k] < b[k])
  }

  lemma SameFirst(a: string, b: string, k: nat)
    requires k > 0 && SmallerAt(a, b, k)
    ensures a != "" && b != "" && a[0] == b[0]
  {
    assert a[..k][0] == b[..k][0];
  }

  /** The order is that of the first byte in which the names differ; a name comes before the longer
      ones that begin with it. */
  lemma {:induction false} ByFirstDifference(a: string, b: string)
    ensures Less(a, b) <==> exists k: nat :: SmallerAt(a, b, k)
    decreases |a|
  {
    forall k: nat | k > 0 && SmallerAt(a, b, k) ensures a != "" && b != "" && a[0] == b[0] {
      SameFirst(a, b, k);
    }
    if a == "" || b == "" || a[0] != b[0] {
      assert SmallerAt(a, b, 0) == Less(a, b);
    } else {
      ByFirstDifference(a[1..], b[1..]);
      assert a == [a[0]] + a[1..] && b == [b[0]] + b[1..];
      if Less(a, b) {
        var k: nat :| SmallerAt(a[1..], b[1..], k);
        assert a[..k + 1] == [a[0]] + a[1..][..k] && b[..k + 1] == [b[0]] + b[1..][..k];
        assert SmallerAt(a, b, k + 1);
      }
      if k: nat :| SmallerAt(a, b, k) {
        assert k > 0 && a[..k][1..] == a[1..][..k - 1] && b[..k][1..] == b[1..][..k - 1];
        assert SmallerAt(a[1..], b[1..], k - 1);
      }
    }
  }

  // ---- sorting --------------------------------------------------------------------------

  function Insert(x: string, s: seq<string>): (r: seq<string>)
    ensures |r| == |s| + 1
    decreases |s|
  {
    if s == [] then [x]
    else if Less(s[0], x) then [s[0]] + Insert(x, s[1..])
    else [x] + s
  }

  /** Rust's `sort_by` on names. */
  function Sort(s: seq<string>): (r: seq<string>)
    ensures |r| == |s|
    decreases |s|
  {
    if s == [] then [] else Insert(s[0], Sort(s[1..]))
  }

  ghost predicate Distinct(s: seq<string>) {
    forall i, j :: 0 <= i < j < |s| ==> s[i] != s[j]
  }

  ghost predicate Ascending(s: seq<string>) {
    forall i, j :: 0 <= i < j < |s| ==> Less(s[i], s[j])
  }

  lemma {:induction false} InsertHolds(x: string, s: seq<string>)
    ensures multiset(Insert(x, s)) == multiset(s) + multiset{x}
    decreases |s|
  {
    if s != [] && Less(s[0], x) {
      InsertHolds(x, s[1..]);
      assert s == [s[0]] + s[1..];
    }
  }

  lemma {:induction false} SortHolds(s: seq<string>)
    ensures multiset(Sort(s)) == multiset(s)
    decreases |s|
  {
    if s != [] {
      SortHolds(s[1..]);
      InsertHolds(s[0], Sort(s[1..]));
      assert s == [s[0]] + s[1..];
    }
  }

  lemma InHolds(a: seq<string>, b: seq<string>, x: string)
    requires multiset(a) == multiset(b)
    ensures x in a <==> x in b
  {
    assert x in a <==> x in multiset(a);
    assert x in b <==> x in multiset(b);
  }

  lemma {:induction false} InsertAscends(x: string, s: seq<string>)
    requires Ascending(s) && x !in s
    ensures Ascending(Insert(x, s))
    decreases |s|
  {
    if s != [] {
      if Less(s[0], x) {
        var rest := Insert(x, s[1..]);
        InsertAscends(x, s[1..]);
        InsertHolds(x, s[1..]);
        hide Less;
        forall j | 0 <= j < |rest| ensures Less(s[0], rest[j]) {
          assert rest[j] in multiset(rest);
          if rest[j] != x {
            assert rest[j] in s[1..];
          }
        }
      } else {
        Total(x, s[0]);
        forall j | 0 <= j < |s| ensures Less(x, s[j]) {
          if j > 0 {
            Transitive(x, s[0], s[j]);
          }
        }
      }
    }
  }

  lemma {:induction false} SortAscends(s: seq<string>)
    requires Distinct(s)
    ensures Ascending(Sort(s))
    decreases |s|
  {
    if s != [] {
      SortAscends(s[1..]);
      SortHolds(s[1..]);
      InHolds(Sort(s[1..]), s[1..], s[0]);
      InsertAscends(s[0], Sort(s[1..]));
    }
  }

  /** In order, with names that occur again next to each other. */
  ghost predicate Ordered(s: seq<string>) {
    forall i, j :: 0 <= i < j < |s| ==> !Less(s[j], s[i])
  }

  lemma LessOrNot(a: string, b: string, c: string)
    requires !Less(b, a) && !Less(c, b)
    ensures !Less(c, a)
  {
    if Less(c, a) {
      Total(a, b);
      if a != b {
        Transitive(c, a, b);
      }
    }
  }

  lemma {:induction false} InsertKeepsOrder(x: string, s: seq<string>)
    requires Ordered(s)
    ensures Ordered(Insert(x, s))
    decreases |s|
  {
    if s != [] {
      if Less(s[0], x) {
        var rest := Insert(x, s[1..]);
        InsertKeepsOrder(x, s[1..]);
        InsertHolds(x, s[1..]);
        forall j | 0 <= j < |rest| ensures !Less(rest[j], s[0]) {
          assert rest[j] in multiset(rest);
          if rest[j] == x {
            Antisymmetric(s[0], x);
          } else {
            assert rest[j] in s[1..];
          }
        }
      } else {
        forall j | 0 <= j < |s| ensures !Less(s[j], x) {
          if j > 0 {
            LessOrNot(x, s[0], s[j]);
          }
        }
      }
    }
  }

  lemma {:induction false} SortIsOrdered(s: seq<string>)
    ensures Ordered(Sort(s))
    decreases |s|
  {
    if s != [] {
      SortIsOrdered(s[1..]);
      InsertKeepsOrder(s[0], Sort(s[1..]));
    }
  }

  lemma FirstOfOrdered(a: seq<string>, b: seq<string>)
    requires a != [] && b != [] && Ordered(a) && Ordered(b) && multiset(a) == multiset(b)
    ensures a[0] == b[0]
  {
    InHolds(a, b, a[0]);
    InHolds(a, b, b[0]);
    var i :| 0 <= i < |b| && b[i] == a[0];
    var j :| 0 <= j < |a| && a[j] == b[0];
    Total(a[0], b[0]);
  }

  /** There is only one order of given names, those that occur again included. */
  lemma {:induction false} OneOrder(a: seq<string>, b: seq<string>)
    requires Ordered(a) && Ordered(b) && multiset(a) == multiset(b)
    ensures a == b
    decreases |a|
  {
    assert |a| == |multiset(a)| && |b| == |multiset(b)|;
    if a != [] {
      FirstOfOrdered(a, b);
      assert a == [a[0]] + a[1..] && b == [b[0]] + b[1..];
      assert multiset(a[1..]) == multiset(a) - multiset{a[0]};
      assert multiset(b[1..]) == multiset(b) - multiset{b[0]};
      OneOrder(a[1..], b[1..]);
    }
  }

  // ---- pages ----------------------------------------------------------------------------

  datatype Page = Page(items: seq<string>, truncated: bool, next: Option<string>)

  function Limit(requested: Option<nat>): nat {
    var n := match requested case Some(n) => n case None => DEFAULT_LIMIT;
    if n < MAX_LIMIT then n else MAX_LIMIT
  }

  function Beyond(names: seq<string>, after: string): seq<string> {
    if names == [] then []
    else Beyond(names[..|names| - 1], after)
         + if Less(after, names[|names| - 1]) then [names[|names| - 1]] else []
  }

  /** The page behind `after`: the first names in order, and where to go on. */
  function PageBehind(names: seq<string>, limit: nat, after: string): Page {
    var listing := Sort(Beyond(names, after));
    if |listing| <= limit then Page(listing, false, None)
    else Page(listing[..limit], true, if limit == 0 then None else Some(listing[limit - 1]))
  }

  method HandleList(names: seq<string>, requested: Option<nat>, after: string) returns (page: Page)
    ensures page == PageBehind(names, Limit(requested), after)
  {
    var limit := Limit(requested);
    var named: seq<string> := [];
    for i := 0 to |names|
      invariant named == Beyond(names[..i], after)
    {
      assert names[..i + 1][..i] == names[..i];
      if Less(after, names[i]) {
        named := named + [names[i]];
      }
    }
    assert names[..|names|] == names;
    named := Sort(named);
    var truncated := |named| > limit;
    if truncated {
      named := named[..limit];
    }
    var next := None;
    if truncated && named != [] {
      next := Some(named[|named| - 1]);
    }
    page := Page(named, truncated, next);
  }

  /** A page has as many names as were asked for, 10,000 when no number was given, and never more
      than 50,000; it says that it is truncated if and only if there are more behind the cursor. */
  lemma PageSize(names: seq<string>, requested: Option<nat>, after: string)
    ensures var page, all := PageBehind(names, Limit(requested), after), |Beyond(names, after)|;
      && |page.items| <= all && (page.truncated <==> |page.items| < all)
      && |page.items| <= 50_000
      && (requested.None? ==> |page.items| <= 10_000 && (page.truncated ==> |page.items| == 10_000))
      && (requested.Some? ==> |page.items| <= requested.value)
      && (requested.Some? && page.truncated ==> |page.items| == requested.value || |page.items| == 50_000)
  {
    hide Sort;
    hide Beyond;
    var limit := Limit(requested);
    if |Beyond(names, after)| > limit {
      assert |PageBehind(names, limit, after).items| == limit;
    }
  }

  // ---- all pages ------------------------------------------------------------------------

  /** From which position on an ordered list lies behind a name. */
  function Upto(s: seq<string>, after: string): (k: nat)
    ensures k <= |s|
  {
    if s == [] || Less(after, s[0]) then 0 else 1 + Upto(s[1..], after)
  }

  lemma {:induction false} UptoIsRight(s: seq<string>, after: string)
    requires Ordered(s)
    ensures forall i :: 0 <= i < |s| ==> (Less(after, s[i]) <==> Upto(s, after) <= i)
    decreases |s|
  {
    if s != [] {
      if Less(after, s[0]) {
        forall i | 0 < i < |s| ensures Less(after, s[i]) {
          LessUnder(after, s[0], s[i]);
        }
      } else {
        UptoIsRight(s[1..], after);
        forall i | 0 < i < |s| ensures Less(after, s[i]) <==> Upto(s[1..], after) <= i - 1 {
          assert s[i] == s[1..][i - 1];
        }
      }
    }
  }

  lemma LessUnder(a: string, b: string, c: string)
    requires Less(a, b) && !Less(c, b)
    ensures Less(a, c)
  {
    Total(b, c);
    if b != c {
      Transitive(a, b, c);
    }
  }

  /** The names of a list behind `after`, each as often as in the list. */
  lemma {:induction false} BeyondCounts(names: seq<string>, after: string, x: string)
    ensures multiset(Beyond(names, after))[x] == if Less(after, x) then multiset(names)[x] else 0
    decreases |names|
  {
    if names != [] {
      var front, last := names[..|names| - 1], names[|names| - 1];
      BeyondCounts(front, after, x);
      assert names == front + [last];
    }
  }

  lemma SuffixCounts(s: seq<string>, after: string, x: string)
    requires Ordered(s)
    ensures multiset(s[Upto(s, after)..])[x] == if Less(after, x) then multiset(s)[x] else 0
  {
    UptoIsRight(s, after);
    var k := Upto(s, after);
    var low, high := s[..k], s[k..];
    assert s == low + high;
    if Less(after, x) {
      assert x !in low;
    } else {
      assert x !in high;
    }
  }

  /** A page is taken from the end of the sorted listing that lies behind `after`. */
  lemma BeyondIsSuffix(names: seq<string>, after: string)
    ensures var s := Sort(names); Sort(Beyond(names, after)) == s[Upto(s, after)..]
  {
    hide Sort;
    hide Beyond;
    hide Less;
    hide Upto;
    hide Ordered;
    var s, b := Sort(names), Beyond(names, after);
    var k := Upto(s, after);
    SortIsOrdered(names);
    SortIsOrdered(b);
    SortHolds(names);
    SortHolds(b);
    forall x: string ensures multiset(Sort(b))[x] == multiset(s[k..])[x] {
      BeyondCounts(names, after, x);
      SuffixCounts(s, after, x);
    }
    assert multiset(Sort(b)) == multiset(s[k..]);
    OneOrder(Sort(b), s[k..]);
  }

  /** Behind the name at position i the listing goes on at the first other name. */
  lemma CursorMoves(s: seq<string>, i: nat)
    requires Ordered(s) && i < |s|
    ensures i < Upto(s, s[i])
    ensures i + 1 < |s| ==> (Upto(s, s[i]) == i + 1 <==> s[i] != s[i + 1])
    ensures i + 1 == |s| ==> Upto(s, s[i]) == i + 1
  {
    UptoIsRight(s, s[i]);
    Irreflexive(s[i]);
    if i + 1 < |s| {
      Irreflexive(s[i + 1]);
      Total(s[i], s[i + 1]);
    }
  }

  /** A client that follows `next` as long as `truncated` says so, starting behind `after`. */
  function Follow(names: seq<string>, limit: nat, after: string): seq<Page>
    requires limit >= 1
    decreases |Sort(Beyond(names, after))|
  {
    var page := PageBehind(names, limit, after);
    if !page.truncated then [page]
    else
      GoesOn(names, limit, after);
      [page] + Follow(names, limit, page.next.value)
  }

  lemma GoesOn(names: seq<string>, limit: nat, after: string)
    requires limit >= 1 && PageBehind(names, limit, after).truncated
    ensures var s, k, next := Sort(names), Upto(Sort(names), after), PageBehind(names, limit, after).next.value;
      && k + limit < |s| && next == s[k + limit - 1]
      && PageBehind(names, limit, after).items == s[k..k + limit]
      && Sort(Beyond(names, next)) == s[Upto(s, next)..] && k + limit <= Upto(s, next)
      && (Upto(s, next) == k + limit <==> s[k + limit - 1] != s[k + limit])
      && |Sort(Beyond(names, next))| < |Sort(Beyond(names, after))|
  {
    hide Sort;
    hide Beyond;
    var s := Sort(names);
    var k := Upto(s, after);
    BeyondIsSuffix(names, after);
    SortIsOrdered(names);
    assert Sort(Beyond(names, after))[limit - 1] == s[k + limit - 1];
    BeyondIsSuffix(names, s[k + limit - 1]);
    CursorMoves(s, k + limit - 1);
  }

  function Items(pages: seq<Page>): seq<string> {
    if pages == [] then [] else pages[0].items + Items(pages[1..])
  }

  lemma ItemsOfMore(page: Page, later: seq<Page>)
    ensures Items([page] + later) == page.items + Items(later)
  {
    assert ([page] + later)[1..] == later;
  }

  /** No page from position k on ends between two equal names. */
  ghost predicate CleanCuts(s: seq<string>, limit: nat, k: nat) {
    forall j: nat :: 0 < j && k + j * limit < |s| ==> Differ(s, k + j * limit)
  }

  ghost predicate Differ(s: seq<string>, i: nat) {
    0 < i < |s| ==> s[i - 1] != s[i]
  }

  lemma CleanCutsStep(s: seq<string>, limit: nat, k: nat)
    requires limit >= 1 && k + limit < |s|
    ensures CleanCuts(s, limit, k) <==> Differ(s, k + limit) && CleanCuts(s, limit, k + limit)
  {
    if CleanCuts(s, limit, k) {
      assert Differ(s, k + 1 * limit);
      forall j: nat | 0 < j && k + limit + j * limit < |s| ensures Differ(s, k + limit + j * limit) {
        assert k + (j + 1) * limit == k + limit + j * limit;
      }
    }
    if Differ(s, k + limit) && CleanCuts(s, limit, k + limit) {
      forall j: nat | 0 < j && k + j * limit < |s| ensures Differ(s, k + j * limit) {
        if j > 1 {
          assert k + limit + (j - 1) * limit == k + j * limit;
        } else {
          assert k + j * limit == k + limit;
        }
      }
    }
  }

  lemma CleanCutsEnd(s: seq<string>, limit: nat, k: nat)
    requires limit >= 1 && |s| <= k + limit
    ensures CleanCuts(s, limit, k)
  {
    forall j: nat | 0 < j ensures k + j * limit >= |s| {
      assert j * limit >= limit;
    }
  }

  lemma FollowsOn(names: seq<string>, limit: nat, after: string)
    requires limit >= 1
    ensures var page, pages := PageBehind(names, limit, after), Follow(names, limit, after);
      if page.truncated then page.next.Some? && pages == [page] + Follow(names, limit, page.next.value)
      else Items(pages) == page.items == Sort(Beyond(names, after)) && |page.items| <= limit
  {
    hide Sort;
    hide Beyond;
    var page := PageBehind(names, limit, after);
    if !page.truncated {
      ItemsOfMore(page, []);
      assert [page] + [] == [page];
    }
  }

  /** The pages behind `after`: all of the listing there if no page ends between two equal names,
      and otherwise fewer names than it has. */
  lemma {:induction false} PagesAddUp(names: seq<string>, limit: nat, after: string)
    requires limit >= 1
    ensures var listing, items := Sort(Beyond(names, after)), Items(Follow(names, limit, after));
      if CleanCuts(Sort(names), limit, Upto(Sort(names), after)) then items == listing else |items| < |listing|
    decreases |Sort(Beyond(names, after))|
  {
    hide Follow;
    hide PageBehind;
    hide Sort;
    hide Beyond;
    hide CleanCuts;
    hide Items;
    hide Upto;
    hide Less;
    FollowsOn(names, limit, after);
    var s, page := Sort(names), PageBehind(names, limit, after);
    var k := Upto(s, after);
    BeyondIsSuffix(names, after);
    if page.truncated {
      GoesOn(names, limit, after);
      var next := page.next.value;
      PagesAddUp(names, limit, next);
      OneMorePage(s, limit, k, page, Follow(names, limit, next), Upto(s, next));
    } else {
      CleanCutsEnd(s, limit, k);
    }
  }

  lemma OneMorePage(s: seq<string>, limit: nat, k: nat, page: Page, later: seq<Page>, next: nat)
    requires limit >= 1 && k + limit < |s| && k + limit <= next <= |s| && page.items == s[k..k + limit]
    requires next == k + limit <==> s[k + limit - 1] != s[k + limit]
    requires if CleanCuts(s, limit, next) then Items(later) == s[next..] else |Items(later)| < |s| - next
    ensures var items := Items([page] + later);
      if CleanCuts(s, limit, k) then items == s[k..] else |items| < |s| - k
  {
    ItemsOfMore(page, later);
    CleanCutsStep(s, limit, k);
    hide CleanCuts;
    hide Items;
    assert s[k..] == s[k..k + limit] + s[k + limit..];
  }

  lemma NothingBeforeNames(names: seq<string>)
    requires forall x :: x in names ==> x != ""
    ensures Upto(Sort(names), "") == 0
  {
    hide Sort;
    var s := Sort(names);
    SortHolds(names);
    if s != [] {
      InHolds(s, names, s[0]);
    }
  }

  /** In a directory that does not change, with any limit of at least one, following the cursor
      ends, and the pages are the sorted listing of all names if and only if no page ends between
      two names that look the same. */
  lemma PaginationIsCompleteExactly(names: seq<string>, limit: nat)
    requires limit >= 1 && forall x :: x in names ==> x != ""
    ensures var s := Sort(names);
      Items(Follow(names, limit, "")) == s
      <==> forall j: nat :: 0 < j && j * limit < |names| ==> s[j * limit - 1] != s[j * limit]
  {
    hide Sort;
    hide Beyond;
    hide Follow;
    hide CleanCuts;
    var s := Sort(names);
    NothingBeforeNames(names);
    BeyondIsSuffix(names, "");
    PagesAddUp(names, limit, "");
    assert s[0..] == s;
    CutsAtMultiples(s, limit);
  }

  lemma CutsAtMultiples(s: seq<string>, limit: nat)
    requires limit >= 1
    ensures CleanCuts(s, limit, 0) <==> forall j: nat :: 0 < j && j * limit < |s| ==> s[j * limit - 1] != s[j * limit]
  {
    forall j: nat | 0 < j && j * limit < |s|
      ensures Differ(s, 0 + j * limit) <==> s[j * limit - 1] != s[j * limit] {
      assert j * limit >= 1;
    }
  }

  /** With distinct names nothing is lost and nothing repeated. */
  lemma PaginationIsComplete(names: seq<string>, limit: nat)
    requires Distinct(names) && limit >= 1 && forall x :: x in names ==> x != ""
    ensures Items(Follow(names, limit, "")) == Sort(names)
    ensures Ascending(Sort(names)) && multiset(Sort(names)) == multiset(names)
  {
    SortAscends(names);
    SortHolds(names);
    PaginationIsCompleteExactly(names, limit);
    hide Sort;
    hide Follow;
    hide Ascending;
    AscendingCuts(Sort(names), limit);
  }

  lemma AscendingCuts(s: seq<string>, limit: nat)
    requires Ascending(s) && limit >= 1
    ensures forall j: nat :: 0 < j && j * limit < |s| ==> s[j * limit - 1] != s[j * limit]
  {
    forall j: nat | 0 < j && j * limit < |s| ensures s[j * limit - 1] != s[j * limit] {
      assert j * limit >= 1;
      Irreflexive(s[j * limit]);
    }
  }

  /** A page that ends between two equal names loses some: fewer names are listed than there are. */
  lemma EqualNamesAreLost(names: seq<string>, limit: nat, j: nat)
    requires limit >= 1 && (forall x :: x in names ==> x != "") && 0 < j && 0 < j * limit < |names|
    requires Sort(names)[j * limit - 1] == Sort(names)[j * limit]
    ensures |Items(Follow(names, limit, ""))| < |names|
  {
    hide Sort;
    hide Beyond;
    hide Follow;
    hide CleanCuts;
    NothingBeforeNames(names);
    BeyondIsSuffix(names, "");
    PagesAddUp(names, limit, "");
    CutsAtMultiples(Sort(names), limit);
  }

  /** A truncated page says where to go on if and only if the limit was not zero. */
  lemma LimitZeroIsStuck(names: seq<string>, limit: nat, after: string)
    requires PageBehind(names, limit, after).truncated
    ensures PageBehind(names, limit, after).next.Some? <==> limit >= 1
  {
  }
}
