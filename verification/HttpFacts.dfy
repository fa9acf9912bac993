/** When a head is accepted and what comes out, said without the order of the header lines. */
module HttpFacts {
  import opened Wrappers
  import opened Text
  import opened Numbers
  import opened Http

  type Parsed = Result<Field, HeadError>

  /** The header lines that are not empty, each parsed by itself. */
  function ParseEach(lines: seq<string>): seq<Parsed> {
    if lines == [] then []
    else if lines[0] == "" then ParseEach(lines[1..])
    else [ParseField(lines[0])] + ParseEach(lines[1..])
  }

  /** What the header loop does with its lines once each is parsed. */
  function Merge(fields: seq<Parsed>, count: nat, before: Headers): Result<Headers, HeadError> {
    if fields == [] then Ok(before)
    else if count + 1 > MAX_HEADERS then Err(TooManyHeaders)
    else
      match fields[0]
      case Err(e) => Err(e)
      case Ok(f) =>
        if f.name in before && before[f.name] != f.value then Err(Conflict)
        else Merge(fields[1..], count + 1, before[f.name := f.value])
  }

  lemma {:induction false} FieldsAreMerged(lines: seq<string>, count: nat, before: Headers)
    ensures ParseFields(lines, count, before) == Merge(ParseEach(lines), count, before)
    decreases |lines|
  {
    if lines != [] {
      if lines[0] == "" {
        FieldsAreMerged(lines[1..], count, before);
      } else {
        var r := ParseField(lines[0]);
        assert ParseEach(lines)[1..] == ParseEach(lines[1..]);
        if r.Ok? {
          var after := before[r.value.name := r.value.value];
          assert r.value.name in before && before[r.value.name] == r.value.value ==> after == before;
          FieldsAreMerged(lines[1..], count + 1, after);
        }
      }
    }
  }

  predicate AllOk(fields: seq<Parsed>) {
    forall r :: r in fields ==> r.Ok?
  }

  /** Headers of one name agree, among themselves and with what was there before. */
  ghost predicate Agree(fields: seq<Parsed>, before: Headers) {
    && (forall f, g: Field :: Ok(f) in fields && Ok(g) in fields && f.name == g.name ==> f == g)
    && (forall f: Field :: Ok(f) in fields && f.name in before ==> before[f.name] == f.value)
  }

  /** Acceptable header lines, after `count` others that gave `before`: there are not too many,
      each is fine by itself, and headers of one name agree. */
  ghost predicate Acceptable(fields: seq<Parsed>, count: nat, before: Headers) {
    count + |fields| <= MAX_HEADERS && AllOk(fields) && Agree(fields, before)
  }

  ghost predicate Named(fields: seq<Parsed>, name: string) {
    exists f: Field :: Ok(f) in fields && f.name == name
  }

  /** `headers` holds exactly what was there before and what the fields say. */
  ghost predicate Collects(fields: seq<Parsed>, before: Headers, headers: Headers) {
    && (forall n :: n in headers <==> n in before || Named(fields, n))
    && (forall n :: n in before ==> n in headers && headers[n] == before[n])
    && (forall f: Field :: Ok(f) in fields ==> f.name in headers && headers[f.name] == f.value)
  }

  lemma OneMoreAgrees(f: Field, rest: seq<Parsed>, before: Headers)
    ensures Agree([Ok(f)] + rest, before) <==>
            (f.name in before ==> before[f.name] == f.value) && Agree(rest, before[f.name := f.value])
  {
    var all := [Ok(f)] + rest;
    assert Ok(f) in all && forall r :: r in all <==> r == Ok(f) || r in rest;
  }

  lemma OneMoreCollected(f: Field, rest: seq<Parsed>, before: Headers, headers: Headers)
    requires f.name in before ==> before[f.name] == f.value
    requires Collects(rest, before[f.name := f.value], headers)
    ensures Collects([Ok(f)] + rest, before, headers)
  {
    var all := [Ok(f)] + rest;
    assert Ok(f) in all && forall r :: r in all <==> r == Ok(f) || r in rest;
    forall n ensures n in headers <==> n in before || Named(all, n) {
      if n in headers && n !in before && n != f.name {
        assert Named(rest, n);
      }
    }
  }

  /** The header lines are accepted if and only if they are acceptable; and then the result
      collects them. */
  lemma {:induction false} MergeIff(fields: seq<Parsed>, count: nat, before: Headers)
    requires count <= MAX_HEADERS
    ensures Merge(fields, count, before).Ok? <==> Acceptable(fields, count, before)
    ensures Merge(fields, count, before).Ok? ==> Collects(fields, before, Merge(fields, count, before).value)
    decreases |fields|
  {
    if fields != [] {
      var r, rest := fields[0], fields[1..];
      assert fields == [r] + rest && r in fields;
      if r.Ok? && count + 1 <= MAX_HEADERS {
        var f := r.value;
        var after := before[f.name := f.value];
        OneMoreAgrees(f, rest, before);
        if !(f.name in before && before[f.name] != f.value) {
          MergeIff(rest, count + 1, after);
          assert AllOk(fields) <==> AllOk(rest);
          if Merge(rest, count + 1, after).Ok? {
            OneMoreCollected(f, rest, before, Merge(rest, count + 1, after).value);
          }
        }
      }
    }
  }

  lemma CollectsOne(a: seq<Parsed>, b: seq<Parsed>, h1: Headers, h2: Headers)
    requires Collects(a, map[], h1) && Collects(b, map[], h2)
    requires forall r :: r in a <==> r in b
    ensures h1 == h2
  {
    assert forall n :: Named(a, n) <==> Named(b, n);
    forall n | n in h1 ensures n in h2 && h1[n] == h2[n] {
      var f: Field :| Ok(f) in a && f.name == n;
    }
    assert h1.Keys == h2.Keys;
  }

  // ---- order and repetition --------------------------------------------------------------

  function Without(s: seq<string>, k: nat): seq<string>
    requires k < |s|
  {
    s[..k] + s[k + 1..]
  }

  lemma WithoutOne(s: seq<string>, k: nat)
    requires k < |s|
    ensures multiset(Without(s, k)) == multiset(s) - multiset{s[k]}
  {
    assert s == s[..k] + [s[k]] + s[k + 1..];
  }

  lemma EachWithoutOne(s: seq<string>, k: nat)
    requires k < |s|
    ensures multiset(ParseEach(s)) == multiset(ParseEach(Without(s, k))) + multiset(ParseEach([s[k]]))
  {
    var front, one, back := s[..k], [s[k]], s[k + 1..];
    assert s == front + (one + back);
    EachAppend(front, one + back);
    EachAppend(one, back);
    EachAppend(front, back);
    MiddleOut(ParseEach(front), ParseEach(one), ParseEach(back));
  }

  lemma MiddleOut<T>(a: seq<T>, b: seq<T>, c: seq<T>)
    ensures multiset(a + (b + c)) == multiset(a + c) + multiset(b)
  {
  }

  /** Which fields come out, and how many, does not depend on the order of the lines. */
  lemma {:induction false} EachOfPermutation(a: seq<string>, b: seq<string>)
    requires multiset(a) == multiset(b)
    ensures multiset(ParseEach(a)) == multiset(ParseEach(b))
    decreases |a|
  {
    if a == [] {
      assert |b| == |multiset(b)| == 0;
    } else {
      assert a[0] in multiset(b);
      var k :| 0 <= k < |b| && b[k] == a[0];
      WithoutOne(a, 0);
      WithoutOne(b, k);
      EachOfPermutation(Without(a, 0), Without(b, k));
      EachWithoutOne(a, 0);
      EachWithoutOne(b, k);
    }
  }

  lemma {:induction false} EachAppend(a: seq<string>, b: seq<string>)
    ensures ParseEach(a + b) == ParseEach(a) + ParseEach(b)
    decreases |a|
  {
    if a == [] {
      assert a + b == b;
    } else {
      assert (a + b)[1..] == a[1..] + b;
      EachAppend(a[1..], b);
    }
  }

  /** The same fields come out of both, in some order, each once or more. */
  ghost predicate Alike(a: seq<Parsed>, b: seq<Parsed>) {
    && (forall r :: r in a <==> r in b)
    && (|a| <= MAX_HEADERS <==> |b| <= MAX_HEADERS)
  }

  /** The two header blocks hold the same lines up to order and repetition, and neither has more
      than MAX_HEADERS: both are accepted with the same headers, or neither is accepted. */
  lemma SameFields(a: seq<string>, b: seq<string>)
    requires Alike(ParseEach(a), ParseEach(b))
    ensures ParseFields(a, 0, map[]).Ok? == ParseFields(b, 0, map[]).Ok?
    ensures ParseFields(a, 0, map[]).Ok? ==> ParseFields(a, 0, map[]) == ParseFields(b, 0, map[])
  {
    FieldsAreMerged(a, 0, map[]);
    FieldsAreMerged(b, 0, map[]);
    MergeIff(ParseEach(a), 0, map[]);
    MergeIff(ParseEach(b), 0, map[]);
    if ParseFields(a, 0, map[]).Ok? {
      CollectsOne(ParseEach(a), ParseEach(b), ParseFields(a, 0, map[]).value, ParseFields(b, 0, map[]).value);
    }
  }

  /** Two heads are read alike when they open with the same request line and their header lines
      hold the same fields, again and again or in another order. */
  lemma SameHeads(h1: string, h2: string, lossy: Lossy)
    requires IsAscii(h1) == IsAscii(h2)
    requires HeadLines(h1)[0] == HeadLines(h2)[0]
    requires Alike(ParseEach(HeadLines(h1)[1..]), ParseEach(HeadLines(h2)[1..]))
    ensures ParseHead(h1, lossy).Ok? == ParseHead(h2, lossy).Ok?
    ensures ParseHead(h1, lossy).Ok? ==> ParseHead(h1, lossy) == ParseHead(h2, lossy)
  {
    SameFields(HeadLines(h1)[1..], HeadLines(h2)[1..]);
  }

  predicate LineBreak(c: char) {
    c == '\r' || c == '\n'
  }

  lemma {:induction false} TrimmedOff(s: string)
    ensures TrimBlank(s) <= s
    ensures forall i :: |TrimBlank(s)| <= i < |s| ==> LineBreak(s[i])
    decreases |s|
  {
    if |s| >= 4 && s[|s| - 4..] == BLANK {
      var front := s[..|s| - 4];
      TrimmedOff(front);
      forall i | |TrimBlank(front)| <= i < |s| ensures LineBreak(s[i]) {
        if i < |front| {
          assert s[i] == front[i];
        } else {
          assert s[i] == BLANK[i - |front|];
        }
      }
    }
  }

  ghost predicate AllAscii(lines: seq<string>) {
    forall a :: a in lines ==> IsAscii(a)
  }

  /** A head is ASCII exactly when its lines are. */
  lemma AsciiByLine(head: string)
    ensures IsAscii(head) <==> AllAscii(HeadLines(head))
  {
    TrimmedOff(head);
    var text := TrimBlank(head);
    var lines := Split(text, CRLF);
    forall c: char | !LineBreak(c) ensures c in text <==> InSome(lines, c) {
      PiecesHoldTheText(text, CRLF, c);
    }
    if IsAscii(head) {
      forall k, i | 0 <= k < |lines| && 0 <= i < |lines[k]| ensures lines[k][i] < 0x80 as char {
        var c := lines[k][i];
        if !LineBreak(c) {
          assert InSome(lines, c);
          assert c in head;
        }
      }
      forall a | a in lines ensures IsAscii(a) {
        var k :| 0 <= k < |lines| && lines[k] == a;
      }
    }
    if AllAscii(lines) {
      forall i | 0 <= i < |head| ensures head[i] < 0x80 as char {
        if !LineBreak(head[i]) {
          assert i < |text| && text[i] == head[i] && head[i] in text;
          var k :| 0 <= k < |lines| && head[i] in lines[k];
          assert IsAscii(lines[k]);
        }
      }
    }
  }

  /** `parse_head` does not depend on the order of the header lines: whichever way the header
      lines of a head are permuted, both are accepted, as equal requests, or neither is. */
  lemma HeaderOrderDoesNotMatter(h1: string, h2: string, lossy: Lossy)
    requires HeadLines(h1)[0] == HeadLines(h2)[0]
    requires multiset(HeadLines(h1)[1..]) == multiset(HeadLines(h2)[1..])
    ensures ParseHead(h1, lossy).Ok? == ParseHead(h2, lossy).Ok?
    ensures ParseHead(h1, lossy).Ok? ==> ParseHead(h1, lossy) == ParseHead(h2, lossy)
  {
    var a, b := HeadLines(h1), HeadLines(h2);
    PermutedLinesAreAlike(a[1..], b[1..]);
    PermutedHeadIsAscii(h1, h2);
    SameHeads(h1, h2, lossy);
  }

  lemma PermutedLinesAreAlike(a: seq<string>, b: seq<string>)
    requires multiset(a) == multiset(b)
    ensures Alike(ParseEach(a), ParseEach(b))
  {
    EachOfPermutation(a, b);
    var p, q := ParseEach(a), ParseEach(b);
    assert |p| == |multiset(p)| && |q| == |multiset(q)|;
    forall r ensures r in p <==> r in q {
      assert r in p <==> r in multiset(p);
      assert r in q <==> r in multiset(q);
    }
  }

  lemma PermutedHeadIsAscii(h1: string, h2: string)
    requires HeadLines(h1)[0] == HeadLines(h2)[0]
    requires multiset(HeadLines(h1)[1..]) == multiset(HeadLines(h2)[1..])
    ensures IsAscii(h1) == IsAscii(h2)
  {
    var a, b := HeadLines(h1), HeadLines(h2);
    forall line ensures line in a[1..] <==> line in b[1..] {
      assert line in a[1..] <==> line in multiset(a[1..]);
      assert line in b[1..] <==> line in multiset(b[1..]);
    }
    assert a == [a[0]] + a[1..] && b == [b[0]] + b[1..];
    AsciiByLine(h1);
    AsciiByLine(h2);
  }

  /** Dropping a header line that another line of an accepted head repeats, under the same name
      in any case, changes nothing. */
  lemma RepeatedHeaderIsRedundant(h1: string, h2: string, k: nat, j: nat, lossy: Lossy)
    requires ParseHead(h1, lossy).Ok?
    requires HeadLines(h1)[0] == HeadLines(h2)[0]
    requires var a := HeadLines(h1)[1..];
      && k < |a| && j < |a| && k != j && a[k] != "" && a[j] != ""
      && HeadLines(h2)[1..] == Without(a, k)
      && ParseField(a[k]).Ok? && ParseField(a[j]).Ok? && ParseField(a[k]).value.name == ParseField(a[j]).value.name
    ensures ParseHead(h2, lossy) == ParseHead(h1, lossy)
  {
    var a, b := HeadLines(h1)[1..], HeadLines(h2)[1..];
    FieldsAreMerged(a, 0, map[]);
    MergeIff(ParseEach(a), 0, map[]);
    EachHolds(a, k);
    EachHolds(a, j);
    assert ParseField(a[k]) == ParseField(a[j]);
    StillAlike(a, k, j);
    FewerLinesAreAscii(h1, h2, k);
    SameHeads(h1, h2, lossy);
  }

  lemma StillAlike(a: seq<string>, k: nat, j: nat)
    requires k < |a| && j < |a| && k != j && a[k] != "" && a[j] != ""
    requires ParseField(a[k]) == ParseField(a[j]) && |ParseEach(a)| <= MAX_HEADERS
    ensures Alike(ParseEach(a), ParseEach(Without(a, k)))
  {
    EachMinusOne(a, k, ParseField(a[k]));
    RepeatStays(a, k, j, ParseField(a[j]));
    OneLess(ParseEach(a), ParseEach(Without(a, k)), ParseField(a[k]));
  }

  lemma RepeatStays(a: seq<string>, k: nat, j: nat, one: Parsed)
    requires k < |a| && j < |a| && k != j && a[j] != "" && one == ParseField(a[j])
    ensures one in ParseEach(Without(a, k))
  {
    hide ParseField;
    var b, i := Without(a, k), if j < k then j else j - 1;
    assert b[i] == a[j];
    EachHolds(b, i);
  }

  lemma EachMinusOne(a: seq<string>, k: nat, one: Parsed)
    requires k < |a| && a[k] != "" && one == ParseField(a[k])
    ensures multiset(ParseEach(a)) == multiset(ParseEach(Without(a, k))) + multiset([one])
  {
    EachWithoutOne(a, k);
    var line := [a[k]];
    assert line[1..] == [];
    assert ParseEach(line) == [one];
  }

  lemma OneLess(a: seq<Parsed>, b: seq<Parsed>, x: Parsed)
    requires multiset(a) == multiset(b) + multiset([x]) && x in b && |a| <= MAX_HEADERS
    ensures Alike(a, b)
  {
    assert |a| == |multiset(a)| && |b| == |multiset(b)|;
    forall y ensures y in a <==> y in b {
      assert y in a <==> y in multiset(a);
      assert y in b <==> y in multiset(b);
    }
  }

  lemma FewerLinesAreAscii(h1: string, h2: string, k: nat)
    requires IsAscii(h1) && HeadLines(h1)[0] == HeadLines(h2)[0]
    requires k < |HeadLines(h1)[1..]| && HeadLines(h2)[1..] == Without(HeadLines(h1)[1..], k)
    ensures IsAscii(h2)
  {
    AsciiByLine(h1);
    AsciiByLine(h2);
    var a, b := HeadLines(h1), HeadLines(h2);
    assert b == [b[0]] + b[1..];
    forall line | line in b ensures IsAscii(line) {
      assert line in a;
    }
  }

  lemma {:induction false} EachHolds(lines: seq<string>, i: nat)
    requires i < |lines| && lines[i] != ""
    ensures ParseField(lines[i]) in ParseEach(lines)
  {
    EachAppend(lines[..i], [lines[i]] + lines[i + 1..]);
    EachAppend([lines[i]], lines[i + 1..]);
    assert lines == lines[..i] + ([lines[i]] + lines[i + 1..]);
    assert ParseEach([lines[i]]) == [ParseField(lines[i])];
  }
}
