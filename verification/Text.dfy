/** Text as the HTTP layer cuts it up. A byte is written as a char; bytes from 0x80 on are the
    chars from 0x80 on. */
module Text {
  import opened Wrappers

  const CRLF: string := "\r\n"
  const BLANK: string := "\r\n\r\n"

  lemma Regroup<T>(a: seq<T>, b: seq<T>, c: seq<T>)
    ensures (a + b) + c == a + (b + c)
  {
  }

  /** `pat` stands at position i of s. */
  predicate At(s: string, pat: string, i: nat) {
    i + |pat| <= |s| && s[i..i + |pat|] == pat
  }

  /** The first position of `pat`. */
  function Find(s: string, pat: string): (r: Option<nat>)
    ensures r.Some? ==> At(s, pat, r.value) && forall j: nat :: j < r.value ==> !At(s, pat, j)
    ensures r.None? ==> forall j: nat :: !At(s, pat, j)
  {
    FindFrom(s, pat, 0)
  }

  function FindFrom(s: string, pat: string, i: nat): (r: Option<nat>)
    requires i <= |s|
    ensures r.Some? ==> i <= r.value && At(s, pat, r.value) && forall j: nat :: i <= j < r.value ==> !At(s, pat, j)
    ensures r.None? ==> forall j: nat :: i <= j ==> !At(s, pat, j)
    decreases |s| - i
  {
    if At(s, pat, i) then Some(i)
    else if i == |s| then None
    else FindFrom(s, pat, i + 1)
  }

  /** The first match is where `Find` finds it. */
  lemma FoundAt(s: string, pat: string, i: nat)
    requires At(s, pat, i) && forall j: nat :: j < i ==> !At(s, pat, j)
    ensures Find(s, pat) == Some(i)
  {
  }

  /** Rust's `split`: the pieces between the occurrences of `sep`. */
  function Split(s: string, sep: string): (parts: seq<string>)
    requires sep != ""
    ensures parts != []
    decreases |s|
  {
    match Find(s, sep)
    case None => [s]
    case Some(i) => [s[..i]] + Split(s[i + |sep|..], sep)
  }

  function Join(parts: seq<string>, sep: string): string
    requires parts != []
  {
    if |parts| == 1 then parts[0] else parts[0] + sep + Join(parts[1..], sep)
  }

  /** Rust's `split_once`. */
  function SplitOnce(s: string, sep: string): (r: Option<(string, string)>)
    ensures r.Some? ==> s == r.value.0 + sep + r.value.1 && forall j: nat :: j < |r.value.0| ==> !At(s, sep, j)
  {
    match Find(s, sep)
    case None => None
    case Some(i) => Some((s[..i], s[i + |sep|..]))
  }

  /** No piece of a split holds the separator. */
  lemma {:induction false} PiecesAreClean(s: string, sep: string, k: nat)
    requires sep != "" && k < |Split(s, sep)|
    ensures forall j: nat :: !At(Split(s, sep)[k], sep, j)
    decreases |s|
  {
    var found := Find(s, sep);
    if found.Some? {
      var i := found.value;
      if k == 0 {
        forall j: nat ensures !At(s[..i], sep, j) {
          if At(s[..i], sep, j) {
            assert At(s, sep, j);
          }
        }
      } else {
        PiecesAreClean(s[i + |sep|..], sep, k - 1);
      }
    }
  }

  ghost predicate InSome(parts: seq<string>, c: char) {
    exists k :: 0 <= k < |parts| && c in parts[k]
  }

  /** A char of s that no separator is made of is in one of the pieces, and nothing else is. */
  lemma {:induction false} PiecesHoldTheText(s: string, sep: string, c: char)
    requires sep != "" && c !in sep
    ensures c in s <==> InSome(Split(s, sep), c)
    decreases |s|
  {
    var parts := Split(s, sep);
    var found := Find(s, sep);
    if found.Some? {
      var i := found.value;
      var rest := s[i + |sep|..];
      PiecesHoldTheText(rest, sep, c);
      assert s == s[..i] + sep + rest;
      assert parts[0] == s[..i] && parts[1..] == Split(rest, sep);
      if c in s && c !in s[..i] {
        assert c in rest;
        var k :| 0 <= k < |Split(rest, sep)| && c in Split(rest, sep)[k];
        assert parts[k + 1] == Split(rest, sep)[k];
      }
      if k :| 0 <= k < |parts| && c in parts[k] {
        if k > 0 {
          assert Split(rest, sep)[k - 1] == parts[k];
          assert c in rest;
        }
        assert c in s;
      }
    } else {
      assert parts[0] == s;
    }
  }

  // ---- separators of one char ------------------------------------------------------------

  lemma CharAt(s: string, c: char, i: nat)
    ensures At(s, [c], i) <==> i < |s| && s[i] == c
  {
    if i < |s| {
      assert s[i..i + 1] == [s[i]];
    }
  }

  lemma FirstChar(a: string, c: char, b: string)
    requires c !in a
    ensures Find(a + [c] + b, [c]) == Some(|a|)
  {
    var s := a + [c] + b;
    forall j: nat | j < |a| ensures !At(s, [c], j) {
      CharAt(s, c, j);
      assert s[j] == a[j];
    }
    CharAt(s, c, |a|);
    FoundAt(s, [c], |a|);
  }

  lemma NoChar(s: string, c: char)
    requires c !in s
    ensures Find(s, [c]) == None
  {
    forall j: nat ensures !At(s, [c], j) { CharAt(s, c, j); }
  }

  lemma SplitOnceAt(a: string, c: char, b: string)
    requires c !in a
    ensures SplitOnce(a + [c] + b, [c]) == Some((a, b))
  {
    FirstChar(a, c, b);
    var s := a + [c] + b;
    assert s[..|a|] == a && s[|a| + 1..] == b;
  }

  lemma {:induction false} SplitJoinChar(parts: seq<string>, c: char)
    requires parts != [] && forall k :: 0 <= k < |parts| ==> c !in parts[k]
    ensures Split(Join(parts, [c]), [c]) == parts
  {
    if |parts| == 1 {
      NoChar(parts[0], c);
    } else {
      var rest := Join(parts[1..], [c]);
      FirstChar(parts[0], c, rest);
      SplitJoinChar(parts[1..], c);
      var s := parts[0] + [c] + rest;
      assert s[..|parts[0]|] == parts[0] && s[|parts[0]| + 1..] == rest;
    }
  }

  /** No piece of a split holds the separating char. */
  lemma PiecesLack(s: string, c: char, k: nat)
    requires k < |Split(s, [c])|
    ensures c !in Split(s, [c])[k]
  {
    PiecesAreClean(s, [c], k);
    var piece := Split(s, [c])[k];
    if c in piece {
      var i :| 0 <= i < |piece| && piece[i] == c;
      CharAt(piece, c, i);
    }
  }

  // ---- CRLF ------------------------------------------------------------------------------

  predicate NoCrlf(s: string) {
    forall i :: 0 <= i < |s| - 1 ==> !(s[i] == '\r' && s[i + 1] == '\n')
  }

  lemma CrlfAt(s: string, i: nat)
    ensures At(s, CRLF, i) <==> i + 2 <= |s| && s[i] == '\r' && s[i + 1] == '\n'
  {
    if i + 2 <= |s| {
      assert s[i..i + 2] == [s[i], s[i + 1]];
    }
  }

  lemma BlankAt(s: string, i: nat)
    ensures At(s, BLANK, i) <==> At(s, CRLF, i) && At(s, CRLF, i + 2)
  {
    CrlfAt(s, i);
    CrlfAt(s, i + 2);
    if i + 4 <= |s| {
      assert s[i..i + 4] == [s[i], s[i + 1], s[i + 2], s[i + 3]];
    }
  }

  /** The first CRLF behind a clean piece is the one that was put there. */
  lemma FirstCrlf(a: string, b: string)
    requires NoCrlf(a)
    ensures Find(a + CRLF + b, CRLF) == Some(|a|)
  {
    var s := a + CRLF + b;
    forall j: nat | j < |a| ensures !At(s, CRLF, j) {
      CrlfAt(s, j);
      if j + 1 < |a| {
        assert s[j] == a[j] && s[j + 1] == a[j + 1];
      } else {
        assert s[j + 1] == '\r';
      }
    }
    CrlfAt(s, |a|);
    FoundAt(s, CRLF, |a|);
  }

  lemma {:induction false} SplitJoin(lines: seq<string>)
    requires lines != [] && forall k :: 0 <= k < |lines| ==> NoCrlf(lines[k])
    ensures Split(Join(lines, CRLF), CRLF) == lines
  {
    if |lines| == 1 {
      var s := lines[0];
      forall j: nat ensures !At(s, CRLF, j) { CrlfAt(s, j); }
    } else {
      var rest := Join(lines[1..], CRLF);
      FirstCrlf(lines[0], rest);
      SplitJoin(lines[1..]);
      var s := lines[0] + CRLF + rest;
      assert s[..|lines[0]|] == lines[0];
      assert s[|lines[0]| + 2..] == rest;
    }
  }

  /** Rust's `trim_end_matches("\r\n\r\n")`. */
  function TrimBlank(s: string): string
    decreases |s|
  {
    if |s| >= 4 && s[|s| - 4..] == BLANK then TrimBlank(s[..|s| - 4]) else s
  }

  /** Lines without CRLF, none of them empty, and a blank line: the blank line is the only one. */
  lemma {:induction false} OnlyBlankIsLast(lines: seq<string>)
    requires lines != [] && forall k :: 0 <= k < |lines| ==> NoCrlf(lines[k]) && lines[k] != ""
    ensures Find(Join(lines, CRLF) + BLANK, BLANK) == Some(|Join(lines, CRLF)|)
  {
    hide NoCrlf;
    var a := lines[0];
    if |lines| == 1 {
      BlankBehind(a);
    } else {
      OnlyBlankIsLast(lines[1..]);
      var inner := Join(lines[1..], CRLF);
      NextLineIsNotBlank(lines[1..], inner + BLANK);
      BlankBehindMore(a, inner);
      assert Join(lines, CRLF) + BLANK == a + CRLF + (inner + BLANK);
    }
  }

  lemma BlankBehind(a: string)
    requires NoCrlf(a)
    ensures Find(a + BLANK, BLANK) == Some(|a|)
  {
    BlankAfterLine(a, CRLF);
    assert a + BLANK == a + CRLF + CRLF;
    assert (a + BLANK)[|a|..|a| + 4] == BLANK;
    FoundAt(a + BLANK, BLANK, |a|);
  }

  lemma BlankBehindMore(a: string, inner: string)
    requires NoCrlf(a) && !At(inner + BLANK, CRLF, 0) && Find(inner + BLANK, BLANK) == Some(|inner|)
    ensures Find(a + CRLF + (inner + BLANK), BLANK) == Some(|a| + 2 + |inner|)
  {
    var rest := inner + BLANK;
    var s := a + CRLF + rest;
    BlankAfterLine(a, rest);
    forall j: nat | |a| <= j < |a| + 2 + |inner| ensures !At(s, BLANK, j) {
      if j < |a| + 2 {
        NotBlankThere(a, rest, j);
      } else {
        Shifted(a + CRLF, rest, BLANK, j - |a| - 2);
      }
    }
    Shifted(a + CRLF, rest, BLANK, |inner|);
    FoundAt(s, BLANK, |a| + 2 + |inner|);
  }

  lemma NotBlankThere(a: string, rest: string, j: nat)
    requires !At(rest, CRLF, 0) && |a| <= j < |a| + 2
    ensures !At(a + CRLF + rest, BLANK, j)
  {
    var s := a + CRLF + rest;
    BlankAt(s, j);
    if j == |a| {
      Shifted(a + CRLF, rest, CRLF, 0);
    } else {
      CrlfAt(s, j);
    }
  }

  lemma Shifted(a: string, b: string, pat: string, i: nat)
    ensures At(a + b, pat, |a| + i) <==> At(b, pat, i)
  {
    if i + |pat| <= |b| {
      assert (a + b)[|a| + i..|a| + i + |pat|] == b[i..i + |pat|];
    }
  }

  lemma BlankAfterLine(a: string, b: string)
    requires NoCrlf(a)
    ensures forall j: nat :: j < |a| ==> !At(a + CRLF + b, BLANK, j)
  {
    FirstCrlf(a, b);
    forall j: nat | j < |a| ensures !At(a + CRLF + b, BLANK, j) {
      BlankAt(a + CRLF + b, j);
    }
  }

  lemma NextLineIsNotBlank(lines: seq<string>, rest: string)
    requires lines != [] && NoCrlf(lines[0]) && lines[0] != ""
    requires rest == Join(lines, CRLF) + BLANK
    ensures !At(rest, CRLF, 0)
  {
    var a := lines[0];
    var tail := if |lines| == 1 then CRLF else Join(lines[1..], CRLF) + BLANK;
    assert rest == a + CRLF + tail;
    FirstCrlf(a, tail);
  }

  // ---- letters and spaces ----------------------------------------------------------------

  function Lower(c: char): char {
    if 'A' <= c <= 'Z' then c + ' ' else c
  }

  function Upper(c: char): char {
    if 'a' <= c <= 'z' then c - ' ' else c
  }

  function ToLower(s: string): (r: string)
    ensures |r| == |s| && forall i :: 0 <= i < |s| ==> r[i] == Lower(s[i])
  {
    seq(|s|, i requires 0 <= i < |s| => Lower(s[i]))
  }

  function ToUpper(s: string): (r: string)
    ensures |r| == |s| && forall i :: 0 <= i < |s| ==> r[i] == Upper(s[i])
  {
    seq(|s|, i requires 0 <= i < |s| => Upper(s[i]))
  }

  predicate IsBlank(c: char) {
    c == ' ' || c == '\t'
  }

  function TrimStart(s: string): (r: string)
    ensures |r| <= |s| && r == s[|s| - |r|..]
    ensures r != "" ==> !IsBlank(r[0])
  {
    if s != "" && IsBlank(s[0]) then TrimStart(s[1..]) else s
  }

  function TrimEnd(s: string): (r: string)
    ensures |r| <= |s| && r == s[..|r|]
    ensures r != "" ==> !IsBlank(r[|r| - 1])
  {
    if s != "" && IsBlank(s[|s| - 1]) then TrimEnd(s[..|s| - 1]) else s
  }

  /** Rust's `trim_matches([' ', '\t'])`. */
  function Trim(s: string): string {
    TrimEnd(TrimStart(s))
  }

  predicate Contains(s: string, pat: string) {
    Find(s, pat).Some?
  }
}
