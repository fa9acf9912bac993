/** Which heads `parse_head` accepts and what it makes of them, said in terms of their lines alone. */
module Accepted {
  import opened Wrappers
  import opened Text
  import opened Numbers
  import opened Http
  import opened HttpFacts
  import opened HttpRequests

  // ---- bytes -----------------------------------------------------------------------------

  /** Besides letters, the bytes of a token (section 5.6.2 of RFC 9110). */
  const TOKEN_MARKS: string := "0123456789" + "!#$%&'*+-.^_`|~"

  /** A letter is what has an upper case from A to Z. */
  lemma LetterHasUpperCase(c: char)
    ensures IsAlpha(c) <==> 'A' <= Upper(c) <= 'Z'
  {
  }

  lemma TokenByteIsListed(c: char)
    ensures IsTokenByte(c) <==> 'A' <= Upper(c) <= 'Z' || c in TOKEN_MARKS
  {
    LetterHasUpperCase(c);
    hide IsAlpha;
    hide Upper;
    assert '0' <= c <= '9' <==> c in "0123456789";
    var marks := "!#$%&'*+-.^_`|~";
    assert c in "0123456789" + marks <==> c in "0123456789" || c in marks;
  }

  /** Which bytes make a method, a header name, a header value and a target. */
  lemma ByteClasses(s: string)
    ensures IsMethod(s) <==> s != "" && forall i :: 0 <= i < |s| ==> 'A' <= ToUpper(s)[i] <= 'Z'
    ensures IsToken(s) <==> forall i :: 0 <= i < |s| ==> 'A' <= ToUpper(s)[i] <= 'Z' || s[i] in TOKEN_MARKS
    ensures IsFieldText(s) <==> forall i :: 0 <= i < |s| ==> s[i] == '\t' || ' ' <= s[i] <= '~' || 0x80 as char <= s[i]
    ensures IsTarget(s) <==> s != "" && s[0] == '/' && forall i :: 0 <= i < |s| ==> '!' <= s[i] <= '~' || 0x80 as char <= s[i]
  {
    forall i | 0 <= i < |s|
      ensures IsAlpha(s[i]) <==> 'A' <= ToUpper(s)[i] <= 'Z'
      ensures IsTokenByte(s[i]) <==> 'A' <= ToUpper(s)[i] <= 'Z' || s[i] in TOKEN_MARKS {
      LetterHasUpperCase(s[i]);
      TokenByteIsListed(s[i]);
    }
    hide IsAlpha;
    hide IsTokenByte;
    hide Upper;
    hide ToUpper;
    hide TOKEN_MARKS;
  }

  // ---- the request line ------------------------------------------------------------------

  /** Method, target and version, with one space between them. */
  ghost predicate IsRequestLine(line: string, verb: string, url: string, version: string) {
    && line == verb + " " + url + " " + version
    && IsMethod(verb) && IsTarget(url) && (version == "HTTP/1.0" || version == "HTTP/1.1")
  }

  lemma LettersHaveNoSpace(verb: string, url: string, version: string)
    requires IsMethod(verb) && IsTarget(url) && (version == "HTTP/1.0" || version == "HTTP/1.1")
    ensures ' ' !in verb && ' ' !in url && ' ' !in version
  {
  }

  lemma {:induction false} PiecesJoined(s: string, sep: string)
    requires sep != ""
    ensures Join(Split(s, sep), sep) == s
    decreases |s|
  {
    var found := Find(s, sep);
    if found.Some? {
      var i := found.value;
      var rest := s[i + |sep|..];
      PiecesJoined(rest, sep);
      var parts := Split(s, sep);
      assert parts[0] == s[..i] && parts[1..] == Split(rest, sep);
      hide Split;
      assert s == s[..i] + sep + rest;
    }
  }

  lemma ThreeJoined(a: string, b: string, c: string)
    ensures Join([a, b, c], " ") == a + " " + b + " " + c
  {
    assert [a, b, c][1..] == [b, c] && [b, c][1..] == [c];
    assert Join([b, c], " ") == b + " " + c;
  }

  lemma ThreePieces(line: string)
    requires |Split(line, " ")| == 3
    ensures var parts := Split(line, " "); line == parts[0] + " " + parts[1] + " " + parts[2]
  {
    var parts := Split(line, " ");
    PiecesJoined(line, " ");
    hide Split;
    assert parts == [parts[0], parts[1], parts[2]];
    ThreeJoined(parts[0], parts[1], parts[2]);
  }

  /** A request line is accepted if and only if it is one, and then it is read as it stands. */
  lemma RequestLineIff(line: string, parsed: RequestLine)
    ensures ParseRequestLine(line) == Ok(parsed) <==> IsRequestLine(line, parsed.verb, parsed.url, parsed.version)
  {
    if IsRequestLine(line, parsed.verb, parsed.url, parsed.version) {
      LettersHaveNoSpace(parsed.verb, parsed.url, parsed.version);
      var parts := [parsed.verb, parsed.url, parsed.version];
      SplitJoinChar(parts, ' ');
      ThreeJoined(parsed.verb, parsed.url, parsed.version);
    }
    if ParseRequestLine(line) == Ok(parsed) {
      ThreePieces(line);
    }
  }

  // ---- header lines ----------------------------------------------------------------------

  predicate AllBlank(s: string) {
    forall i :: 0 <= i < |s| ==> IsBlank(s[i])
  }

  /** Nothing blank at either end. */
  predicate IsTight(s: string) {
    s != "" ==> !IsBlank(s[0]) && !IsBlank(s[|s| - 1])
  }

  /** A name, a colon and a value, with blanks around the value that do not belong to it. */
  ghost predicate IsHeaderWith(line: string, name: string, before: string, value: string, behind: string) {
    && line == name + ":" + (before + value + behind)
    && name != "" && IsToken(name) && IsFieldText(before + value + behind)
    && AllBlank(before) && AllBlank(behind) && IsTight(value)
  }

  ghost predicate IsHeaderLine(line: string, f: Field) {
    exists name, before, behind :: IsHeaderWith(line, name, before, f.value, behind) && f.name == ToLower(name)
  }

  lemma {:induction false} StartTrimmed(s: string) returns (before: string)
    ensures s == before + TrimStart(s) && AllBlank(before)
    decreases |s|
  {
    if s != "" && IsBlank(s[0]) {
      var b := StartTrimmed(s[1..]);
      before := [s[0]] + b;
    } else {
      before := "";
    }
  }

  lemma {:induction false} EndTrimmed(s: string) returns (behind: string)
    ensures s == TrimEnd(s) + behind && AllBlank(behind)
    decreases |s|
  {
    if s != "" && IsBlank(s[|s| - 1]) {
      var b := EndTrimmed(s[..|s| - 1]);
      behind := b + [s[|s| - 1]];
      assert s == s[..|s| - 1] + [s[|s| - 1]];
      Regroup(TrimEnd(s), b, [s[|s| - 1]]);
    } else {
      behind := "";
    }
  }

  lemma TrimmedAway(s: string) returns (before: string, behind: string)
    ensures s == before + Trim(s) + behind && AllBlank(before) && AllBlank(behind) && IsTight(Trim(s))
  {
    before := StartTrimmed(s);
    var t := TrimStart(s);
    behind := EndTrimmed(t);
    Regroup(before, TrimEnd(t), behind);
    if TrimEnd(t) != "" {
      assert TrimEnd(t)[0] == t[0];
    }
    hide TrimStart;
    hide TrimEnd;
  }

  lemma {:induction false} StartIsTrimmed(before: string, rest: string)
    requires AllBlank(before) && (rest != "" ==> !IsBlank(rest[0]))
    ensures TrimStart(before + rest) == rest
    decreases |before|
  {
    if before == "" {
      assert before + rest == rest;
    } else {
      assert (before + rest)[1..] == before[1..] + rest;
      StartIsTrimmed(before[1..], rest);
    }
  }

  lemma {:induction false} EndIsTrimmed(rest: string, behind: string)
    requires AllBlank(behind) && (rest != "" ==> !IsBlank(rest[|rest| - 1]))
    ensures TrimEnd(rest + behind) == rest
    decreases |behind|
  {
    if behind == "" {
      assert rest + behind == rest;
    } else {
      var n := |behind| - 1;
      assert (rest + behind)[..|rest + behind| - 1] == rest + behind[..n];
      EndIsTrimmed(rest, behind[..n]);
    }
  }

  lemma BlanksAreTrimmed(before: string, value: string, behind: string)
    requires AllBlank(before) && AllBlank(behind) && IsTight(value)
    ensures Trim(before + value + behind) == value
  {
    Regroup(before, value, behind);
    if value == "" {
      assert before + ("" + behind) == (before + behind) + "";
      assert AllBlank(before + behind);
      StartIsTrimmed(before + behind, "");
    } else {
      StartIsTrimmed(before, value + behind);
      EndIsTrimmed(value, behind);
    }
  }

  lemma TokenHasNoColon(name: string)
    requires IsToken(name)
    ensures ':' !in name && forall i :: 0 <= i < |name| ==> !IsBlank(name[i])
  {
  }

  /** A header line is accepted if and only if it is one. */
  lemma HeaderLineIff(line: string, f: Field)
    requires line != ""
    ensures ParseField(line) == Ok(f) <==> IsHeaderLine(line, f)
  {
    if ParseField(line) == Ok(f) {
      ParsedIsHeaderLine(line, f);
    }
    if IsHeaderLine(line, f) {
      var name, before, behind :| IsHeaderWith(line, name, before, f.value, behind) && f.name == ToLower(name);
      HeaderLineIsParsed(line, f, name, before, behind);
    }
  }

  lemma HeaderLineIsParsed(line: string, f: Field, name: string, before: string, behind: string)
    requires line != "" && IsHeaderWith(line, name, before, f.value, behind) && f.name == ToLower(name)
    ensures ParseField(line) == Ok(f)
  {
    hide Trim;
    hide SplitOnce;
    TokenHasNoColon(name);
    hide IsToken;
    hide IsFieldText;
    hide IsTight;
    SplitOnceAt(name, ':', before + f.value + behind);
    BlanksAreTrimmed(before, f.value, behind);
    assert line[0] == name[0];
  }

  lemma ParsedIsHeaderLine(line: string, f: Field)
    requires line != "" && ParseField(line) == Ok(f)
    ensures IsHeaderLine(line, f)
  {
    hide IsToken;
    hide IsFieldText;
    hide ToLower;
    var (name, text) := SplitOnce(line, ":").value;
    var before, behind := TrimmedAway(text);
    hide Trim;
    hide SplitOnce;
    assert IsHeaderWith(line, name, before, f.value, behind);
  }

  // ---- the whole head --------------------------------------------------------------------

  /** A header line of the head says this. */
  ghost predicate Says(lines: seq<string>, f: Field) {
    exists k :: 1 <= k < |lines| && lines[k] != "" && IsHeaderLine(lines[k], f)
  }

  ghost predicate AreHeaders(lines: seq<string>) {
    forall k :: 1 <= k < |lines| && lines[k] != "" ==> exists f :: IsHeaderLine(lines[k], f)
  }

  function Filled(lines: seq<string>): nat {
    if lines == [] then 0 else (if lines[0] == "" then 0 else 1) + Filled(lines[1..])
  }

  ghost predicate NoConflict(lines: seq<string>) {
    forall f, g :: Says(lines, f) && Says(lines, g) && f.name == g.name ==> f == g
  }

  ghost predicate SaysName(lines: seq<string>, name: string) {
    exists f :: Says(lines, f) && f.name == name
  }

  lemma {:induction false} EachIsParsed(lines: seq<string>, r: Parsed)
    ensures r in ParseEach(lines) <==> exists k :: 0 <= k < |lines| && lines[k] != "" && ParseField(lines[k]) == r
    ensures |ParseEach(lines)| == Filled(lines)
    decreases |lines|
  {
    hide ParseField;
    if lines != [] {
      var rest := lines[1..];
      EachIsParsed(rest, r);
      if k :| 0 <= k < |lines| && lines[k] != "" && ParseField(lines[k]) == r {
        if k > 0 {
          assert rest[k - 1] == lines[k];
        }
      }
      if r in ParseEach(rest) {
        var k :| 0 <= k < |rest| && rest[k] != "" && ParseField(rest[k]) == r;
        assert lines[k + 1] == rest[k];
      }
    }
  }

  lemma ParsedIsSaid(lines: seq<string>, f: Field)
    requires lines != []
    ensures Ok(f) in ParseEach(lines[1..]) <==> Says(lines, f)
  {
    hide ParseField;
    hide IsHeaderLine;
    EachIsParsed(lines[1..], Ok(f));
    if Ok(f) in ParseEach(lines[1..]) {
      var k :| 0 <= k < |lines[1..]| && lines[1..][k] != "" && ParseField(lines[1..][k]) == Ok(f);
      HeaderLineIff(lines[k + 1], f);
      assert lines[k + 1] == lines[1..][k];
    }
    if Says(lines, f) {
      var k :| 1 <= k < |lines| && lines[k] != "" && IsHeaderLine(lines[k], f);
      HeaderLineIff(lines[k], f);
      assert lines[k] == lines[1..][k - 1];
    }
  }

  lemma AllParsedAreHeaders(lines: seq<string>)
    requires lines != []
    ensures AllOk(ParseEach(lines[1..])) <==> AreHeaders(lines)
  {
    hide ParseField;
    hide IsHeaderLine;
    if AllOk(ParseEach(lines[1..])) {
      forall k | 1 <= k < |lines| && lines[k] != "" ensures exists f :: IsHeaderLine(lines[k], f) {
        var r := ParseField(lines[k]);
        assert lines[1..][k - 1] == lines[k];
        EachIsParsed(lines[1..], r);
        assert r in ParseEach(lines[1..]);
        HeaderLineIff(lines[k], r.value);
      }
    }
    if AreHeaders(lines) {
      forall r | r in ParseEach(lines[1..]) ensures r.Ok? {
        EachIsParsed(lines[1..], r);
        var k :| 0 <= k < |lines[1..]| && lines[1..][k] != "" && ParseField(lines[1..][k]) == r;
        assert lines[k + 1] == lines[1..][k];
        var f :| IsHeaderLine(lines[k + 1], f);
        HeaderLineIff(lines[k + 1], f);
      }
    }
  }

  /** The header lines are accepted if and only if there are at most 100, each is one, and those of
      one name agree; the map then holds exactly what they say. */
  lemma HeaderLinesIff(lines: seq<string>)
    requires lines != []
    ensures var parsed := ParseFields(lines[1..], 0, map[]);
      && (parsed.Ok? <==> Filled(lines[1..]) <= 100 && AreHeaders(lines) && NoConflict(lines))
      && (parsed.Ok? ==>
            && (forall f: Field :: Says(lines, f) <==> f.name in parsed.value && parsed.value[f.name] == f.value)
            && (forall n :: n in parsed.value ==> Says(lines, Field(n, parsed.value[n]))))
  {
    hide ParseField;
    hide IsHeaderLine;
    hide Says;
    hide AreHeaders;
    hide Filled;
    hide ParseEach;
    hide ParseFields;
    hide Merge;
    var rest := lines[1..];
    var fields := ParseEach(rest);
    FieldsAreMerged(rest, 0, map[]);
    MergeIff(fields, 0, map[]);
    AllParsedAreHeaders(lines);
    EachIsParsed(rest, Err(NoColon));
    forall f: Field ensures Ok(f) in fields <==> Says(lines, f) {
      ParsedIsSaid(lines, f);
    }
    hide AllOk;
    var parsed := ParseFields(rest, 0, map[]);
    if parsed.Ok? {
      forall n | n in parsed.value ensures Says(lines, Field(n, parsed.value[n])) {
        assert Named(fields, n);
        var f: Field :| Ok(f) in fields && f.name == n;
        assert f == Field(n, parsed.value[n]);
      }
    }
  }

  // ---- the request -----------------------------------------------------------------------

  ghost predicate LengthIsFine(lines: seq<string>) {
    forall f :: Says(lines, f) && f.name == "content-length" ==> exists n: nat :: n < U64 && IsNumeralOf(f.value, n)
  }

  /** A head is accepted if and only if it is ASCII, its first line is a request line, at most 100
      lines that are not empty follow, each of them a header, no two of them disagree, not both
      framing headers are among them, and the length is a number below 2^64. */
  lemma HeadIff(head: string, lossy: Lossy)
    ensures var lines := HeadLines(head);
      ParseHead(head, lossy).Ok?
      <==> && IsAscii(head)
           && (exists verb, url, version :: IsRequestLine(lines[0], verb, url, version))
           && Filled(lines[1..]) <= 100 && AreHeaders(lines) && NoConflict(lines)
           && !(SaysName(lines, "content-length") && SaysName(lines, "transfer-encoding"))
           && LengthIsFine(lines)
  {
    var lines := HeadLines(head);
    var first, parsed := ParseRequestLine(lines[0]), ParseFields(lines[1..], 0, map[]);
    FirstLineIff(lines[0]);
    HeaderLinesIff(lines);
    hide HeadLines;
    hide ParseRequestLine;
    hide ParseFields;
    hide IsRequestLine;
    hide AreHeaders;
    hide NoConflict;
    hide Filled;
    hide KeepAlive;
    hide Params;
    if first.Ok? && parsed.Ok? {
      HeadersSay(lines, parsed.value);
    }
    hide Says;
    hide SaysName;
    hide LengthIsFine;
    hide ParseLength;
  }

  lemma FirstLineIff(line: string)
    ensures ParseRequestLine(line).Ok? <==> exists verb, url, version :: IsRequestLine(line, verb, url, version)
  {
    if ParseRequestLine(line).Ok? {
      RequestLineIff(line, ParseRequestLine(line).value);
    }
    if verb, url, version :| IsRequestLine(line, verb, url, version) {
      RequestLineIff(line, RequestLine(verb, url, version));
    }
  }

  /** What the map says the lines say. */
  lemma HeadersSay(lines: seq<string>, headers: Headers)
    requires forall f: Field :: Says(lines, f) <==> f.name in headers && headers[f.name] == f.value
    ensures forall name :: SaysName(lines, name) <==> name in headers
    ensures ParseLength(headers).Ok? <==> LengthIsFine(lines)
  {
    hide Says;
    hide ParseLength;
    hide IsNumeralOf;
    LengthSays(lines, headers);
    forall name ensures SaysName(lines, name) <==> name in headers {
      if name in headers {
        assert Says(lines, Field(name, headers[name]));
      }
    }
  }

  lemma LengthSays(lines: seq<string>, headers: Headers)
    requires forall f: Field :: Says(lines, f) <==> f.name in headers && headers[f.name] == f.value
    ensures ParseLength(headers).Ok? <==> LengthIsFine(lines)
  {
    hide Says;
    var raw := if "content-length" in headers then headers["content-length"] else "";
    if "content-length" in headers {
      assert Says(lines, Field("content-length", raw));
    }
    if ParseLength(headers).Ok? {
      LengthIsItsNumeral(headers, ParseLength(headers).value);
    }
    hide ParseLength;
    hide IsNumeralOf;
    if LengthIsFine(lines) {
      if "content-length" in headers {
        var n: nat :| n < U64 && IsNumeralOf(raw, n);
        LengthIsItsNumeral(headers, n);
      } else {
        LengthIsItsNumeral(headers, 0);
      }
    }
  }

  /** A Connection line has this word in its value somewhere, in letters of any case. */
  ghost predicate LinesWish(lines: seq<string>, word: string) {
    exists f: Field, j: nat :: Says(lines, f) && f.name == "connection" && At(ToLower(f.value), word, j)
  }

  lemma WishesAreSaid(lines: seq<string>, headers: Headers, word: string)
    requires forall f: Field :: Says(lines, f) <==> f.name in headers && headers[f.name] == f.value
    ensures Wishes(headers, word) <==> LinesWish(lines, word)
  {
    hide Says;
    hide ToLower;
    if Wishes(headers, word) {
      var j: nat :| At(ToLower(headers["connection"]), word, j);
      var f := Field("connection", headers["connection"]);
      assert Says(lines, f) && At(ToLower(f.value), word, j);
    }
  }

  /** The request that an accepted head stands for: its method in upper case, the target cut at the
      first question mark, exactly the headers that its lines say, and their length. The connection
      goes on unless some Connection line has "close" in it; and if none has, then if one has
      "keep-alive" in it or the version is 1.1. */
  lemma HeadGives(head: string, lossy: Lossy, verb: string, url: string, version: string)
    requires ParseHead(head, lossy).Ok? && IsRequestLine(HeadLines(head)[0], verb, url, version)
    ensures var lines, r := HeadLines(head), ParseHead(head, lossy).value;
      && r.verb == ToUpper(verb)
      && url == r.path + (if '?' in url then "?" else "") + r.rawQuery && '?' !in r.path && ('?' !in url ==> r.rawQuery == "")
      && (forall f: Field :: Says(lines, f) <==> f.name in r.headers && r.headers[f.name] == f.value)
      && (if SaysName(lines, "content-length") then
            forall f :: Says(lines, f) && f.name == "content-length" ==> IsNumeralOf(f.value, r.contentLength)
          else r.contentLength == 0)
      && (r.keepAlive <==> !LinesWish(lines, "close") && (LinesWish(lines, "keep-alive") || version == "HTTP/1.1"))
  {
    var lines, r := HeadLines(head), ParseHead(head, lossy).value;
    var line := RequestLine(verb, url, version);
    RequestLineIff(lines[0], line);
    HeaderLinesIff(lines);
    hide HeadLines;
    hide ParseRequestLine;
    hide IsRequestLine;
    hide AreHeaders;
    hide NoConflict;
    hide Filled;
    var headers := ParseFields(lines[1..], 0, map[]).value;
    hide ParseFields;
    assert Finish(line, headers, lossy) == Ok(r);
    hide ParseHead;
    FinishGives(line, headers, lossy);
    hide Finish;
    HeadersSay(lines, headers);
    LengthIsItsNumeral(headers, r.contentLength);
    KeepAliveIff(version, headers);
    WishesAreSaid(lines, headers, "close");
    WishesAreSaid(lines, headers, "keep-alive");
    TargetIsCut(url);
    hide Says;
    hide KeepAlive;
    hide Wishes;
    hide LinesWish;
    hide PathAndQuery;
    hide ParseLength;
    hide IsNumeralOf;
  }

  lemma TargetIsCut(url: string)
    ensures var (path, query) := PathAndQuery(url);
      url == path + (if '?' in url then "?" else "") + query && '?' !in path && ('?' !in url ==> query == "")
  {
    if '?' in url {
      var i :| 0 <= i < |url| && url[i] == '?';
      CharAt(url, '?', i);
      var j := Find(url, "?").value;
      CharAt(url, '?', j);
      forall k | 0 <= k < j ensures url[k] != '?' {
        CharAt(url, '?', k);
      }
    } else {
      NoChar(url, '?');
    }
  }

  /** The lines of a head as it is read: what stands before its blank line, cut at each CRLF. */
  lemma LinesOfHead(head: string)
    requires |head| >= 4 && Find(head, BLANK) == Some(|head| - 4)
    ensures HeadLines(head) == Split(head[..|head| - 4], CRLF) && head == Join(HeadLines(head), CRLF) + BLANK
  {
    var text := head[..|head| - 4];
    assert head[|head| - 4..] == BLANK;
    if |text| >= 4 && text[|text| - 4..] == BLANK {
      var j: nat := |text| - 4;
      assert head[j..j + 4] == text[j..];
      assert At(head, BLANK, j);
      assert false;
    }
    assert TrimBlank(text) == text;
    PiecesJoined(text, CRLF);
    assert head == text + BLANK;
  }
}
