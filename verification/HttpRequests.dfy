/** What is true of every request `parse_head` accepts. */
module HttpRequests {
  import opened Wrappers
  import opened Text
  import opened Numbers
  import opened Http
  import opened HttpFacts

  /** Bytes a request target may hold. */
  predicate IsTargetText(s: string) {
    forall i :: 0 <= i < |s| ==> ' ' < s[i] < 0x7f as char
  }

  predicate IsPath(path: string) {
    path != "" && path[0] == '/' && '?' !in path && IsTargetText(path)
  }

  predicate IsHeader(name: string, value: string) {
    && name != "" && IsToken(name) && ToLower(name) == name
    && Trim(value) == value && IsFieldText(value) && IsAscii(value)
  }

  ghost predicate HeadersClean(headers: Headers) {
    forall n :: n in headers ==> IsHeader(n, headers[n])
  }

  ghost predicate LengthAgrees(headers: Headers, n: nat) {
    if "content-length" in headers then
      && Read(headers["content-length"], 10) == Some(n) && n < U64
      && forall i :: 0 <= i < |headers["content-length"]| ==> '0' <= headers["content-length"][i] <= '9'
    else n == 0
  }

  /** The Connection header has this word in it somewhere, in letters of any case. */
  ghost predicate Wishes(headers: Headers, word: string) {
    "connection" in headers && exists j: nat :: At(ToLower(headers["connection"]), word, j)
  }

  /** Whether the connection goes on behind a request, as far as the headers say. */
  ghost predicate ConnectionAgrees(headers: Headers, keepAlive: bool) {
    && (Wishes(headers, "close") ==> !keepAlive)
    && (Wishes(headers, "keep-alive") && !Wishes(headers, "close") ==> keepAlive)
  }

  lemma KeepAliveIff(version: string, headers: Headers)
    ensures KeepAlive(version, headers)
       <==> !Wishes(headers, "close") && (Wishes(headers, "keep-alive") || version == "HTTP/1.1")
  {
    if "connection" in headers {
      var connection := ToLower(headers["connection"]);
      assert Contains(connection, "close") <==> Wishes(headers, "close");
      assert Contains(connection, "keep-alive") <==> Wishes(headers, "keep-alive");
      hide Wishes;
      hide Find;
    }
  }

  /** Every accepted request is like this. */
  ghost predicate Clean(r: Request, lossy: Lossy) {
    && r.verb != "" && (forall i :: 0 <= i < |r.verb| ==> 'A' <= r.verb[i] <= 'Z')
    && IsPath(r.path)
    && IsTargetText(r.rawQuery)
    && r.params == Params(Split(r.rawQuery, "&"), map[], lossy)
    && |r.headers| <= MAX_HEADERS
    && HeadersClean(r.headers)
    && !("content-length" in r.headers && "transfer-encoding" in r.headers)
    && LengthAgrees(r.headers, r.contentLength)
    && ConnectionAgrees(r.headers, r.keepAlive)
    && r.bodyConsumed == 0
  }

  lemma TrimIsTrimmed(s: string)
    ensures Trim(Trim(s)) == Trim(s)
    ensures forall i :: 0 <= i < |Trim(s)| ==> Trim(s)[i] in s
  {
    var a := TrimStart(s);
    var t := TrimEnd(a);
    if t != "" {
      assert t[0] == a[0];
    }
    forall i | 0 <= i < |t| ensures t[i] in s {
      assert t[i] == a[i] == s[|s| - |a| + i];
    }
  }

  lemma LowerIsLower(s: string)
    requires IsToken(s)
    ensures ToLower(ToLower(s)) == ToLower(s) && IsToken(ToLower(s))
  {
  }

  lemma FieldParts(line: string) returns (name: string, value: string)
    requires line != "" && ParseField(line).Ok?
    ensures line == name + ":" + value && name != "" && IsToken(name) && IsFieldText(value)
    ensures ParseField(line).value == Field(ToLower(name), Trim(value))
  {
    hide Trim;
    hide IsToken;
    hide IsFieldText;
    var parts := SplitOnce(line, ":").value;
    name, value := parts.0, parts.1;
  }

  lemma TrimmedIsText(value: string)
    requires IsFieldText(value) && IsAscii(value)
    ensures IsFieldText(Trim(value)) && IsAscii(Trim(value)) && Trim(Trim(value)) == Trim(value)
  {
    TrimIsTrimmed(value);
    hide Trim;
    var trimmed := Trim(value);
    forall i | 0 <= i < |trimmed| ensures IsFieldByte(trimmed[i]) && trimmed[i] < 0x80 as char {
      var j :| 0 <= j < |value| && value[j] == trimmed[i];
    }
  }

  lemma PartIsAscii(a: string, b: string)
    requires IsAscii(a + b)
    ensures IsAscii(b)
  {
    forall i | 0 <= i < |b| ensures b[i] < 0x80 as char {
      assert (a + b)[|a| + i] == b[i];
    }
  }

  lemma FieldIsClean(line: string)
    requires line != "" && ParseField(line).Ok? && IsAscii(line)
    ensures var f := ParseField(line).value; IsHeader(f.name, f.value)
  {
    var name, value := FieldParts(line);
    hide ParseField;
    hide Trim;
    LowerIsLower(name);
    PartIsAscii(name + ":", value);
    TrimmedIsText(value);
  }

  lemma {:induction false} EachIsClean(lines: seq<string>, f: Field)
    requires AllAscii(lines) && Ok(f) in ParseEach(lines)
    ensures IsHeader(f.name, f.value)
    decreases |lines|
  {
    assert lines[0] in lines && forall a :: a in lines[1..] ==> a in lines;
    if lines[0] != "" && ParseField(lines[0]) == Ok(f) {
      FieldIsClean(lines[0]);
    } else {
      EachIsClean(lines[1..], f);
    }
  }

  /** A header map made of n fields has at most n entries. */
  lemma {:induction false} MergeIsSmall(fields: seq<Parsed>, count: nat, before: Headers)
    requires Merge(fields, count, before).Ok? && |before| <= count <= MAX_HEADERS
    ensures |Merge(fields, count, before).value| <= MAX_HEADERS
    decreases |fields|
  {
    if fields != [] {
      var f := fields[0].value;
      var after := before[f.name := f.value];
      assert after.Keys == before.Keys + {f.name};
      MergeIsSmall(fields[1..], count + 1, after);
    }
  }

  lemma HeadersAreClean(lines: seq<string>)
    requires AllAscii(lines) && ParseFields(lines, 0, map[]).Ok?
    ensures var headers := ParseFields(lines, 0, map[]).value;
      && |headers| <= MAX_HEADERS
      && HeadersClean(headers)
  {
    FieldsAreMerged(lines, 0, map[]);
    MergeIff(ParseEach(lines), 0, map[]);
    MergeIsSmall(ParseEach(lines), 0, map[]);
    var headers := ParseFields(lines, 0, map[]).value;
    forall n | n in headers ensures IsHeader(n, headers[n]) {
      assert Named(ParseEach(lines), n);
      var f: Field :| Ok(f) in ParseEach(lines) && f.name == n;
      EachIsClean(lines, f);
    }
  }

  lemma UrlIsClean(url: string)
    requires IsTarget(url) && IsAscii(url)
    ensures IsPath(PathAndQuery(url).0) && IsTargetText(PathAndQuery(url).1)
  {
    var (path, query) := PathAndQuery(url);
    var found := SplitOnce(url, "?");
    if found.Some? {
      assert url == path + "?" + query;
      forall i | 0 <= i < |query| ensures ' ' < query[i] < 0x7f as char {
        assert query[i] == url[|path| + 1 + i];
      }
      forall i | 0 <= i < |path| ensures path[i] == url[i] && path[i] != '?' {
        CharAt(url, '?', i);
      }
      assert url[0] == (path + "?" + query)[0];
    } else {
      forall i | 0 <= i < |url| ensures url[i] != '?' {
        CharAt(url, '?', i);
      }
    }
  }

  lemma RequestLineIsAscii(line: string)
    requires IsAscii(line) && ParseRequestLine(line).Ok?
    ensures IsAscii(ParseRequestLine(line).value.url)
  {
    var parts := Split(line, " ");
    forall i | 0 <= i < |parts[1]| ensures parts[1][i] < 0x80 as char {
      var c := parts[1][i];
      PiecesLack(line, ' ', 1);
      PiecesHoldTheText(line, " ", c);
      assert c in parts[1] && InSome(parts, c);
    }
  }

  /** A content length is accepted as n exactly if its header is the decimal numeral of n, perhaps
      behind leading zeros, and n fits 64 bits; without the header n is zero. No other text, no
      sign, no list, no number that is too large means any length at all. */
  lemma LengthIsItsNumeral(headers: Headers, n: nat)
    ensures ParseLength(headers) == Ok(n) <==>
            if "content-length" in headers then n < U64 && IsNumeralOf(headers["content-length"], n) else n == 0
  {
    if "content-length" in headers {
      var raw := headers["content-length"];
      ReadIffNumeral(raw, n);
      hide IsNumeralOf;
      hide Read;
      assert IsDecimal(raw) <==> !(raw == "" || !forall i :: 0 <= i < |raw| ==> '0' <= raw[i] <= '9');
    }
  }

  /** The content length of an accepted request is the number in its header, and the number is
      never guessed: without the header it is zero. */
  lemma LengthIsRead(headers: Headers)
    ensures ParseLength(headers).Ok? <==>
              ("content-length" in headers ==>
                 && headers["content-length"] != ""
                 && (forall i :: 0 <= i < |headers["content-length"]| ==> '0' <= headers["content-length"][i] <= '9')
                 && Read(headers["content-length"], 10).Some? && Read(headers["content-length"], 10).value < U64)
    ensures ParseLength(headers).Ok? ==> LengthAgrees(headers, ParseLength(headers).value)
  {
  }

  lemma FinishGives(line: RequestLine, headers: Headers, lossy: Lossy)
    requires Finish(line, headers, lossy).Ok?
    ensures var r := Finish(line, headers, lossy).value;
      && !("content-length" in headers && "transfer-encoding" in headers)
      && ParseLength(headers) == Ok(r.contentLength)
      && r.verb == ToUpper(line.verb)
      && r.path == PathAndQuery(line.url).0 && r.rawQuery == PathAndQuery(line.url).1
      && r.params == Params(Split(r.rawQuery, "&"), map[], lossy)
      && r.headers == headers && r.bodyConsumed == 0 && r.keepAlive == KeepAlive(line.version, headers)
  {
  }

  lemma UpperMethod(verb: string)
    requires IsMethod(verb)
    ensures ToUpper(verb) != "" && forall i :: 0 <= i < |ToUpper(verb)| ==> 'A' <= ToUpper(verb)[i] <= 'Z'
  {
  }

  lemma FinishedIsClean(line: RequestLine, headers: Headers, lossy: Lossy, r: Request)
    requires IsMethod(line.verb) && IsTarget(line.url) && IsAscii(line.url)
    requires |headers| <= MAX_HEADERS && HeadersClean(headers)
    requires !("content-length" in headers && "transfer-encoding" in headers)
    requires LengthAgrees(headers, r.contentLength) && r.keepAlive == KeepAlive(line.version, headers)
    requires r.verb == ToUpper(line.verb) && r.headers == headers && r.bodyConsumed == 0
    requires r.path == PathAndQuery(line.url).0 && r.rawQuery == PathAndQuery(line.url).1
    requires r.params == Params(Split(r.rawQuery, "&"), map[], lossy)
    ensures Clean(r, lossy)
  {
    hide KeepAlive;
    hide Wishes;
    hide Params;
    hide LengthAgrees;
    hide HeadersClean;
    hide PathAndQuery;
    hide IsTarget;
    hide IsPath;
    hide IsTargetText;
    UpperMethod(line.verb);
    UrlIsClean(line.url);
    KeepAliveIff(line.version, headers);
  }

  /** An accepted request has an upper-case method, a path without query, unique lower-case token
      names, trimmed values without control bytes, never both framing headers, and a content
      length that is the decimal value of its header and fits 64 bits. */
  lemma AcceptedIsClean(head: string, lossy: Lossy)
    requires ParseHead(head, lossy).Ok?
    ensures Clean(ParseHead(head, lossy).value, lossy)
  {
    var lines := HeadLines(head);
    AsciiByLine(head);
    assert lines[0] in lines && forall a :: a in lines[1..] ==> a in lines;
    RequestLineIsAscii(lines[0]);
    HeadersAreClean(lines[1..]);
    var line, headers := ParseRequestLine(lines[0]).value, ParseFields(lines[1..], 0, map[]).value;
    FinishGives(line, headers, lossy);
    LengthIsRead(headers);
    FinishedIsClean(line, headers, lossy, ParseHead(head, lossy).value);
  }
}
