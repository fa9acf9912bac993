/** Replaying a request head to a sandbox's own server (src/proxy.rs). */
module Proxy {
  import opened Wrappers
  import opened Text
  import opened Numbers
  import opened Http
  import opened HttpFacts
  import opened HttpRequests
  import opened Lines

  /** Rust's `parse::<u16>()`: decimal digits, with at most one plus sign in front. */
  function ParsePort(s: string): Option<nat> {
    var digits := if s != "" && s[0] == '+' then s[1..] else s;
    match Read(digits, 10)
    case Some(n) => if 0 < n < 0x1_0000 then Some(n) else None
    case None => None
  }

  function SplitTarget(segments: seq<string>): Option<(nat, string)> {
    if segments == [] then None
    else
      match ParsePort(segments[0])
      case None => None
      case Some(port) => Some((port, if |segments| == 1 then "/" else "/" + Join(segments[1..], "/")))
  }

  /** Headers of this hop only, which are not passed on. */
  predicate IsDropped(name: string) {
    name == "x-sandbox-token" || name == "authorization"
  }

  function TargetOf(r: Request, path: string): string {
    if r.rawQuery == "" then path else path + "?" + r.rawQuery
  }

  function RequestLineText(r: Request, path: string): string {
    r.verb + " " + TargetOf(r, path) + " HTTP/1.1"
  }

  /** The header lines passed on, in the order in which the map happens to give them. */
  function ForwardedLines(headers: Headers, order: seq<string>): seq<string>
    requires forall n :: n in order ==> n in headers
  {
    if order == [] then []
    else
      assert order[0] in order;
      var rest := ForwardedLines(headers, order[1..]);
      if IsDropped(order[0]) then rest else [HeaderLine(order[0], headers[order[0]])] + rest
  }

  function Terminated(lines: seq<string>): string {
    if lines == [] then "" else lines[0] + CRLF + Terminated(lines[1..])
  }

  function HeadText(r: Request, path: string, order: seq<string>): string
    requires forall n :: n in order ==> n in r.headers
  {
    RequestLineText(r, path) + CRLF + Terminated(ForwardedLines(r.headers, order)) + CRLF
  }

  /** `order` lists each header name once. */
  ghost predicate Lists(order: seq<string>, headers: Headers) {
    && (forall n :: n in order <==> n in headers)
    && (forall i, j :: 0 <= i < j < |order| ==> order[i] != order[j])
  }

  lemma LinesOfMore(headers: Headers, order: seq<string>)
    requires order != [] && forall n :: n in order ==> n in headers
    ensures var later := Terminated(ForwardedLines(headers, order[1..]));
      Terminated(ForwardedLines(headers, order)) ==
        if IsDropped(order[0]) then later else (HeaderLine(order[0], headers[order[0]]) + CRLF) + later
  {
    hide HeaderLine;
    hide IsDropped;
    assert order[0] in order;
    var line, rest := HeaderLine(order[0], headers[order[0]]), ForwardedLines(headers, order[1..]);
    assert ([line] + rest)[1..] == rest;
  }

  method BuildHead(r: Request, path: string, order: seq<string>) returns (head: string)
    requires Lists(order, r.headers)
    ensures head == HeadText(r, path, order)
  {
    var target := if r.rawQuery == "" then path else path + "?" + r.rawQuery;
    head := r.verb + " " + target + " HTTP/1.1" + CRLF;
    ghost var line, all := head, Terminated(ForwardedLines(r.headers, order));
    assert order[0..] == order && line == RequestLineText(r, path) + CRLF;
    hide IsDropped;
    for i := 0 to |order|
      invariant head + Terminated(ForwardedLines(r.headers, order[i..])) == line + all
    {
      var name := order[i];
      assert order[i..][1..] == order[i + 1..];
      LinesOfMore(r.headers, order[i..]);
      hide ForwardedLines;
      hide Terminated;
      hide HeaderLine;
      if IsDropped(name) {
        continue;
      }
      var value := r.headers[name];
      Regroup(head, HeaderLine(name, value) + CRLF, Terminated(ForwardedLines(r.headers, order[i + 1..])));
      head := head + (HeaderLine(name, value) + CRLF);
    }
    assert order[|order|..] == [];
    head := head + CRLF;
  }

  // ---- the printed head ------------------------------------------------------------------

  lemma {:induction false} TextIsJoined(first: string, lines: seq<string>)
    ensures first + CRLF + Terminated(lines) + CRLF == Join([first] + lines, CRLF) + BLANK
    decreases |lines|
  {
    var all := [first] + lines;
    if lines == [] {
      assert first + CRLF + "" + CRLF == first + BLANK;
    } else {
      TextIsJoined(lines[0], lines[1..]);
      assert all[1..] == lines == [lines[0]] + lines[1..];
      var rest := lines[0] + CRLF + Terminated(lines[1..]) + CRLF;
      assert first + CRLF + Terminated(lines) + CRLF == first + CRLF + rest;
      assert Join(all, CRLF) + BLANK == first + CRLF + (Join(lines, CRLF) + BLANK);
    }
  }

  lemma RequestLineIsPlain(r: Request, path: string)
    requires r.verb != "" && (forall i :: 0 <= i < |r.verb| ==> 'A' <= r.verb[i] <= 'Z')
    requires IsTargetText(path) && IsTargetText(r.rawQuery)
    ensures Plain(RequestLineText(r, path))
  {
  }

  lemma HeaderIsPlain(name: string, value: string)
    requires IsHeader(name, value)
    ensures Plain(HeaderLine(name, value))
  {
  }

  lemma {:induction false} ForwardedArePlain(headers: Headers, order: seq<string>)
    requires (forall n :: n in order ==> n in headers) && HeadersClean(headers)
    ensures AllPlain(ForwardedLines(headers, order))
    decreases |order|
  {
    if order != [] {
      assert order[0] in order;
      ForwardedArePlain(headers, order[1..]);
      if !IsDropped(order[0]) {
        HeaderIsPlain(order[0], headers[order[0]]);
        OneMorePlain(HeaderLine(order[0], headers[order[0]]), ForwardedLines(headers, order[1..]));
      }
    }
  }

  /** The printed head, as its lines. */
  ghost predicate Printed(r: Request, path: string, order: seq<string>, lines: seq<string>)
    requires forall n :: n in order ==> n in r.headers
  {
    && lines == [RequestLineText(r, path)] + ForwardedLines(r.headers, order)
    && HeadText(r, path, order) == Join(lines, CRLF) + BLANK
    && AllPlain(lines)
  }

  lemma PrintedLines(r: Request, path: string, order: seq<string>, lossy: Lossy) returns (lines: seq<string>)
    requires Clean(r, lossy) && IsPath(path) && Lists(order, r.headers)
    ensures Printed(r, path, order, lines)
  {
    lines := [RequestLineText(r, path)] + ForwardedLines(r.headers, order);
    RequestLineIsPlain(r, path);
    ForwardedArePlain(r.headers, order);
    OneMorePlain(RequestLineText(r, path), ForwardedLines(r.headers, order));
    TextIsJoined(RequestLineText(r, path), ForwardedLines(r.headers, order));
  }

  /** The one blank line of a printed head is at its end. */
  lemma BlankLineIsLast(r: Request, path: string, order: seq<string>, lossy: Lossy)
    requires Clean(r, lossy) && IsPath(path) && Lists(order, r.headers)
    ensures Find(HeadText(r, path, order), BLANK) == Some(|HeadText(r, path, order)| - 4)
  {
    var lines := PrintedLines(r, path, order, lossy);
    PlainHasNoCrlf(lines);
    OnlyBlankIsLast(lines);
  }

  // ---- and back --------------------------------------------------------------------------

  lemma RequestLineIsRead(verb: string, url: string)
    requires verb != "" && (forall i :: 0 <= i < |verb| ==> 'A' <= verb[i] <= 'Z') && IsTarget(url)
    ensures ParseRequestLine(verb + " " + url + " HTTP/1.1") == Ok(RequestLine(verb, url, "HTTP/1.1"))
  {
    var parts := [verb, url, "HTTP/1.1"];
    assert parts[1..] == [url, "HTTP/1.1"] && parts[1..][1..] == ["HTTP/1.1"];
    assert Join(parts[1..][1..], " ") == "HTTP/1.1";
    assert Join(parts[1..], " ") == url + " " + "HTTP/1.1";
    assert Join(parts, " ") == verb + " " + (url + " " + "HTTP/1.1") == verb + " " + url + " HTTP/1.1";
    SplitJoinChar(parts, ' ');
  }

  lemma TargetIsRead(r: Request, path: string)
    requires IsPath(path) && IsTargetText(r.rawQuery)
    ensures IsTarget(TargetOf(r, path)) && PathAndQuery(TargetOf(r, path)) == (path, r.rawQuery)
  {
    if r.rawQuery == "" {
      NoChar(path, '?');
    } else {
      SplitOnceAt(path, '?', r.rawQuery);
    }
  }

  lemma HeaderIsRead(name: string, value: string)
    requires IsHeader(name, value)
    ensures ParseField(HeaderLine(name, value)) == Ok(Field(name, value))
  {
    hide ParseField;
    assert ToLower(name) == name;
    FieldIsRead(name, value, HeaderLine(name, value));
  }

  /** A field of the request that is forwarded. */
  predicate IsForwarded(headers: Headers, order: seq<string>, p: Parsed) {
    p.Ok? && p.value.name in order && !IsDropped(p.value.name)
    && p.value.name in headers && p.value.value == headers[p.value.name]
  }

  /** The forwarded fields: all headers of the request but those of this hop. */
  ghost predicate AreForwarded(headers: Headers, order: seq<string>, fields: seq<Parsed>) {
    |fields| <= |order| && forall p :: p in fields <==> IsForwarded(headers, order, p)
  }

  lemma {:induction false} ForwardedFields(headers: Headers, order: seq<string>)
    requires (forall n :: n in order ==> n in headers) && HeadersClean(headers)
    ensures AreForwarded(headers, order, ParseEach(ForwardedLines(headers, order)))
    decreases |order|
  {
    if order != [] {
      ForwardedFields(headers, order[1..]);
      ForwardedStep(headers, order);
    }
  }

  lemma ForwardedStep(headers: Headers, order: seq<string>)
    requires (forall n :: n in order ==> n in headers) && HeadersClean(headers) && order != []
    requires AreForwarded(headers, order[1..], ParseEach(ForwardedLines(headers, order[1..])))
    ensures AreForwarded(headers, order, ParseEach(ForwardedLines(headers, order)))
  {
    var name, rest := order[0], order[1..];
    assert order == [name] + rest;
    OneMoreParsed(headers, name, order);
    OneMoreForwarded(headers, name, rest, ParseEach(ForwardedLines(headers, rest)));
  }

  lemma OneMoreParsed(headers: Headers, name: string, order: seq<string>)
    requires order != [] && order[0] == name && HeadersClean(headers)
    requires forall n :: n in order ==> n in headers
    ensures name in headers
    ensures forall n :: n in order[1..] ==> n in headers
    ensures var fields := ParseEach(ForwardedLines(headers, order[1..]));
      ParseEach(ForwardedLines(headers, order)) == if IsDropped(name) then fields else [Ok(Field(name, headers[name]))] + fields
  {
    assert name in order;
    if !IsDropped(name) {
      HeaderIsRead(name, headers[name]);
      var line, lines := HeaderLine(name, headers[name]), ForwardedLines(headers, order[1..]);
      assert ([line] + lines)[1..] == lines;
      assert ForwardedLines(headers, order) == [line] + lines;
    }
  }

  lemma OneMoreForwarded(headers: Headers, name: string, rest: seq<string>, fields: seq<Parsed>)
    requires name in headers && AreForwarded(headers, rest, fields)
    ensures AreForwarded(headers, [name] + rest, if IsDropped(name) then fields else [Ok(Field(name, headers[name]))] + fields)
  {
  }

  function Forwarded(headers: Headers): Headers {
    map n | n in headers && !IsDropped(n) :: headers[n]
  }

  lemma {:induction false} OrderIsNotLonger(order: seq<string>, headers: Headers)
    requires (forall i, j :: 0 <= i < j < |order| ==> order[i] != order[j]) && forall n :: n in order ==> n in headers
    ensures |order| <= |headers|
    decreases |order|
  {
    if order != [] {
      var last := order[|order| - 1];
      var fewer := headers - {last};
      assert last in order && fewer.Keys == headers.Keys - {last};
      forall n | n in order[..|order| - 1] ensures n in fewer {
        assert n in order;
      }
      OrderIsNotLonger(order[..|order| - 1], fewer);
    }
  }

  lemma HeadersAreRead(headers: Headers, order: seq<string>)
    requires Lists(order, headers) && |headers| <= MAX_HEADERS && HeadersClean(headers)
    ensures ParseFields(ForwardedLines(headers, order), 0, map[]) == Ok(Forwarded(headers))
  {
    var fields := ParseEach(ForwardedLines(headers, order));
    ForwardedFields(headers, order);
    OrderIsNotLonger(order, headers);
    FieldsAreMerged(ForwardedLines(headers, order), 0, map[]);
    MergedForwarded(headers, order, fields);
  }

  lemma MergedForwarded(headers: Headers, order: seq<string>, fields: seq<Parsed>)
    requires Lists(order, headers) && |fields| <= MAX_HEADERS
    requires AreForwarded(headers, order, fields)
    ensures Merge(fields, 0, map[]) == Ok(Forwarded(headers))
  {
    MergeIff(fields, 0, map[]);
    var kept := Forwarded(headers);
    forall n | n in kept ensures Named(fields, n) {
      assert IsForwarded(headers, order, Ok(Field(n, headers[n])));
    }
    assert Collects(fields, map[], kept);
    assert Agree(fields, map[]);
    assert Acceptable(fields, 0, map[]);
    CollectsOne(fields, fields, kept, Merge(fields, 0, map[]).value);
  }

  lemma LengthIsForwarded(headers: Headers, n: nat)
    requires LengthAgrees(headers, n)
    ensures ParseLength(Forwarded(headers)) == Ok(n)
  {
    if "content-length" in headers {
      assert headers["content-length"] != "";
    }
  }

  /** What a head parses to when its lines do. */
  lemma ParsedByParts(head: string, line: RequestLine, headers: Headers, n: nat, lossy: Lossy)
    requires IsAscii(head) && ParseRequestLine(HeadLines(head)[0]) == Ok(line)
    requires ParseFields(HeadLines(head)[1..], 0, map[]) == Ok(headers)
    requires !("content-length" in headers && "transfer-encoding" in headers) && ParseLength(headers) == Ok(n)
    ensures ParseHead(head, lossy) == Finish(line, headers, lossy) && ParseHead(head, lossy).Ok?
  {
  }

  lemma PrintedIsParsed(r: Request, path: string, order: seq<string>, lossy: Lossy)
    requires Clean(r, lossy) && IsPath(path) && Lists(order, r.headers)
    ensures var parsed := Finish(RequestLine(r.verb, TargetOf(r, path), "HTTP/1.1"), Forwarded(r.headers), lossy);
      ParseHead(HeadText(r, path, order), lossy) == parsed && parsed.Ok?
  {
    var lines := PrintedLines(r, path, order, lossy);
    PrintedLinesAreRead(lines);
    assert lines[1..] == ForwardedLines(r.headers, order);
    TargetIsRead(r, path);
    RequestLineIsRead(r.verb, TargetOf(r, path));
    HeadersAreRead(r.headers, order);
    LengthIsForwarded(r.headers, r.contentLength);
    ParsedByParts(HeadText(r, path, order), RequestLine(r.verb, TargetOf(r, path), "HTTP/1.1"), Forwarded(r.headers),
                  r.contentLength, lossy);
  }

  /** Replaying is a round trip: whatever the order of the header map, parsing the printed head
      gives the request back, with the new path and without the headers of this hop. The printed
      head is one of version 1.1, so the backend may keep its connection open unless a Connection
      header says close; it agrees with the request in that if and only if the client wanted to go on
      or said so. */
  lemma ReplayRoundTrip(r: Request, path: string, order: seq<string>, lossy: Lossy)
    requires Clean(r, lossy) && IsPath(path) && Lists(order, r.headers)
    ensures var back := ParseHead(HeadText(r, path, order), lossy);
      && back.Ok?
      && back.value.verb == r.verb
      && back.value.path == path
      && back.value.rawQuery == r.rawQuery
      && back.value.params == r.params
      && back.value.headers == Forwarded(r.headers)
      && back.value.contentLength == r.contentLength
      && (back.value.keepAlive <==> !Wishes(r.headers, "close"))
      && (back.value.keepAlive == r.keepAlive <==> r.keepAlive || Wishes(r.headers, "close"))
  {
    ReplayPersists(r.headers, r.keepAlive);
    PrintedIsParsed(r, path, order, lossy);
    TargetIsRead(r, path);
    LengthIsForwarded(r.headers, r.contentLength);
    UpperIsUpper(r.verb);
    hide ParseHead;
    hide HeadText;
    hide KeepAlive;
    hide Wishes;
    hide PathAndQuery;
    hide IsTarget;
    hide ParseLength;
    FinishGives(RequestLine(r.verb, TargetOf(r, path), "HTTP/1.1"), Forwarded(r.headers), lossy);
    hide Finish;
  }

  /** Only the two headers that carry the caller's credentials for this hop stay behind. */
  lemma CredentialsStayBehind(r: Request, path: string, order: seq<string>, lossy: Lossy)
    requires Clean(r, lossy) && IsPath(path) && Lists(order, r.headers)
    ensures var back := ParseHead(HeadText(r, path, order), lossy);
      && back.Ok?
      && "x-sandbox-token" !in back.value.headers && "authorization" !in back.value.headers
      && forall n :: n != "x-sandbox-token" && n != "authorization" ==>
        && (n in back.value.headers <==> n in r.headers)
        && (n in r.headers ==> back.value.headers[n] == r.headers[n])
  {
    hide ParseHead;
    hide HeadText;
    hide Clean;
    hide IsPath;
    hide Wishes;
    ReplayRoundTrip(r, path, order, lossy);
  }

  lemma ReplayPersists(headers: Headers, keepAlive: bool)
    requires ConnectionAgrees(headers, keepAlive)
    ensures var again := KeepAlive("HTTP/1.1", Forwarded(headers));
      && (again <==> !Wishes(headers, "close"))
      && (again == keepAlive <==> keepAlive || Wishes(headers, "close"))
  {
    KeepAliveIff("HTTP/1.1", Forwarded(headers));
    assert Wishes(Forwarded(headers), "close") <==> Wishes(headers, "close");
    hide KeepAlive;
    hide Wishes;
  }

  lemma UpperIsUpper(verb: string)
    requires forall i :: 0 <= i < |verb| ==> 'A' <= verb[i] <= 'Z'
    ensures ToUpper(verb) == verb
  {
  }
}
