/** The byte order of a proxied connection (src/proxy.rs, `handle_proxy`), and which paths reach
    the backend. */
module Tunnel {
  import opened Wrappers
  import opened Text
  import opened Http
  import opened Numbers
  import opened HttpRequests
  import opened Proxy
  import opened Framing
  import opened FramingFacts

  /** Writes to the backend; a write that fails may have sent a part of its data. */
  method SendTo(sent: string, data: string) returns (now: string, ok: bool)
    ensures sent <= now <= sent + data && (ok ==> now == sent + data)
  {
    ok := *;
    var n: nat :| n <= |data|;
    if ok {
      n := |data|;
    }
    assert data == data[..n] + data[n..];
    now := sent + data[..n];
  }

  /** Replays the head, then what the reader had already fetched, then the socket, piece by piece
      until its end or until one side fails. */
  method Forward(reader: Reader, r: Request, path: string, order: seq<string>) returns (sent: string, whole: bool)
    requires reader.Valid() && Lists(order, r.headers)
    modifies reader
    ensures reader.Valid()
    ensures sent <= HeadText(r, path, order) + old(reader.Rest())
    ensures whole ==> sent == HeadText(r, path, order) + old(reader.Rest())
  {
    hide HeadText;
    var head := BuildHead(r, path, order);
    ghost var all := head + reader.Rest();
    var leftover := reader.input[reader.pos..reader.filled];
    assert reader.Rest() == leftover + reader.input[reader.filled..];
    sent, whole := SendTo("", head);
    assert "" + head == head;
    if !whole {
      return;
    }
    sent, whole := SendTo(sent, leftover);
    if !whole {
      return;
    }
    reader.pos := reader.filled;
    while reader.pos < |reader.input|
      invariant reader.Valid() && whole
      invariant sent + reader.Rest() == all
      decreases |reader.input| - reader.pos
    {
      ghost var rest := reader.Rest();
      var piece := reader.Read(8 * 1024);
      if piece.Err? {
        return sent, false;
      }
      assert rest == piece.value + reader.Rest();
      ghost var before := sent;
      sent, whole := SendTo(sent, piece.value);
      assert before + rest == before + piece.value + reader.Rest();
      if !whole {
        return;
      }
    }
  }

  /** The request a replayed head stands for. */
  ghost predicate IsReplayOf(back: Request, r: Request, path: string) {
    && back.verb == r.verb && back.path == path && back.rawQuery == r.rawQuery && back.params == r.params
    && back.headers == Forwarded(r.headers) && back.contentLength == r.contentLength
    && (back.keepAlive == r.keepAlive <==> r.keepAlive || Wishes(r.headers, "close"))
  }

  lemma Replayed(r: Request, path: string, order: seq<string>, lossy: Lossy) returns (m: Message)
    requires Clean(r, lossy) && IsPath(path) && Lists(order, r.headers)
    ensures m.head == HeadText(r, path, order) && IsReplayOf(m.request, r, path)
    ensures ParsesTo(m, HeadParser(lossy))
  {
    ReplayRoundTrip(r, path, order, lossy);
    m := Message(HeadText(r, path, order), ParseHead(HeadText(r, path, order), lossy).value);
  }

  ghost predicate ParsesTo(m: Message, parse: Parser) {
    forall head :: head == m.head ==> parse(head) == Ok(m.request)
  }

  /** Whatever follows the head of m, a server that parses heads like this takes m off the stream
      first, and then as many bytes as m's length says. */
  ghost predicate Leads(m: Message, parse: Parser) {
    forall rest ::
      && First(m.head + rest, parse) == Some(m)
      && Skip(m.head + rest, m) == rest[Min(m.request.contentLength, |rest|)..]
  }

  lemma HeadLeads(m: Message, parse: Parser)
    requires Find(m.head, BLANK) == Some(|m.head| - 4) && |m.head| <= MAX_HEADER_BYTES
    requires ParsesTo(m, parse)
    ensures Leads(m, parse)
  {
    hide First;
    hide Skip;
    hide Find;
    hide ParsesTo;
    forall rest ensures First(m.head + rest, parse) == Some(m)
      ensures Skip(m.head + rest, m) == rest[Min(m.request.contentLength, |rest|)..] {
      HeadThenBody(m, rest, parse);
    }
  }

  lemma HeadThenBody(m: Message, rest: string, parse: Parser)
    requires Find(m.head, BLANK) == Some(|m.head| - 4) && |m.head| <= MAX_HEADER_BYTES
    requires ParsesTo(m, parse)
    ensures First(m.head + rest, parse) == Some(m)
    ensures Skip(m.head + rest, m) == rest[Min(m.request.contentLength, |rest|)..]
  {
    hide Find;
    assert parse(m.head) == Ok(m.request);
    FirstOfMessage(m, rest, parse);
    BehindHead(m.head, rest, m.request.contentLength);
  }

  lemma BehindHead(head: string, rest: string, n: nat)
    ensures (head + rest)[Min(|head| + n, |head + rest|)..] == rest[Min(n, |rest|)..]
  {
  }

  /** A backend that frames messages the same way gets the request it should: same method, query,
      parameters, length and forwarded headers, the new path, and behind the head exactly the
      bytes that followed it on the client's connection. */
  lemma BackendReadsTheRequest(r: Request, path: string, order: seq<string>, lossy: Lossy) returns (m: Message)
    requires Clean(r, lossy) && IsPath(path) && Lists(order, r.headers)
    requires |HeadText(r, path, order)| <= MAX_HEADER_BYTES
    ensures m.head == HeadText(r, path, order) && IsReplayOf(m.request, r, path)
    ensures Leads(m, HeadParser(lossy))
  {
    m := Replayed(r, path, order, lossy);
    BlankLineIsLast(r, path, order, lossy);
    HeadLeads(m, HeadParser(lossy));
  }

  // ---- which paths ----------------------------------------------------------------------

  function TrimSlashes(s: string): string
    decreases |s|
  {
    if s != "" && s[0] == '/' then TrimSlashes(s[1..])
    else if s != "" && s[|s| - 1] == '/' then TrimSlashes(s[..|s| - 1])
    else s
  }

  /** The path segments `route` matches on. */
  function Segments(path: string): seq<string> {
    Split(TrimSlashes(path), "/")
  }

  predicate IsPathChar(c: char) {
    ' ' < c < 0x7f as char && c != '?'
  }

  predicate PathText(s: string) {
    forall i :: 0 <= i < |s| ==> IsPathChar(s[i])
  }

  lemma {:induction false} TrimmedPathText(s: string)
    requires PathText(s)
    ensures PathText(TrimSlashes(s))
    decreases |s|
  {
    if s != "" && s[0] == '/' {
      TrimmedPathText(s[1..]);
    } else if s != "" && s[|s| - 1] == '/' {
      TrimmedPathText(s[..|s| - 1]);
    }
  }

  lemma SegmentsArePathText(path: string, k: nat)
    requires PathText(path) && k < |Segments(path)|
    ensures PathText(Segments(path)[k])
  {
    var s := TrimSlashes(path);
    var segments := Split(s, "/");
    TrimmedPathText(path);
    PiecesLack(s, '/', k);
    forall i | 0 <= i < |segments[k]| ensures IsPathChar(segments[k][i]) {
      var c := segments[k][i];
      PiecesHoldTheText(s, "/", c);
      assert c in segments[k] && InSome(segments, c);
    }
  }

  lemma {:induction false} JoinedPathText(segments: seq<string>)
    requires segments != [] && forall k :: 0 <= k < |segments| ==> PathText(segments[k])
    ensures PathText(Join(segments, "/"))
    decreases |segments|
  {
    if |segments| > 1 {
      JoinedPathText(segments[1..]);
    }
  }

  /** The path that a request for the proxy is forwarded under is a path `parse_head` accepts. */
  lemma ForwardedPathIsPath(path: string, k: nat)
    requires IsPath(path) && k <= |Segments(path)|
    requires SplitTarget(Segments(path)[k..]).Some?
    ensures IsPath(SplitTarget(Segments(path)[k..]).value.1)
  {
    assert PathText(path);
    var segments := Segments(path)[k..];
    if |segments| > 1 {
      var tail := segments[1..];
      forall j | 0 <= j < |tail| ensures PathText(tail[j]) {
        SegmentsArePathText(path, k + 1 + j);
      }
      JoinedPathText(tail);
      var joined := Join(tail, "/");
      var forward := "/" + joined;
      forall i | 0 <= i < |forward| ensures IsPathChar(forward[i]) {
        if i > 0 { assert forward[i] == joined[i - 1]; }
      }
    }
  }

  /** Every accepted request that is routed to a proxy target reaches the backend as itself. */
  lemma ProxiedRequestRoundTrip(head: string, k: nat, order: seq<string>, lossy: Lossy)
    requires ParseHead(head, lossy).Ok?
    requires k <= |Segments(ParseHead(head, lossy).value.path)|
    requires SplitTarget(Segments(ParseHead(head, lossy).value.path)[k..]).Some?
    requires Lists(order, ParseHead(head, lossy).value.headers)
    ensures var r := ParseHead(head, lossy).value;
      var path := SplitTarget(Segments(r.path)[k..]).value.1;
      var back := ParseHead(HeadText(r, path, order), lossy);
      && Find(HeadText(r, path, order), BLANK) == Some(|HeadText(r, path, order)| - 4)
      && back.Ok? && IsReplayOf(back.value, r, path)
  {
    AcceptedIsClean(head, lossy);
    var r := ParseHead(head, lossy).value;
    RoundTripOf(r, k, order, lossy);
  }

  lemma RoundTripOf(r: Request, k: nat, order: seq<string>, lossy: Lossy)
    requires Clean(r, lossy) && k <= |Segments(r.path)| && SplitTarget(Segments(r.path)[k..]).Some?
    requires Lists(order, r.headers)
    ensures var path := SplitTarget(Segments(r.path)[k..]).value.1;
      var back := ParseHead(HeadText(r, path, order), lossy);
      && Find(HeadText(r, path, order), BLANK) == Some(|HeadText(r, path, order)| - 4)
      && back.Ok? && IsReplayOf(back.value, r, path)
  {
    ForwardedPathIsPath(r.path, k);
    hide Segments;
    hide SplitTarget;
    hide ParseHead;
    hide HeadText;
    hide IsReplayOf;
    hide Find;
    hide IsPath;
    ReplayReads(r, SplitTarget(Segments(r.path)[k..]).value.1, order, lossy);
  }

  lemma ReplayReads(r: Request, path: string, order: seq<string>, lossy: Lossy)
    requires Clean(r, lossy) && IsPath(path) && Lists(order, r.headers)
    ensures var back := ParseHead(HeadText(r, path, order), lossy);
      && Find(HeadText(r, path, order), BLANK) == Some(|HeadText(r, path, order)| - 4)
      && back.Ok? && IsReplayOf(back.value, r, path)
  {
    hide ParseHead;
    hide HeadText;
    hide Wishes;
    hide Find;
    hide IsPath;
    hide Clean;
    BlankLineIsLast(r, path, order, lossy);
    ReplayRoundTrip(r, path, order, lossy);
  }
}
