/** What a response looks like on the wire, and a client that reads it back by section 6.3 of
    RFC 9112.

    The client knows what it asked for, and nothing of the server: it looks for the end of the
    head, reads the header fields, and takes as many bytes as they say, or none if the response
    is one that never has a body. */
module Replies {
  import opened Wrappers
  import opened Text
  import opened Numbers
  import opened Http
  import opened Lines

  datatype Body = Whole(bytes: string) | Chunks(chunks: seq<string>)

  datatype Reply = Reply(status: nat, contentType: string, keepAlive: bool, body: Body)

  function StatusText(code: nat): string {
    match code
    case 200 => "OK"
    case 400 => "Bad Request"
    case 403 => "Forbidden"
    case 404 => "Not Found"
    case 405 => "Method Not Allowed"
    case 408 => "Request Timeout"
    case 409 => "Conflict"
    case 411 => "Length Required"
    case 500 => "Internal Server Error"
    case 503 => "Service Unavailable"
    case 505 => "HTTP Version Not Supported"
    case _ => "Unknown"
  }

  /** The content types that callers pass: ASCII field text without blanks around it. */
  predicate IsContentType(t: string) {
    IsAscii(t) && IsFieldText(t) && Trim(t) == t
  }

  // ---- what is written ----------------------------------------------------------------

  /** The framing headers: a length, or chunks. */
  function FramingLines(length: Option<nat>): seq<string> {
    match length
    case Some(n) => [HeaderLine("Content-Length", Print(n, 10))]
    case None => [HeaderLine("Transfer-Encoding", "chunked"), HeaderLine("X-Accel-Buffering", "no")]
  }

  function StatusLine(status: nat): string {
    "HTTP/1.1 " + Print(status, 10) + " " + StatusText(status)
  }

  function ConnectionValue(keepAlive: bool): string {
    if keepAlive then "keep-alive" else "close"
  }

  function OtherLines(contentType: string, keepAlive: bool): seq<string> {
    [HeaderLine("Content-Type", contentType), HeaderLine("Connection", ConnectionValue(keepAlive))]
  }

  function ReplyLines(status: nat, contentType: string, keepAlive: bool, length: Option<nat>): (lines: seq<string>)
    ensures lines != []
  {
    [StatusLine(status)] + OtherLines(contentType, keepAlive) + FramingLines(length)
  }

  function ReplyHead(status: nat, contentType: string, keepAlive: bool, length: Option<nat>): string {
    Join(ReplyLines(status, contentType, keepAlive, length), CRLF) + BLANK
  }

  function HeadOf(r: Reply): string {
    ReplyHead(r.status, r.contentType, r.keepAlive, if r.body.Whole? then Some(|r.body.bytes|) else None)
  }

  /** One chunk; an empty one is not written, since it would end the body. */
  function ChunkText(data: string): string {
    if data == "" then "" else Print(|data|, 16) + CRLF + data + CRLF
  }

  function ChunksText(chunks: seq<string>): string {
    if chunks == [] then "" else ChunkText(chunks[0]) + ChunksText(chunks[1..])
  }

  const LAST_CHUNK: string := "0\r\n\r\n"

  /** A response up to what `finish` adds. */
  function Unfinished(r: Reply): string {
    HeadOf(r) + match r.body case Whole(bytes) => bytes case Chunks(chunks) => ChunksText(chunks)
  }

  function ReplyText(r: Reply): string {
    Unfinished(r) + if r.body.Chunks? then LAST_CHUNK else ""
  }

  function Concat(parts: seq<string>): string {
    if parts == [] then "" else parts[0] + Concat(parts[1..])
  }

  function Content(body: Body): string {
    match body
    case Whole(bytes) => bytes
    case Chunks(chunks) => Concat(chunks)
  }

  // ---- the client ---------------------------------------------------------------------

  /** What a client makes of a response head; no length means chunks. */
  datatype Frame = Frame(status: nat, contentType: string, keepAlive: bool, length: Option<nat>)

  /** What it takes off the connection. */
  datatype Received = Received(status: nat, contentType: string, keepAlive: bool, content: string)

  /** How a client reads a head; `ReadHead` is the one of this model. */
  type Client = string -> Option<Frame>

  function ReadStatus(line: string): Option<nat> {
    var parts := Split(line, " ");
    if |parts| < 2 || parts[0] != "HTTP/1.1" then None else Read(parts[1], 10)
  }

  /** A connection of version 1.1 stays open unless `close` is one of the connection options
      (section 9.3). */
  predicate StaysOpen(headers: Headers) {
    !("connection" in headers && exists option :: option in Split(headers["connection"], ",") && ToLower(Trim(option)) == "close")
  }

  function FrameOf(status: nat, headers: Headers): Option<Frame> {
    if "content-type" !in headers then None
    else if "transfer-encoding" in headers then
      if headers["transfer-encoding"] == "chunked" then Some(Frame(status, headers["content-type"], StaysOpen(headers), None))
      else None
    else if "content-length" !in headers then None
    else
      match ParseLength(headers)
      case Ok(n) => Some(Frame(status, headers["content-type"], StaysOpen(headers), Some(n)))
      case Err(_) => None
  }

  function ReadHead(head: string): Option<Frame> {
    var lines := HeadLines(head);
    match ReadStatus(lines[0])
    case None => None
    case Some(status) =>
      match ParseFields(lines[1..], 0, map[])
      case Err(_) => None
      case Ok(headers) => FrameOf(status, headers)
  }

  /** A chunked body, and what follows it. */
  function ReadChunks(s: string): (r: Option<(string, string)>)
    ensures r.Some? ==> |r.value.1| < |s|
    decreases |s|
  {
    match Find(s, CRLF)
    case None => None
    case Some(i) =>
      var rest := s[i + 2..];
      match Read(s[..i], 16)
      case None => None
      case Some(n) =>
        if n == 0 then if At(rest, CRLF, 0) then Some(("", rest[2..])) else None
        else if !At(rest, CRLF, n) then None
        else
          match ReadChunks(rest[n + 2..])
          case None => None
          case Some((body, after)) => Some((rest[..n] + body, after))
  }

  /** Responses that end with their head, whatever it says about a body (section 6.3, rule 1). */
  predicate EndsAtHead(verb: string, status: nat) {
    verb == "HEAD" || 100 <= status < 200 || status == 204 || status == 304
  }

  /** The content of a response whose head was read, and what follows it. */
  function ReadContent(s: string, verb: string, f: Frame): (r: Option<(string, string)>)
    ensures r.Some? ==> |r.value.1| <= |s|
  {
    if EndsAtHead(verb, f.status) then Some(("", s))
    else
      match f.length
      case Some(n) => if n <= |s| then Some((s[..n], s[n..])) else None
      case None => ReadChunks(s)
  }

  /** The first response on the wire, to a request with this method, and what follows it; nothing
      until it is complete. */
  function ReadReply(s: string, verb: string, client: Client): (r: Option<(Received, string)>)
    ensures r.Some? ==> |r.value.1| < |s|
  {
    match Find(s, BLANK)
    case None => None
    case Some(i) =>
      match client(s[..i + 4])
      case None => None
      case Some(f) =>
        match ReadContent(s[i + 4..], verb, f)
        case None => None
        case Some((content, after)) => Some((Received(f.status, f.contentType, f.keepAlive, content), after))
  }

  /** The method of the i-th request a client sent. */
  function VerbAt(verbs: seq<string>, i: nat): string {
    if i < |verbs| then verbs[i] else "GET"
  }

  function Later(verbs: seq<string>, n: nat): seq<string> {
    if n <= |verbs| then verbs[n..] else []
  }

  /** All responses on the wire; `verbs` are the methods of the requests, in order. */
  function ReadAll(s: string, verbs: seq<string>, client: Client): seq<Received>
    decreases |s|
  {
    match ReadReply(s, VerbAt(verbs, 0), client)
    case None => []
    case Some((r, rest)) => [r] + ReadAll(rest, Later(verbs, 1), client)
  }
}
