/** Requests on one connection, byte by byte (src/http.rs: `read_request`, the body readers;
    src/main.rs: `handle_connection`).

    `Messages` is the reference: a message is the shortest prefix that ends in a blank line, and
    behind it as many bytes as its Content-Length says (section 6.3 of RFC 9112). */
module Framing {
  import opened Wrappers
  import opened Text
  import opened Numbers
  import opened Http

  const MAX_HEADER_BYTES: nat := 64 * 1024
  const MAX_DRAIN_BYTES: nat := 1024 * 1024
  const BUFFER: nat := 64 * 1024

  datatype IoError = TimedOut | Broken | UnexpectedEof | TooLarge | BadHead(why: HeadError) | HandlerFailed

  /** The head parser; `HeadParser` is the one the server uses. */
  type Parser = string -> Result<Request, HeadError>

  function HeadParser(lossy: Lossy): Parser {
    (head: string) => ParseHead(head, lossy)
  }

  datatype Message = Message(head: string, request: Request)

  /** The message the bytes s begin with. */
  function First(s: string, parse: Parser): (m: Option<Message>)
    ensures m.Some? ==> 4 <= |m.value.head| && m.value.head <= s
  {
    match Find(s, BLANK)
    case None => None
    case Some(i) =>
      if i + 4 > MAX_HEADER_BYTES then None
      else
        match parse(s[..i + 4])
        case Err(_) => None
        case Ok(r) => Some(Message(s[..i + 4], r))
  }

  /** What follows the first message; nothing, if its body is cut short. */
  function Skip(s: string, m: Message): (rest: string)
    requires m.head <= s
    ensures |rest| <= |s| - |m.head|
  {
    s[Min(|m.head| + m.request.contentLength, |s|)..]
  }

  function Messages(s: string, parse: Parser): seq<Message>
    decreases |s|
  {
    match First(s, parse)
    case None => []
    case Some(m) => [m] + Messages(Skip(s, m), parse)
  }

  /** What follows the first n messages. */
  function After(s: string, n: nat, parse: Parser): string {
    if n == 0 then s
    else
      var rest := After(s, n - 1, parse);
      match First(rest, parse)
      case None => ""
      case Some(m) => Skip(rest, m)
  }

  /** A connection's `BufReader`: the bytes the client sends, how many of them were handed out,
      and how many were already fetched from the socket. A read can fail at any time, and a handler
      can give up, unless the connection is quiet. */
  class Reader {
    const input: string
    const quiet: bool
    var pos: nat
    var filled: nat

    ghost predicate Valid()
      reads this
    {
      pos <= filled <= |input|
    }

    ghost function Rest(): string
      requires Valid()
      reads this
    {
      input[pos..]
    }

    constructor (input: string, quiet: bool)
      ensures Valid() && pos == 0 && this.input == input && this.quiet == quiet
    {
      this.input, this.quiet := input, quiet;
      pos, filled := 0, 0;
    }

    method MayFail() returns (fails: bool)
      ensures quiet ==> !fails
    {
      fails := *;
      fails := fails && !quiet;
    }

    /** Up to `max` bytes, at least one unless the stream has ended. */
    method Read(max: nat) returns (r: Result<string, IoError>)
      requires Valid() && max > 0
      modifies this
      ensures Valid() && old(pos) <= pos
      ensures r.Ok? ==> |r.value| <= max && r.value == input[old(pos)..pos] && (r.value == "" <==> old(pos) == |input|)
      ensures r.Err? ==> !quiet && pos == old(pos) && (r.error.TimedOut? || r.error.Broken?)
    {
      var late := MayFail();
      var broken := MayFail();
      if late {
        return Err(TimedOut);
      } else if broken {
        return Err(Broken);
      }
      if pos == filled && filled < |input| {
        var fetched: nat :| filled < fetched <= |input|;
        filled := fetched;
      }
      var n := Min(max, filled - pos);
      r := Ok(input[pos..pos + n]);
      pos := pos + n;
    }

    /** The loop of `read_request`: one byte at a time up to the first blank line; `None` is a
        clean end between requests. */
    method ReadHead() returns (r: Result<Option<string>, IoError>)
      requires Valid()
      modifies this
      ensures Valid() && old(pos) <= pos
      ensures r.Ok? && r.value.Some? ==>
                && pos == old(pos) + |r.value.value| && r.value.value == input[old(pos)..pos]
                && IsHead(old(Rest()), |r.value.value|)
      ensures r.Ok? && r.value.None? ==> old(pos) == |input|
      ensures r.Err? ==> !r.error.BadHead? && !r.error.HandlerFailed? && (quiet ==> !r.error.TimedOut? && !r.error.Broken?)
      ensures r.Err? && (r.error.UnexpectedEof? || r.error.TooLarge?) ==>
                NoHead(old(Rest())) && (r.error.TooLarge? <==> |old(Rest())| > 65_536)
    {
      var head := "";
      ghost var rest := Rest();
      while true
        invariant Valid() && pos == old(pos) + |head| && head == input[old(pos)..pos]
        invariant |head| <= MAX_HEADER_BYTES
        invariant forall j: nat :: !At(head, BLANK, j)
        decreases |input| - pos
      {
        var late := MayFail();
        if late {
          return Err(TimedOut);
        }
        var byte := Read(1);
        if byte.Err? {
          return Err(byte.error);
        }
        if byte.value == "" {
          if head == "" {
            return Ok(None);
          }
          assert rest == head;
          return Err(UnexpectedEof);
        }
        OneMoreByte(head, byte.value, rest);
        head := head + byte.value;
        if |head| > MAX_HEADER_BYTES {
          return Err(TooLarge);
        }
        if |head| >= 4 && At(head, BLANK, |head| - 4) {
          return Ok(Some(head));
        }
      }
    }

    /** Reads a request head and parses it; `None` is a clean end between requests. */
    method ReadRequest(parse: Parser) returns (r: Result<Option<Message>, IoError>)
      requires Valid()
      modifies this
      ensures Valid() && old(pos) <= pos
      ensures r.Ok? && r.value.Some? ==>
                First(old(Rest()), parse) == r.value && pos == old(pos) + |r.value.value.head|
      ensures r.Ok? && r.value.None? ==> old(pos) == |input|
      ensures r.Err? && !r.error.TimedOut? && !r.error.Broken? ==> First(old(Rest()), parse) == None
      ensures r.Err? && quiet ==> !r.error.TimedOut? && !r.error.Broken?
      ensures Explains(r, old(Rest()), parse, quiet)
    {
      ghost var rest := Rest();
      var head := ReadHead();
      if head.Err? {
        return Err(head.error);
      }
      if head.value.None? {
        return Ok(None);
      }
      assert head.value.value == rest[..|head.value.value|];
      match parse(head.value.value) {
        case Err(e) => return Err(BadHead(e));
        case Ok(request) => return Ok(Some(Message(head.value.value, request)));
      }
    }

    /** Reads the whole body of a request. */
    method ReadBody(request: Request, max: nat) returns (r: Result<string, IoError>, after: Request)
      requires Valid()
      modifies this
      ensures Valid() && old(pos) <= pos
      ensures r.Ok? ==>
                && request.contentLength <= max
                && pos == old(pos) + request.contentLength && r.value == input[old(pos)..pos]
                && after == request.(bodyConsumed := request.contentLength)
      ensures r.Err? ==> after == request
      ensures quiet && request.contentLength <= max && old(pos) + request.contentLength <= |input| ==> r.Ok?
    {
      after := request;
      if request.contentLength > max {
        return Err(TooLarge), after;
      }
      var body := "";
      while |body| < request.contentLength
        invariant Valid() && |body| <= request.contentLength
        invariant pos == old(pos) + |body| && body == input[old(pos)..pos]
      {
        var want := Min(request.contentLength - |body|, BUFFER);
        var got := Read(want);
        if got.Err? {
          return Err(got.error), after;
        }
        if got.value == "" {
          return Err(UnexpectedEof), after;
        }
        body := body + got.value;
      }
      after := request.(bodyConsumed := request.contentLength);
      r := Ok(body);
    }

    /** Streams what is left of the body into a sink that may fail; `sunk` is what the sink took. */
    method StreamBody(request: Request) returns (r: Result<nat, IoError>, after: Request, sunk: string)
      requires Valid() && request.bodyConsumed <= request.contentLength
      modifies this
      ensures Valid() && old(pos) + |sunk| <= pos && sunk == input[old(pos)..old(pos) + |sunk|]
      ensures after == request.(bodyConsumed := request.bodyConsumed + |sunk|) && after.bodyConsumed <= after.contentLength
      ensures r.Ok? ==> pos == old(pos) + |sunk| && after.bodyConsumed == request.contentLength == r.value
      ensures quiet && old(pos) + (request.contentLength - request.bodyConsumed) <= |input| ==> r.Ok?
    {
      after, sunk := request, "";
      var remaining := request.contentLength - request.bodyConsumed;
      while remaining > 0
        invariant Valid() && pos == old(pos) + |sunk| && sunk == input[old(pos)..pos]
        invariant remaining >= 0 && remaining + request.bodyConsumed + |sunk| == request.contentLength
        invariant after == request.(bodyConsumed := request.bodyConsumed + |sunk|)
      {
        var got := Read(Min(BUFFER, remaining));
        if got.Err? {
          return Err(got.error), after, sunk;
        }
        if got.value == "" {
          return Err(UnexpectedEof), after, sunk;
        }
        var fails := MayFail();
        if fails {
          return Err(HandlerFailed), after, sunk;
        }
        sunk := sunk + got.value;
        remaining := remaining - |got.value|;
        after := after.(bodyConsumed := after.bodyConsumed + |got.value|);
      }
      r := Ok(request.contentLength);
    }

    /** Discards what is left of the body. An end of stream before that is not an error. */
    method DrainBody(request: Request) returns (ok: bool)
      requires Valid() && request.bodyConsumed <= request.contentLength
      modifies this
      ensures Valid() && old(pos) <= pos
      ensures ok ==> pos == Min(old(pos) + (request.contentLength - request.bodyConsumed), |input|)
      ensures ok ==> request.contentLength - request.bodyConsumed <= 1_048_576
      ensures quiet && request.contentLength - request.bodyConsumed <= 1_048_576 ==> ok
    {
      var remaining := request.contentLength - request.bodyConsumed;
      if remaining == 0 {
        return true;
      }
      if remaining > MAX_DRAIN_BYTES {
        return false;
      }
      var left := remaining;
      while left > 0
        invariant Valid() && pos == old(pos) + (remaining - left) && 0 <= left <= remaining
      {
        var got := Read(Min(BUFFER, left));
        if got.Err? {
          return false;
        }
        if got.value == "" {
          return true;
        }
        left := left - |got.value|;
      }
      ok := true;
    }
  }

  /** The first n bytes of s are a complete head: a blank line ends them and none comes before. */
  ghost predicate IsHead(s: string, n: nat) {
    4 <= n <= |s| && n <= 65_536 && Find(s, BLANK) == Some(n - 4)
  }

  /** s does not begin with a complete head of acceptable size. */
  ghost predicate NoHead(s: string) {
    Find(s, BLANK).None? || Find(s, BLANK).value + 4 > 65_536
  }

  /** A request is refused if and only if what stands there is bad, unless a read was late or failed. */
  ghost predicate Explains(got: Result<Option<Message>, IoError>, rest: string, parse: Parser, quiet: bool) {
    && (got.Err? ==> !got.error.HandlerFailed? && (quiet ==> !got.error.TimedOut? && !got.error.Broken?))
    && (!(got.Err? && (got.error.TimedOut? || got.error.Broken?)) ==>
          (got.Err? && (got.error.TooLarge? || got.error.BadHead?) <==> IsBad(rest, parse)))
  }

  /** s begins with a complete head that the parser does not take, or with more than a head may be. */
  ghost predicate IsBad(s: string, parse: Parser) {
    if NoHead(s) then |s| > 65_536 else parse(s[..Find(s, BLANK).value + 4]).Err?
  }

  lemma PrefixAt(a: string, b: string, pat: string, j: nat)
    requires a <= b && j + |pat| <= |a|
    ensures At(a, pat, j) <==> At(b, pat, j)
  {
    assert a[j..j + |pat|] == b[j..j + |pat|];
  }

  lemma OneMoreByte(head: string, b: string, all: string)
    requires |b| == 1 && head + b <= all && |head| <= MAX_HEADER_BYTES
    requires forall j: nat :: !At(head, BLANK, j)
    ensures var longer := head + b;
      && (if |longer| >= 4 && At(longer, BLANK, |longer| - 4) then Find(all, BLANK) == Some(|longer| - 4)
          else forall j: nat :: !At(longer, BLANK, j))
      && (|longer| > MAX_HEADER_BYTES ==> NoHead(all))
  {
    var longer := head + b;
    forall j: nat | j + 4 <= |head| ensures !At(longer, BLANK, j) && !At(all, BLANK, j) {
      PrefixAt(head, longer, BLANK, j);
      PrefixAt(head, all, BLANK, j);
    }
    if |longer| >= 4 {
      PrefixAt(longer, all, BLANK, |longer| - 4);
    }
  }

  predicate IsChunked(r: Request) {
    "transfer-encoding" in r.headers
  }

  /** What a handler did: its result, whether it took over the socket, and the request as it
      left it. */
  datatype Outcome = Outcome(ok: bool, hijacked: bool, request: Request)

  /** What a handler does with the body, if nothing fails: leaves it alone, reads it whole up to a
      limit, streams it, or takes over the socket. */
  datatype Handler = Ignores | Reads(max: nat) | Streams | TakesOver

  /** The handler can have what it asks for of the body, and what is left is not too much to
      discard; `have` is how many bytes are still to come. */
  predicate IsServed(request: Request, handler: Handler, have: int) {
    var length := request.contentLength;
    if IsChunked(request) || handler.Ignores? then length <= 1_048_576
    else if handler.Reads? then length <= handler.max && length <= have
    else handler.Streams? && length <= have
  }

  /** When the connection goes on behind a request. */
  predicate GoesOn(rest: string, m: Message, handler: Handler) {
    m.request.keepAlive && IsServed(m.request, handler, |rest| - |m.head|)
  }

  /** A handler that is through has taken this much of the body. */
  predicate Took(request: Request, handler: Handler, n: nat) {
    n <= request.contentLength
    && if IsChunked(request) || handler.Ignores? then n == 0
       else if handler.Reads? then n == request.contentLength <= handler.max
       else handler.Streams? && n == request.contentLength
  }

  /** `route`, as far as the connection's bytes are concerned: a request with Transfer-Encoding is
      refused unread; any other goes to its handler, which may fail at any time. */
  method Route(reader: Reader, request: Request, handler: Handler) returns (o: Outcome)
    requires reader.Valid() && request.bodyConsumed == 0
    modifies reader
    ensures reader.Valid() && old(reader.pos) <= reader.pos
    ensures o.request == request.(bodyConsumed := o.request.bodyConsumed) && o.request.bodyConsumed <= request.contentLength
    ensures o.ok && !o.hijacked ==>
              reader.pos == old(reader.pos) + o.request.bodyConsumed && Took(request, handler, o.request.bodyConsumed)
    ensures IsChunked(request) ==> reader.pos == old(reader.pos) && !o.hijacked
    ensures reader.quiet && IsServed(request, handler, |reader.input| - old(reader.pos)) ==> o.ok && !o.hijacked
  {
    if IsChunked(request) {
      return Outcome(true, false, request);
    }
    var fails := reader.MayFail();
    if fails {
      return Outcome(false, false, request);
    }
    match handler {
      case Ignores => o := Outcome(true, false, request);
      case Reads(max) =>
        var body, after := reader.ReadBody(request, max);
        o := Outcome(body.Ok?, false, after);
      case Streams =>
        var size, after, sunk := reader.StreamBody(request);
        o := Outcome(size.Ok?, false, after);
      case TakesOver => o := Outcome(true, true, request);
    }
  }

  /** Discards what the handler left of the body, and says whether the connection goes on. `start`
      is where the body began. */
  method Discard(reader: Reader, m: Message, handler: Handler, request: Request, ghost rest: string, ghost start: nat)
    returns (goesOn: bool)
    requires reader.Valid() && start <= |reader.input| && m.head <= rest && reader.input[start..] == rest[|m.head|..]
    requires request == m.request.(bodyConsumed := request.bodyConsumed) && reader.pos == start + request.bodyConsumed
    requires Took(m.request, handler, request.bodyConsumed)
    modifies reader
    ensures reader.Valid() && old(reader.pos) <= reader.pos
    ensures goesOn ==> reader.Rest() == Skip(rest, m) && GoesOn(rest, m, handler)
    ensures reader.quiet && GoesOn(rest, m, handler) ==> goesOn
  {
    BehindBody(reader.input, start, rest, m);
    hide Skip;
    var drained := reader.DrainBody(request);
    goesOn := drained && m.request.keepAlive;
  }

  lemma BehindBody(input: string, start: nat, rest: string, m: Message)
    requires start <= |input| && m.head <= rest && input[start..] == rest[|m.head|..]
    ensures |input| - start == |rest| - |m.head|
    ensures input[Min(start + m.request.contentLength, |input|)..] == Skip(rest, m)
  {
    var n := m.request.contentLength;
    assert |input[start..]| == |rest| - |m.head|;
    if start + n <= |input| {
      assert input[start + n..] == input[start..][n..] == rest[|m.head|..][n..] == rest[|m.head| + n..];
    }
  }

  /** Serves one request that was just read and says whether the connection goes on. */
  method Serve(reader: Reader, m: Message, handler: Handler, ghost rest: string) returns (goesOn: bool)
    requires reader.Valid() && m.request.bodyConsumed == 0
    requires m.head <= rest && reader.Rest() == rest[|m.head|..]
    modifies reader
    ensures reader.Valid() && old(reader.pos) <= reader.pos
    ensures goesOn ==> reader.Rest() == Skip(rest, m) && GoesOn(rest, m, handler)
    ensures reader.quiet && GoesOn(rest, m, handler) ==> goesOn
  {
    hide Skip;
    hide IsServed;
    hide Took;
    ghost var start := reader.pos;
    BehindBody(reader.input, start, rest, m);
    var o := Route(reader, m.request, handler);
    if o.hijacked {
      return false;
    }
    if !o.ok {
      return false;
    }
    var fails := reader.MayFail();
    if fails {
      return false;              // the response could not be finished
    }
    goesOn := Discard(reader, m, handler, o.request, rest, start);
  }

  /** `before` are the messages that were dispatched so far, and `rest` is just behind them. */
  ghost predicate UpTo(input: string, parse: Parser, before: seq<Message>, rest: string) {
    rest == After(input, |before|, parse) && before + Messages(rest, parse) == Messages(input, parse)
  }

  ghost predicate AreFirst(input: string, parse: Parser, dispatched: seq<Message>) {
    dispatched <= Messages(input, parse)
  }

  /** Each head began where the messages before it end. */
  ghost predicate AreStarts(input: string, parse: Parser, starts: seq<nat>) {
    forall i :: 0 <= i < |starts| ==> starts[i] <= |input| && input[starts[i]..] == After(input, i, parse)
  }

  /** Which handler the i-th request goes to. */
  type Handlers = nat -> Handler

  /** The connection went on behind each of the first n requests. */
  ghost predicate WentOn(input: string, parse: Parser, handlers: Handlers, n: nat) {
    n <= |Messages(input, parse)|
    && forall i :: 0 <= i < n ==> GoesOn(After(input, i, parse), Messages(input, parse)[i], handlers(i))
  }

  /** These are all requests, or the connection does not go on behind the last of them. */
  ghost predicate AreAll(input: string, parse: Parser, handlers: Handlers, dispatched: seq<Message>) {
    var n := |dispatched|;
    || dispatched == Messages(input, parse)
    || (n > 0 && !GoesOn(After(input, n - 1, parse), dispatched[n - 1], handlers(n - 1)))
  }

  function Taken(served: Option<Message>): seq<Message> {
    match served case Some(m) => [m] case None => []
  }

  /** One round of the keep-alive loop: the next request is read, and served if there is one. */
  method ServeNext(reader: Reader, parse: Parser, handlers: Handlers, before: seq<Message>)
    returns (served: Option<Message>, goesOn: bool)
    requires reader.Valid() && UpTo(reader.input, parse, before, reader.Rest())
    requires forall head :: parse(head).Ok? ==> parse(head).value.bodyConsumed == 0
    requires WentOn(reader.input, parse, handlers, |before|)
    modifies reader
    ensures reader.Valid() && old(reader.pos) <= reader.pos && (goesOn ==> served.Some? && old(reader.pos) < reader.pos)
    ensures AreFirst(reader.input, parse, before + Taken(served))
    ensures goesOn ==> UpTo(reader.input, parse, before + Taken(served), reader.Rest())
    ensures goesOn ==> WentOn(reader.input, parse, handlers, |before| + 1)
    ensures reader.quiet && !goesOn ==> AreAll(reader.input, parse, handlers, before + Taken(served))
  {
    hide Messages;
    hide Skip;
    hide After;
    hide GoesOn;
    hide WentOn;
    hide AreAll;
    ghost var rest := reader.Rest();
    var got := reader.ReadRequest(parse);
    if got.Err? || got.value.None? {
      assert before + [] == before;
      EndOfRequests(reader.input, parse, handlers, before, rest, reader.quiet);
      return None, false;
    }
    var m := got.value.value;
    Dispatched(reader.input, parse, before, rest, m);
    goesOn := Serve(reader, m, handlers(|before|), rest);
    OneMoreServed(reader.input, parse, handlers, before, rest, m);
    served := Some(m);
  }

  lemma NothingMore(rest: string, parse: Parser)
    requires First(rest, parse) == None || rest == ""
    ensures Messages(rest, parse) == []
  {
  }

  /** The loop ends: nothing can be read any more. Without a failure there is nothing to read. */
  lemma EndOfRequests(input: string, parse: Parser, handlers: Handlers, before: seq<Message>, rest: string, quiet: bool)
    requires UpTo(input, parse, before, rest) && WentOn(input, parse, handlers, |before|)
    requires quiet ==> First(rest, parse) == None || rest == ""
    ensures AreFirst(input, parse, before) && (before != [] ==> WentOn(input, parse, handlers, |before| - 1))
    ensures quiet ==> AreAll(input, parse, handlers, before)
  {
    hide First;
    hide After;
    hide GoesOn;
    if quiet {
      NothingMore(rest, parse);
      assert before + [] == before;
    }
    hide Messages;
  }

  /** The keep-alive loop. `dispatched` are the requests that were routed, `starts` where each of
      their heads began: just behind the message before, or at the end of the stream. If nothing
      fails, they are all of them up to the first behind which the connection does not go on. */
  method HandleConnection(reader: Reader, parse: Parser, handlers: Handlers)
    returns (dispatched: seq<Message>, starts: seq<nat>)
    requires reader.Valid() && reader.pos == 0
    requires forall head :: parse(head).Ok? ==> parse(head).value.bodyConsumed == 0
    modifies reader
    ensures AreFirst(reader.input, parse, dispatched)
    ensures |starts| == |dispatched| && AreStarts(reader.input, parse, starts)
    ensures dispatched != [] ==> WentOn(reader.input, parse, handlers, |dispatched| - 1)
    ensures reader.quiet ==> AreAll(reader.input, parse, handlers, dispatched)
  {
    StartOfStream(reader.input, parse);
    NoneYet(reader.input, parse, handlers);
    hide UpTo;
    hide AreFirst;
    hide AreStarts;
    hide WentOn;
    hide AreAll;
    dispatched, starts := [], [];
    while true
      invariant reader.Valid() && |starts| == |dispatched|
      invariant AreFirst(reader.input, parse, dispatched) && AreStarts(reader.input, parse, starts)
      invariant UpTo(reader.input, parse, dispatched, reader.Rest())
      invariant WentOn(reader.input, parse, handlers, |dispatched|)
      decreases |reader.input| - reader.pos
    {
      OneMoreStart(reader.input, parse, dispatched, reader.pos, starts);
      WentOnBefore(reader.input, parse, handlers, |dispatched|);
      var start := reader.pos;
      var served, goesOn := ServeNext(reader, parse, handlers, dispatched);
      dispatched := dispatched + Taken(served);
      if served.Some? {
        starts := starts + [start];
      }
      if !goesOn {
        return;
      }
    }
  }

  lemma WentOnBefore(input: string, parse: Parser, handlers: Handlers, n: nat)
    requires WentOn(input, parse, handlers, n)
    ensures forall k: nat :: k <= n ==> WentOn(input, parse, handlers, k)
  {
    hide GoesOn;
    hide Messages;
    hide After;
  }

  /** If the connection goes on behind every message, all of them are dispatched. */
  lemma EveryoneIsServed(input: string, parse: Parser, handlers: Handlers, dispatched: seq<Message>)
    requires AreFirst(input, parse, dispatched) && AreAll(input, parse, handlers, dispatched)
    requires WentOn(input, parse, handlers, |Messages(input, parse)|)
    ensures dispatched == Messages(input, parse) && WentOn(input, parse, handlers, |dispatched|)
  {
    hide Messages;
    hide After;
    hide GoesOn;
    var n := |dispatched|;
    if n > 0 {
      assert dispatched[n - 1] == Messages(input, parse)[n - 1];
    }
  }

  lemma NoneYet(input: string, parse: Parser, handlers: Handlers)
    ensures WentOn(input, parse, handlers, 0)
  {
  }

  lemma OneMoreServed(input: string, parse: Parser, handlers: Handlers, before: seq<Message>, rest: string, m: Message)
    requires UpTo(input, parse, before, rest) && AreFirst(input, parse, before + [m])
    requires WentOn(input, parse, handlers, |before|)
    ensures GoesOn(rest, m, handlers(|before|)) ==> WentOn(input, parse, handlers, |before| + 1)
    ensures !GoesOn(rest, m, handlers(|before|)) ==>
              AreAll(input, parse, handlers, before + [m]) && !WentOn(input, parse, handlers, |before| + 1)
  {
    hide Messages;
    hide After;
    hide GoesOn;
    assert m == Messages(input, parse)[|before|];
  }

  lemma OneMoreStart(input: string, parse: Parser, before: seq<Message>, pos: nat, starts: seq<nat>)
    requires pos <= |input| && UpTo(input, parse, before, input[pos..])
    requires |starts| == |before| && AreStarts(input, parse, starts)
    ensures AreStarts(input, parse, starts + [pos])
  {
  }

  lemma OneMessage(s: string, m: Message, parse: Parser)
    requires First(s, parse) == Some(m)
    ensures Messages(s, parse) == [m] + Messages(Skip(s, m), parse)
    ensures parse(m.head) == Ok(m.request)
  {
  }

  /** One more request dispatched: it is the next message, and the ones behind it follow. */
  lemma Dispatched(input: string, parse: Parser, before: seq<Message>, rest: string, m: Message)
    requires before + Messages(rest, parse) == Messages(input, parse) && rest == After(input, |before|, parse)
    requires First(rest, parse) == Some(m)
    ensures m.head <= rest && parse(m.head) == Ok(m.request)
    ensures (before + [m]) + Messages(Skip(rest, m), parse) == Messages(input, parse)
    ensures Skip(rest, m) == After(input, |before| + 1, parse)
  {
    hide Skip;
    OneMessage(rest, m, parse);
    AfterOne(input, |before|, m, parse);
    Regroup(before, [m], Messages(Skip(rest, m), parse));
  }

  lemma AfterOne(input: string, n: nat, m: Message, parse: Parser)
    requires First(After(input, n, parse), parse) == Some(m)
    ensures After(input, n + 1, parse) == Skip(After(input, n, parse), m)
  {
  }

  lemma StartOfStream(input: string, parse: Parser)
    ensures UpTo(input, parse, [], input[0..]) && AreFirst(input, parse, []) && AreStarts(input, parse, [])
  {
    assert input[0..] == input && [] + Messages(input, parse) == Messages(input, parse);
  }
}
