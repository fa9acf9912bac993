/** How RFC 9112 cuts a connection's bytes into requests, chunked bodies included, and when the
    keep-alive loop cuts them in the same way (src/main.rs, the 411 answer in `route`). */
module Rfc {
  import opened Wrappers
  import opened Text
  import opened Numbers
  import opened Http
  import opened Framing
  import opened FramingFacts
  import Replies

  // ---- section 7.1: chunked bodies -------------------------------------------------------

  /** How many hexadecimal digits a line begins with. */
  function HexRun(line: string): (n: nat)
    ensures n <= |line| && (n < |line| ==> !IsDigit(line[n], 16))
  {
    if line != "" && IsDigit(line[0], 16) then 1 + HexRun(line[1..]) else 0
  }

  /** A chunk's first line: its size, and extensions behind a semicolon. */
  function ChunkSize(line: string): Option<nat> {
    var k := HexRun(line);
    var extension := TrimStart(line[k..]);
    if line[k..] != "" && (extension == "" || extension[0] != ';') then None else Read(line[..k], 16)
  }

  /** What follows the trailer fields and the empty line behind them. */
  function BehindTrailers(s: string): (r: Option<string>)
    ensures r.Some? ==> |r.value| < |s|
    decreases |s|
  {
    match Find(s, CRLF)
    case None => None
    case Some(i) =>
      if i == 0 then Some(s[2..])
      else if ParseField(s[..i]).Ok? then BehindTrailers(s[i + 2..])
      else None
  }

  /** What follows a chunked body; nothing, if s is not one. */
  function BehindChunks(s: string): (r: Option<string>)
    ensures r.Some? ==> |r.value| < |s|
    decreases |s|
  {
    match Find(s, CRLF)
    case None => None
    case Some(i) =>
      var rest := s[i + 2..];
      match ChunkSize(s[..i])
      case None => None
      case Some(n) =>
        if n == 0 then BehindTrailers(rest)
        else if !At(rest, CRLF, n) then None
        else BehindChunks(rest[n + 2..])
  }

  // ---- section 6.3: message bodies -------------------------------------------------------

  /** The last transfer coding is chunked. */
  predicate IsChunkedLast(r: Request)
    requires IsChunked(r)
  {
    var codings := Split(r.headers["transfer-encoding"], ",");
    ToLower(Trim(codings[|codings| - 1])) == "chunked"
  }

  /** What follows a request: its length decides, or its chunks; without an end to the body
      nothing does. */
  function Behind(s: string, m: Message): (r: Option<string>)
    requires m.head <= s
    ensures r.Some? ==> |r.value| <= |s| - |m.head|
  {
    if !IsChunked(m.request) then Some(Skip(s, m))
    else if IsChunkedLast(m.request) then BehindChunks(s[|m.head|..])
    else None
  }

  /** The requests of a stream. */
  function Requests(s: string, parse: Parser): seq<Message>
    decreases |s|
  {
    match First(s, parse)
    case None => []
    case Some(m) =>
      match Behind(s, m)
      case None => [m]
      case Some(rest) => [m] + Requests(rest, parse)
  }

  ghost predicate ChunkedOnlyAtTheEnd(messages: seq<Message>) {
    forall i :: 0 <= i < |messages| - 1 ==> !IsChunked(messages[i].request)
  }

  /** Behind the first head with Transfer-Encoding there is no complete chunked body, but another
      acceptable head. */
  predicate HeadInsteadOfChunks(s: string, parse: Parser)
    decreases |s|
  {
    match First(s, parse)
    case None => false
    case Some(m) =>
      if IsChunked(m.request) then Behind(s, m).None? && First(s[|m.head|..], parse).Some?
      else HeadInsteadOfChunks(Skip(s, m), parse)
  }

  // ---- a chunked body is no head ---------------------------------------------------------

  lemma ChunkLineIsNoRequestLine(line: string)
    requires ChunkSize(line).Some?
    ensures ParseRequestLine(line).Err?
  {
    hide Read;
    if ParseRequestLine(line).Ok? {
      var parts := Split(line, " ");
      var i := Find(line, " ").value;
      var rest := line[i + 1..];
      CharAt(line, ' ', i);
      assert parts[0] == line[..i] && parts[1..] == Split(rest, " ");
      TargetStandsFirst(rest, parts[1]);
      OnlyLettersBefore(line, i);
    }
  }

  lemma TargetStandsFirst(rest: string, target: string)
    requires target == Split(rest, " ")[0] && IsTarget(target)
    ensures rest != "" && rest[0] == '/'
  {
  }

  lemma OnlyLettersBefore(line: string, i: nat)
    requires i + 1 < |line| && line[i] == ' ' && line[i + 1] == '/' && IsMethod(line[..i])
    ensures ChunkSize(line) == None
  {
    hide Read;
    var k := HexRun(line);
    HexRunEnds(line, i);
    hide HexRun;
    if k < i {
      assert IsAlpha(line[..i][k]);
      hide IsMethod;
      assert TrimStart(line[k..]) == line[k..];
    } else {
      hide IsMethod;
      SlashBehindBlank(line, i);
    }
  }

  lemma SlashBehindBlank(line: string, i: nat)
    requires i + 1 < |line| && line[i] == ' ' && line[i + 1] == '/'
    ensures TrimStart(line[i..]) == line[i + 1..]
  {
    assert line[i..][1..] == line[i + 1..];
  }

  lemma {:induction false} HexRunEnds(line: string, i: nat)
    requires i < |line| && !IsDigit(line[i], 16)
    ensures HexRun(line) <= i
    decreases |line|
  {
    if i > 0 {
      HexRunEnds(line[1..], i - 1);
    }
  }

  lemma TextBeforeBlank(s: string, i: nat)
    requires Find(s, BLANK) == Some(i)
    ensures TrimBlank(s[..i + 4]) == s[..i]
  {
    var text := s[..i];
    assert s[..i + 4][i..] == BLANK && s[..i + 4][..i] == text;
    if i >= 4 && text[i - 4..] == BLANK {
      assert s[i - 4..i] == text[i - 4..];
      assert At(s, BLANK, i - 4);
    }
  }

  /** The first line of a head is the first line of the stream. */
  lemma FirstLine(s: string, i: nat, j: nat)
    requires Find(s, BLANK) == Some(i) && Find(s, CRLF) == Some(j)
    ensures HeadLines(s[..i + 4])[0] == s[..j]
  {
    var text := s[..i];
    TextBeforeBlank(s, i);
    BlankAt(s, i);
    CrlfAt(s, i);
    CrlfAt(s, j);
    assert j <= i;
    forall k: nat ensures At(text, CRLF, k) <==> At(s, CRLF, k) && k + 2 <= i {
      if k + 2 <= i { PrefixAt(text, s, CRLF, k); }
    }
    if j < i {
      FoundAt(text, CRLF, j);
      assert text[..j] == s[..j];
    }
  }

  /** A complete chunked body never begins with a head that the parser accepts. */
  lemma ChunksAreNoHead(s: string, lossy: Lossy)
    requires BehindChunks(s).Some?
    ensures First(s, HeadParser(lossy)) == None
  {
    var found := Find(s, BLANK);
    if found.Some? {
      var i, j := found.value, Find(s, CRLF).value;
      FirstLine(s, i, j);
      ChunkLineIsNoRequestLine(s[..j]);
      BadLineIsRefused(s[..i + 4], lossy);
    }
  }

  lemma BadLineIsRefused(head: string, lossy: Lossy)
    requires ParseRequestLine(HeadLines(head)[0]).Err?
    ensures ParseHead(head, lossy).Err?
  {
  }

  /** What the loop's agreement with RFC 9112 takes from the parser. */
  ghost predicate IsStrict(parse: Parser) {
    && (forall s :: BehindChunks(s).Some? ==> First(s, parse) == None)
    && (forall head :: parse(head).Ok? && IsChunked(parse(head).value) ==> parse(head).value.contentLength == 0)
  }

  lemma HeadParserIsStrict(lossy: Lossy)
    ensures IsStrict(HeadParser(lossy))
  {
    forall s | BehindChunks(s).Some? ensures First(s, HeadParser(lossy)) == None {
      ChunksAreNoHead(s, lossy);
    }
    forall head | ParseHead(head, lossy).Ok? && IsChunked(ParseHead(head, lossy).value)
      ensures ParseHead(head, lossy).value.contentLength == 0 {
      ChunkedHasNoLength(head, lossy);
    }
  }

  lemma ChunkedHasNoLength(head: string, lossy: Lossy)
    requires ParseHead(head, lossy).Ok? && IsChunked(ParseHead(head, lossy).value)
    ensures ParseHead(head, lossy).value.contentLength == 0
  {
    hide ParseFields;
    hide ParseRequestLine;
    hide Params;
    hide Read;
  }

  // ---- the loop and the RFC --------------------------------------------------------------

  /** The loop agrees with RFC 9112 as far as a request without Transfer-Encoding goes. */
  lemma LengthStep(s: string, m: Message, parse: Parser)
    requires First(s, parse) == Some(m) && !IsChunked(m.request)
    ensures Messages(s, parse) == [m] + Messages(Skip(s, m), parse)
    ensures Requests(s, parse) == [m] + Requests(Skip(s, m), parse)
    ensures ChunkedOnlyAtTheEnd(Requests(s, parse)) <==> ChunkedOnlyAtTheEnd(Requests(Skip(s, m), parse))
    ensures HeadInsteadOfChunks(s, parse) <==> HeadInsteadOfChunks(Skip(s, m), parse)
  {
    OneMessage(s, m, parse);
    OneMoreInFront(m, Requests(Skip(s, m), parse));
  }

  lemma OneMoreInFront(m: Message, later: seq<Message>)
    requires !IsChunked(m.request)
    ensures ChunkedOnlyAtTheEnd([m] + later) <==> ChunkedOnlyAtTheEnd(later)
  {
    forall i | 0 <= i < |later| ensures ([m] + later)[i + 1] == later[i] {
    }
  }

  /** Behind a head with Transfer-Encoding the loop goes on at once. */
  lemma ChunkedStep(s: string, m: Message, parse: Parser)
    requires IsStrict(parse) && First(s, parse) == Some(m) && IsChunked(m.request)
    ensures Messages(s, parse) == [m] + Messages(s[|m.head|..], parse)
  {
    hide BehindChunks;
    OneMessage(s, m, parse);
    assert parse(m.head).value == m.request;
    assert Skip(s, m) == s[|m.head|..];
  }

  lemma ChunksHaveNoMessages(s: string, parse: Parser)
    requires IsStrict(parse) && BehindChunks(s).Some?
    ensures Messages(s, parse) == []
  {
    hide BehindChunks;
    assert First(s, parse) == None;
  }

  lemma NoFirstNoMessages(s: string, parse: Parser)
    ensures First(s, parse) == None <==> Messages(s, parse) == []
  {
  }

  lemma HeadCheckedBehind(s: string, m: Message, parse: Parser)
    requires First(s, parse) == Some(m) && IsChunked(m.request)
    ensures HeadInsteadOfChunks(s, parse) <==> Behind(s, m).None? && First(s[|m.head|..], parse).Some?
  {
    hide Behind;
  }

  lemma HeadEndsNoChunks(s: string, m: Message, parse: Parser)
    requires IsStrict(parse) && m.head <= s && IsChunked(m.request) && First(s[|m.head|..], parse).Some?
    ensures Behind(s, m).None?
  {
    hide BehindChunks;
    hide First;
  }

  /** A refused head with a complete chunked body: the loop goes no further, since it takes the
      chunks for a head and finds it bad. */
  lemma ChunksEndTheLoop(s: string, m: Message, parse: Parser)
    requires IsStrict(parse) && First(s, parse) == Some(m) && IsChunked(m.request) && Behind(s, m).Some?
    ensures Messages(s, parse) == [m] && !HeadInsteadOfChunks(s, parse)
    ensures Requests(s, parse) == [m] + Requests(Behind(s, m).value, parse)
  {
    hide IsStrict;
    hide BehindChunks;
    hide Messages;
    hide First;
    ChunkedStep(s, m, parse);
    ChunksHaveNoMessages(s[|m.head|..], parse);
    HeadCheckedBehind(s, m, parse);
  }

  /** A refused head without a complete chunked body: RFC 9112 has no further request, the loop
      takes one if a head follows. */
  lemma NoChunksStep(s: string, m: Message, parse: Parser)
    requires IsStrict(parse) && First(s, parse) == Some(m) && IsChunked(m.request) && Behind(s, m).None?
    ensures Requests(s, parse) == [m] && Messages(s, parse) == [m] + Messages(s[|m.head|..], parse)
    ensures HeadInsteadOfChunks(s, parse) <==> Messages(s[|m.head|..], parse) != []
  {
    hide IsStrict;
    hide Behind;
    hide Messages;
    hide First;
    ChunkedStep(s, m, parse);
    NoFirstNoMessages(s[|m.head|..], parse);
    HeadCheckedBehind(s, m, parse);
  }

  /** For every stream: the loop serves no request that RFC 9112 does not see if and only if no
      head stands where a chunked body should; it misses none if and only if Transfer-Encoding
      comes with the last request only; and so it serves exactly the requests of the stream if and
      only if both hold. */
  lemma {:induction false} Agreement(s: string, parse: Parser)
    requires IsStrict(parse)
    ensures Messages(s, parse) <= Requests(s, parse) <==> !HeadInsteadOfChunks(s, parse)
    ensures Requests(s, parse) <= Messages(s, parse) <==> ChunkedOnlyAtTheEnd(Requests(s, parse))
    ensures Messages(s, parse) == Requests(s, parse)
       <==> !HeadInsteadOfChunks(s, parse) && ChunkedOnlyAtTheEnd(Requests(s, parse))
    decreases |s|
  {
    var first := First(s, parse);
    if first.Some? {
      var m := first.value;
      if !IsChunked(m.request) {
        LengthStep(s, m, parse);
        Agreement(Skip(s, m), parse);
        SameFront(m, Messages(Skip(s, m), parse), Requests(Skip(s, m), parse));
        SameFront(m, Requests(Skip(s, m), parse), Messages(Skip(s, m), parse));
      } else if Behind(s, m).Some? {
        ChunksEndTheLoop(s, m, parse);
        assert Requests(s, parse)[0] == m;
      } else {
        NoChunksStep(s, m, parse);
      }
    }
  }

  lemma SameFront(m: Message, a: seq<Message>, b: seq<Message>)
    ensures [m] + a <= [m] + b <==> a <= b
    ensures [m] + a == [m] + b <==> a == b
  {
    assert ([m] + a)[1..] == a && ([m] + b)[1..] == b;
  }

  /** So it is for the server's parser. */
  lemma AgreesUnlessChunked(s: string, lossy: Lossy)
    ensures var loop, rfc := Messages(s, HeadParser(lossy)), Requests(s, HeadParser(lossy));
      && (loop <= rfc <==> !HeadInsteadOfChunks(s, HeadParser(lossy)))
      && (rfc <= loop <==> ChunkedOnlyAtTheEnd(rfc))
      && (loop == rfc <==> !HeadInsteadOfChunks(s, HeadParser(lossy)) && ChunkedOnlyAtTheEnd(rfc))
  {
    hide *;
    HeadParserIsStrict(lossy);
    Agreement(s, HeadParser(lossy));
  }

  /** Where every chunked body is complete the loop never serves anything else. */
  ghost predicate BodiesEnd(s: string, parse: Parser)
    decreases |s|
  {
    match First(s, parse)
    case None => true
    case Some(m) => Behind(s, m).Some? && BodiesEnd(Behind(s, m).value, parse)
  }

  lemma {:induction false} CompleteBodiesAreNotMistaken(s: string, parse: Parser)
    requires BodiesEnd(s, parse)
    ensures !HeadInsteadOfChunks(s, parse)
    decreases |s|
  {
    var first := First(s, parse);
    if first.Some? && !IsChunked(first.value.request) {
      CompleteBodiesAreNotMistaken(Skip(s, first.value), parse);
    }
  }

  /** On a stream whose chunked bodies are complete the loop serves the requests up to the first one
      with Transfer-Encoding, and all of them if and only if that is the last. */
  lemma CompleteBodies(s: string, lossy: Lossy)
    requires BodiesEnd(s, HeadParser(lossy))
    ensures var loop, rfc := Messages(s, HeadParser(lossy)), Requests(s, HeadParser(lossy));
      loop <= rfc && (loop == rfc <==> ChunkedOnlyAtTheEnd(rfc))
  {
    hide *;
    CompleteBodiesAreNotMistaken(s, HeadParser(lossy));
    AgreesUnlessChunked(s, lossy);
  }

  /** Two heads in a row, the first with Transfer-Encoding: the loop takes the second for a
      request of its own, RFC 9112 does not. */
  lemma ChunksAreNotSkipped(m: Message, next: Message, parse: Parser)
    requires IsStrict(parse) && IsChunked(m.request)
    requires IsHead(m.head, |m.head|) && parse(m.head) == Ok(m.request)
    requires IsHead(next.head, |next.head|) && parse(next.head) == Ok(next.request)
    ensures var s := m.head + next.head;
      && Requests(s, parse) == [m]
      && [m, next] <= Messages(s, parse)
  {
    hide Behind;
    hide First;
    hide Requests;
    hide Messages;
    hide IsStrict;
    hide IsHead;
    var s := m.head + next.head;
    FirstOfMessage(m, next.head, parse);
    FirstOfMessage(next, "", parse);
    assert s[|m.head|..] == next.head == next.head + "";
    HeadEndsNoChunks(s, m, parse);
    NoChunksStep(s, m, parse);
    OneMessage(next.head, next, parse);
  }

  // ---- the client of `Replies` reads chunks in the same way ------------------------------

  lemma {:induction false} AllHex(line: string)
    requires Read(line, 16).Some?
    ensures forall i :: 0 <= i < |line| ==> IsDigit(line[i], 16)
  {
    if |line| > 1 {
      AllHex(line[..|line| - 1]);
    }
  }

  lemma {:induction false} RunOfAll(line: string)
    requires forall i :: 0 <= i < |line| ==> IsDigit(line[i], 16)
    ensures HexRun(line) == |line|
  {
    if line != "" {
      RunOfAll(line[1..]);
    }
  }

  lemma PlainSize(line: string)
    requires Read(line, 16).Some?
    ensures ChunkSize(line) == Read(line, 16)
  {
    AllHex(line);
    RunOfAll(line);
    assert line[..|line|] == line && line[|line|..] == "";
  }

  lemma NoTrailers(s: string)
    requires At(s, CRLF, 0)
    ensures BehindTrailers(s) == Some(s[2..])
  {
    hide ParseField;
    FoundAt(s, CRLF, 0);
  }

  /** A body that a client takes for complete ends here in the same place. */
  lemma {:induction false} ClientAgrees(s: string)
    requires Replies.ReadChunks(s).Some?
    ensures BehindChunks(s) == Some(Replies.ReadChunks(s).value.1)
    decreases |s|
  {
    hide Read;
    hide ChunkSize;
    hide BehindTrailers;
    hide Find;
    var i := Find(s, CRLF).value;
    var rest := s[i + 2..];
    PlainSize(s[..i]);
    var n := Read(s[..i], 16).value;
    if n == 0 {
      NoTrailers(rest);
    } else {
      ClientAgrees(rest[n + 2..]);
    }
  }
}
