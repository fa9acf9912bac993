/** Responses are self-delimiting: the client gets back what the server wrote, response by
    response, and takes nothing for a response that is not complete. */
module RepliesProofs {
  import opened Wrappers
  import opened Text
  import opened Numbers
  import opened Http
  import opened Lines
  import opened Replies

  // ---- chunks ---------------------------------------------------------------------------

  lemma {:induction false} HexIsPlain(n: nat, b: nat)
    requires Base(b)
    ensures NoCrlf(Print(n, b)) && '\r' !in Print(n, b) && ' ' !in Print(n, b)
  {
    var s := Print(n, b);
    assert forall i :: 0 <= i < |s| ==> IsDigit(s[i], b);
  }

  /** Reading one chunk off. */
  lemma ChunkIsRead(data: string, rest: string)
    requires data != ""
    ensures var r := ReadChunks(rest);
      ReadChunks(ChunkText(data) + rest) == match r case None => None case Some((body, after)) => Some((data + body, after))
  {
    hide ReadChunks;
    hide Read;
    hide Print;
    var size := Print(|data|, 16);
    HexIsPlain(|data|, 16);
    ReadPrint(|data|, 16);
    var tail := data + CRLF + rest;
    assert ChunkText(data) + rest == size + CRLF + tail;
    FirstCrlf(size, tail);
    ChunkAhead(size, |data|, data, rest);
  }

  lemma ChunkAhead(size: string, n: nat, data: string, rest: string)
    requires n == |data| > 0 && Read(size, 16) == Some(n)
    requires Find(size + CRLF + (data + CRLF + rest), CRLF) == Some(|size|)
    ensures ReadChunks(size + CRLF + (data + CRLF + rest)) ==
      match ReadChunks(rest) case None => None case Some((body, after)) => Some((data + body, after))
  {
    var tail := data + CRLF + rest;
    var s := size + CRLF + tail;
    assert s[..|size|] == size && s[|size| + 2..] == tail;
    assert tail[n..n + 2] == CRLF && tail[n + 2..] == rest && tail[..n] == data;
  }

  lemma LastChunkIsRead(rest: string)
    ensures ReadChunks(LAST_CHUNK + rest) == Some(("", rest))
  {
    var s, tail := LAST_CHUNK + rest, CRLF + rest;
    assert s == "0" + CRLF + tail;
    FirstCrlf("0", tail);
    assert s[..1] == "0" && s[3..] == tail && tail[0..2] == CRLF && tail[2..] == rest;
    assert Read("0", 16) == Some(0);
  }

  lemma OneMoreChunk(data: string, later: string, body: string, rest: string)
    requires ReadChunks(later) == Some((body, rest))
    ensures ReadChunks(ChunkText(data) + later) == Some((data + body, rest))
  {
    if data == "" {
      assert "" + later == later && "" + body == body;
    } else {
      ChunkIsRead(data, later);
    }
  }

  lemma {:induction false} ChunksAreRead(chunks: seq<string>, rest: string)
    ensures ReadChunks(ChunksText(chunks) + (LAST_CHUNK + rest)) == Some((Concat(chunks), rest))
  {
    if chunks == [] {
      LastChunkIsRead(rest);
      assert "" + (LAST_CHUNK + rest) == LAST_CHUNK + rest;
    } else {
      var later := ChunksText(chunks[1..]);
      ChunksAreRead(chunks[1..], rest);
      OneMoreChunk(chunks[0], later + (LAST_CHUNK + rest), Concat(chunks[1..]), rest);
      Regroup(ChunkText(chunks[0]), later, LAST_CHUNK + rest);
    }
  }

  /** A proper prefix of s. */
  predicate Cut(p: string, s: string) {
    p <= s && p != s
  }

  lemma CutChunk(data: string, p: string)
    requires data != "" && Cut(p, ChunkText(data))
    ensures ReadChunks(p) == None
  {
    var size := Print(|data|, 16);
    HexIsPlain(|data|, 16);
    ReadPrint(|data|, 16);
    var s := size + CRLF + data + CRLF;
    if |p| < |size| + 2 {
      forall j: nat ensures !At(p, CRLF, j) {
        CrlfAt(p, j);
        if j + 2 <= |p| {
          assert p[j] == s[j] == size[j];
        }
      }
    } else {
      var tail := p[|size| + 2..];
      assert p == size + CRLF + tail;
      FirstCrlf(size, tail);
      assert p[..|size|] == size;
    }
  }

  lemma CutLastChunk(p: string)
    requires Cut(p, LAST_CHUNK)
    ensures ReadChunks(p) == None
  {
    if |p| < 3 {
      forall j: nat ensures !At(p, CRLF, j) {
        CrlfAt(p, j);
      }
    } else {
      var tail := p[3..];
      assert p == "0" + CRLF + tail;
      FirstCrlf("0", tail);
      assert p[..1] == "0";
      assert Read("0", 16) == Some(0);
    }
  }

  /** Until the last chunk is there, the body is not complete. */
  lemma {:induction false} CutChunks(chunks: seq<string>, p: string)
    requires Cut(p, ChunksText(chunks) + LAST_CHUNK)
    ensures ReadChunks(p) == None
    decreases |chunks|
  {
    hide ReadChunks;
    if chunks == [] {
      assert ChunksText(chunks) + LAST_CHUNK == LAST_CHUNK;
      CutLastChunk(p);
    } else {
      var one, later := ChunkText(chunks[0]), ChunksText(chunks[1..]) + LAST_CHUNK;
      assert ChunksText(chunks) + LAST_CHUNK == one + later;
      if chunks[0] == "" {
        assert one + later == later;
        CutChunks(chunks[1..], p);
      } else if |p| < |one| {
        assert p <= one;
        CutChunk(chunks[0], p);
      } else {
        var tail := p[|one|..];
        assert p == one + tail;
        assert tail <= later;
        CutChunks(chunks[1..], tail);
        ChunkIsRead(chunks[0], tail);
      }
    }
  }

  // ---- responses ------------------------------------------------------------------------

  function BodyText(body: Body): string {
    match body
    case Whole(bytes) => bytes
    case Chunks(chunks) => ChunksText(chunks) + LAST_CHUNK
  }

  /** The bytes of a response that belong to it for a client that sent this method, */
  function TextFor(r: Reply, verb: string): string {
    HeadOf(r) + if EndsAtHead(verb, r.status) then "" else BodyText(r.body)
  }

  /** and those that are one body too many. */
  function Surplus(r: Reply, verb: string): string {
    if EndsAtHead(verb, r.status) then BodyText(r.body) else ""
  }

  lemma TextAndSurplus(r: Reply, verb: string)
    ensures ReplyText(r) == TextFor(r, verb) + Surplus(r, verb)
    ensures Surplus(r, verb) == "" ==> ReplyText(r) == TextFor(r, verb)
    ensures |TextFor(r, verb)| >= 4
  {
    assert ReplyText(r) == HeadOf(r) + BodyText(r.body);
    assert forall s: string :: s + "" == s;
    assert |HeadOf(r)| >= 4;
    hide HeadOf;
    hide BodyText;
  }

  function Seen(r: Reply, verb: string): Received {
    Received(r.status, r.contentType, r.keepAlive, if EndsAtHead(verb, r.status) then "" else Content(r.body))
  }

  function FrameFor(r: Reply): Frame {
    Frame(r.status, r.contentType, r.keepAlive, if r.body.Whole? then Some(|r.body.bytes|) else None)
  }

  /** What a client must make of the head of r: this is all that is asked of it. */
  ghost predicate Understands(client: Client, r: Reply) {
    && Find(HeadOf(r), BLANK) == Some(|HeadOf(r)| - 4)
    && client(HeadOf(r)) == Some(FrameFor(r))
  }

  lemma BlankStays(head: string, tail: string)
    requires |head| >= 4 && Find(head, BLANK) == Some(|head| - 4)
    ensures Find(head + tail, BLANK) == Some(|head| - 4)
    ensures (head + tail)[..|head|] == head && (head + tail)[|head|..] == tail
  {
    var s := head + tail;
    forall j: nat | j < |head| - 4 ensures !At(s, BLANK, j) {
      assert s[j..j + 4] == head[j..j + 4];
      assert !At(head, BLANK, j);
    }
    assert s[|head| - 4..|head|] == head[|head| - 4..|head|];
    assert At(head, BLANK, |head| - 4);
    FoundAt(s, BLANK, |head| - 4);
  }

  lemma NoBlankYet(head: string, p: string)
    requires |head| >= 4 && Find(head, BLANK) == Some(|head| - 4) && Cut(p, head)
    ensures Find(p, BLANK) == None
  {
    forall j: nat ensures !At(p, BLANK, j) {
      if j + 4 <= |p| {
        assert p[j..j + 4] == head[j..j + 4];
        assert !At(head, BLANK, j);
      }
    }
  }

  /** Once the head is there, all depends on what follows it. */
  lemma HeadThenContent(r: Reply, tail: string, verb: string, client: Client)
    requires Understands(client, r)
    ensures ReadReply(HeadOf(r) + tail, verb, client) ==
      match ReadContent(tail, verb, FrameFor(r))
      case None => None
      case Some((content, after)) => Some((Received(r.status, r.contentType, r.keepAlive, content), after))
  {
    hide HeadOf;
    hide ReadContent;
    BlankStays(HeadOf(r), tail);
  }

  lemma ContentIsRead(r: Reply, rest: string, verb: string)
    ensures var body := if EndsAtHead(verb, r.status) then "" else BodyText(r.body);
      ReadContent(body + rest, verb, FrameFor(r)) == Some((Seen(r, verb).content, rest))
  {
    hide ReadChunks;
    if EndsAtHead(verb, r.status) {
      assert "" + rest == rest;
    } else {
      match r.body {
        case Whole(bytes) =>
          assert (bytes + rest)[..|bytes|] == bytes && (bytes + rest)[|bytes|..] == rest;
        case Chunks(chunks) =>
          ChunksAreRead(chunks, rest);
          Regroup(ChunksText(chunks), LAST_CHUNK, rest);
      }
    }
  }

  /** A complete response is read as what it says, and what follows it is left alone. */
  lemma ReplyIsRead(r: Reply, rest: string, verb: string, client: Client)
    requires Understands(client, r)
    ensures ReadReply(TextFor(r, verb) + rest, verb, client) == Some((Seen(r, verb), rest))
  {
    hide HeadOf;
    hide BodyText;
    hide ReadReply;
    hide ReadContent;
    hide Understands;
    var body := if EndsAtHead(verb, r.status) then "" else BodyText(r.body);
    Regroup(HeadOf(r), body, rest);
    HeadThenContent(r, body + rest, verb, client);
    ContentIsRead(r, rest, verb);
  }

  lemma CutBehind(head: string, rest: string, p: string)
    requires Cut(p, head + rest) && |p| >= |head|
    ensures p == head + p[|head|..] && Cut(p[|head|..], rest)
  {
    assert p[|head|..] <= rest;
    assert p == head + p[|head|..];
  }

  lemma CutContent(r: Reply, tail: string, verb: string)
    requires !EndsAtHead(verb, r.status) && Cut(tail, BodyText(r.body))
    ensures ReadContent(tail, verb, FrameFor(r)) == None
  {
    if r.body.Chunks? {
      hide ReadChunks;
      CutChunks(r.body.chunks, tail);
    }
  }

  /** A response of which the last byte is missing is not read at all. */
  lemma CutReplyIsNotRead(r: Reply, p: string, verb: string, client: Client)
    requires Understands(client, r) && Cut(p, TextFor(r, verb))
    ensures ReadReply(p, verb, client) == None
  {
    var body := if EndsAtHead(verb, r.status) then "" else BodyText(r.body);
    hide HeadOf;
    hide BodyText;
    hide ReadContent;
    if |p| < |HeadOf(r)| {
      assert p <= HeadOf(r);
      CutHeadIsNotRead(r, p, verb, client);
    } else {
      hide Understands;
      hide ReadReply;
      CutBehind(HeadOf(r), body, p);
      var tail := p[|HeadOf(r)|..];
      CutContent(r, tail, verb);
      HeadThenContent(r, tail, verb, client);
    }
  }

  lemma CutHeadIsNotRead(r: Reply, p: string, verb: string, client: Client)
    requires Understands(client, r) && Cut(p, HeadOf(r))
    ensures ReadReply(p, verb, client) == None
  {
    assert |HeadOf(r)| >= 4;
    hide HeadOf;
    hide ReadContent;
    NoBlankYet(HeadOf(r), p);
  }

  function Texts(replies: seq<Reply>): string {
    if replies == [] then "" else ReplyText(replies[0]) + Texts(replies[1..])
  }

  function SeenAll(replies: seq<Reply>, verbs: seq<string>): seq<Received> {
    seq(|replies|, i requires 0 <= i < |replies| => Seen(replies[i], VerbAt(verbs, i)))
  }

  ghost predicate UnderstandsAll(client: Client, replies: seq<Reply>) {
    forall r :: r in replies ==> Understands(client, r)
  }

  lemma OneMoreReply(r: Reply, later: string, verbs: seq<string>, client: Client)
    requires Understands(client, r)
    ensures var verb := VerbAt(verbs, 0);
      ReadAll(TextFor(r, verb) + later, verbs, client) == [Seen(r, verb)] + ReadAll(later, Later(verbs, 1), client)
  {
    hide Understands;
    hide ReadReply;
    hide TextFor;
    ReplyIsRead(r, later, VerbAt(verbs, 0), client);
  }

  lemma SeenOfMore(replies: seq<Reply>, verbs: seq<string>)
    requires replies != []
    ensures SeenAll(replies, verbs) == [Seen(replies[0], VerbAt(verbs, 0))] + SeenAll(replies[1..], Later(verbs, 1))
  {
    hide Seen;
    forall i | 0 <= i < |replies| - 1 ensures VerbAt(Later(verbs, 1), i) == VerbAt(verbs, i + 1) {
    }
  }

  /** The first response with a surplus. */
  function FirstSurplus(replies: seq<Reply>, verbs: seq<string>): (k: nat)
    ensures k <= |replies|
    ensures forall i :: 0 <= i < k ==> Surplus(replies[i], VerbAt(verbs, i)) == ""
    ensures k < |replies| ==> Surplus(replies[k], VerbAt(verbs, k)) != ""
  {
    if replies == [] then 0
    else if Surplus(replies[0], VerbAt(verbs, 0)) != "" then 0
    else
      var later := Later(verbs, 1);
      assert forall i: nat :: VerbAt(later, i) == VerbAt(verbs, i + 1);
      1 + FirstSurplus(replies[1..], later)
  }

  // ---- the heads ------------------------------------------------------------------------

  predicate IsDigits(s: string) {
    s != "" && forall i :: 0 <= i < |s| ==> '0' <= s[i] <= '9'
  }

  lemma PrintsDigits(n: nat)
    ensures IsDigits(Print(n, 10))
  {
    var s := Print(n, 10);
    forall i | 0 <= i < |s| ensures '0' <= s[i] <= '9' {
      assert IsDigit(s[i], 10);
    }
  }

  lemma DigitsArePlain(s: string)
    requires IsDigits(s)
    ensures IsContentType(s) && Plain(s) && ' ' !in s
  {
  }

  /** The header fields of a response. */
  function FieldsOf(contentType: string, keepAlive: bool, length: Option<nat>): seq<Field> {
    OtherFields(contentType, keepAlive) + FramingFields(length)
  }

  function OtherFields(contentType: string, keepAlive: bool): seq<Field> {
    [Field("content-type", contentType), Field("connection", ConnectionValue(keepAlive))]
  }

  function FramingFields(length: Option<nat>): seq<Field> {
    match length
    case Some(n) => [Field("content-length", Print(n, 10))]
    case None => [Field("transfer-encoding", "chunked"), Field("x-accel-buffering", "no")]
  }

  ghost predicate ReadAs(lines: seq<string>, fields: seq<Field>) {
    |lines| == |fields| && forall k :: 0 <= k < |lines| ==> IsFieldLine(lines[k], fields[k])
  }

  // A quantifier over one line keeps the parser out of proofs that do not look into it.
  ghost predicate IsFieldLine(line: string, f: Field) {
    Plain(line) && forall l :: l == line ==> ParseField(l) == Ok(f)
  }

  lemma FieldLineIsPlain(name: string, value: string)
    requires Plain(name) && IsFieldText(value) && IsAscii(value)
    ensures Plain(name + ": " + value)
  {
    var line := name + ": " + value;
    forall i | 0 <= i < |line| ensures line[i] != '\r' && line[i] != '\n' && line[i] < 0x80 as char {
      if i >= |name| + 2 {
        assert line[i] == value[i - |name| - 2] && IsFieldByte(line[i]);
      } else if i < |name| {
        assert line[i] == name[i];
      }
    }
  }

  predicate IsWord(s: string) {
    s != "" && forall i :: 0 <= i < |s| ==> IsAlpha(s[i]) || s[i] == '-'
  }

  lemma WordIsPlain(s: string)
    requires IsWord(s)
    ensures Plain(s) && IsToken(s) && IsContentType(s)
  {
  }

  lemma MediaTypeIsContentType(s: string)
    requires s != "" && forall i :: 0 <= i < |s| ==> 'a' <= s[i] <= 'z' || s[i] == '/' || s[i] == '-'
    ensures IsContentType(s)
  {
  }

  lemma FieldLine(name: string, lower: string, value: string)
    requires IsWord(name) && lower == ToLower(name) && IsContentType(value)
    ensures IsFieldLine(HeaderLine(name, value), Field(lower, value))
  {
    WordIsPlain(name);
    FieldIsRead(name, value, HeaderLine(name, value));
    FieldLineIsPlain(name, value);
  }

  function Put(before: Headers, fields: seq<Field>): Headers
    decreases |fields|
  {
    if fields == [] then before else Put(before[fields[0].name := fields[0].value], fields[1..])
  }

  ghost predicate AllNew(before: Headers, fields: seq<Field>) {
    && (forall i :: 0 <= i < |fields| ==> fields[i].name !in before)
    && (forall i, j :: 0 <= i < j < |fields| ==> fields[i].name != fields[j].name)
  }

  ghost predicate Gives(lines: seq<string>, count: nat, before: Headers, headers: Headers) {
    forall ls :: ls == lines ==> ParseFields(ls, count, before) == Ok(headers)
  }

  lemma OneField(lines: seq<string>, count: nat, before: Headers, f: Field, headers: Headers)
    requires lines != [] && IsFieldLine(lines[0], f) && count < MAX_HEADERS && f.name !in before
    requires Gives(lines[1..], count + 1, before[f.name := f.value], headers)
    ensures Gives(lines, count, before, headers)
  {
  }

  lemma NoField(count: nat, before: Headers)
    ensures Gives([], count, before, before)
  {
  }

  lemma TailIsRead(lines: seq<string>, fields: seq<Field>)
    requires ReadAs(lines, fields) && lines != []
    ensures IsFieldLine(lines[0], fields[0]) && ReadAs(lines[1..], fields[1..])
  {
  }

  lemma {:induction false} FieldsAreRead(lines: seq<string>, fields: seq<Field>, count: nat, before: Headers)
    requires ReadAs(lines, fields) && AllNew(before, fields) && count + |fields| <= MAX_HEADERS
    ensures Gives(lines, count, before, Put(before, fields))
    decreases |lines|
  {
    if lines == [] {
      NoField(count, before);
    } else {
      TailIsRead(lines, fields);
      TailIsNew(fields, before);
      var f, after := fields[0], Put(before, fields);
      FieldsAreRead(lines[1..], fields[1..], count + 1, before[f.name := f.value]);
      OneField(lines, count, before, f, after);
    }
  }

  lemma TailIsNew(fields: seq<Field>, before: Headers)
    requires fields != [] && AllNew(before, fields)
    ensures fields[0].name !in before && AllNew(before[fields[0].name := fields[0].value], fields[1..])
  {
  }

  lemma ChunkedLine()
    ensures IsFieldLine(HeaderLine("Transfer-Encoding", "chunked"), Field("transfer-encoding", "chunked"))
  {
    hide IsFieldLine;
    hide IsContentType;
    WordIsPlain("chunked");
    FieldLine("Transfer-Encoding", "transfer-encoding", "chunked");
  }

  lemma UnbufferedLine()
    ensures IsFieldLine(HeaderLine("X-Accel-Buffering", "no"), Field("x-accel-buffering", "no"))
  {
    hide IsFieldLine;
    hide IsContentType;
    WordIsPlain("no");
    FieldLine("X-Accel-Buffering", "x-accel-buffering", "no");
  }

  lemma LengthLine(n: nat)
    ensures IsFieldLine(HeaderLine("Content-Length", Print(n, 10)), Field("content-length", Print(n, 10)))
  {
    hide IsFieldLine;
    hide IsContentType;
    hide IsDigits;
    hide Print;
    PrintsDigits(n);
    DigitsArePlain(Print(n, 10));
    FieldLine("Content-Length", "content-length", Print(n, 10));
  }

  lemma FramingLinesAreRead(length: Option<nat>)
    ensures ReadAs(FramingLines(length), FramingFields(length))
  {
    match length {
      case Some(n) => LengthLine(n);
      case None =>
        ChunkedLine();
        UnbufferedLine();
    }
  }

  lemma TypeLine(contentType: string)
    requires IsContentType(contentType)
    ensures IsFieldLine(HeaderLine("Content-Type", contentType), Field("content-type", contentType))
  {
    hide IsFieldLine;
    hide IsContentType;
    FieldLine("Content-Type", "content-type", contentType);
  }

  lemma ConnectionLine(keepAlive: bool)
    ensures IsFieldLine(HeaderLine("Connection", ConnectionValue(keepAlive)), Field("connection", ConnectionValue(keepAlive)))
  {
    hide IsFieldLine;
    hide IsContentType;
    WordIsPlain(ConnectionValue(keepAlive));
    FieldLine("Connection", "connection", ConnectionValue(keepAlive));
  }

  lemma Both(a: seq<string>, b: seq<string>, f: seq<Field>, g: seq<Field>)
    requires ReadAs(a, f) && ReadAs(b, g)
    ensures ReadAs(a + b, f + g)
  {
    hide IsFieldLine;
  }

  lemma LinesAreRead(contentType: string, keepAlive: bool, length: Option<nat>)
    requires IsContentType(contentType)
    ensures ReadAs(OtherLines(contentType, keepAlive) + FramingLines(length), FieldsOf(contentType, keepAlive, length))
  {
    var lines, fields := OtherLines(contentType, keepAlive), OtherFields(contentType, keepAlive);
    assert ReadAs(lines, fields) by {
      TypeLine(contentType);
      ConnectionLine(keepAlive);
    }
    FramingLinesAreRead(length);
    Both(lines, FramingLines(length), fields, FramingFields(length));
  }

  lemma FieldsAreNew(contentType: string, keepAlive: bool, length: Option<nat>)
    ensures AllNew(map[], FieldsOf(contentType, keepAlive, length))
  {
  }

  lemma PrintedLengthIsRead(headers: Headers, n: nat)
    requires n < U64 && "content-length" in headers && headers["content-length"] == Print(n, 10)
    ensures ParseLength(headers) == Ok(n)
  {
    hide Print;
    ReadPrint(n, 10);
    PrintsDigits(n);
  }

  lemma OnlyCloseCloses(headers: Headers, keepAlive: bool)
    requires "connection" in headers && headers["connection"] == ConnectionValue(keepAlive)
    ensures StaysOpen(headers) == keepAlive
  {
    var value := ConnectionValue(keepAlive);
    NoChar(value, ',');
    assert Split(value, ",") == [value];
    hide Split;
    WordIsTrimmed(value);
    assert keepAlive ==> |ToLower(value)| == 10;
    assert !keepAlive ==> ToLower(value) == "close";
  }

  lemma WordIsTrimmed(s: string)
    requires s != "" && !IsBlank(s[0]) && !IsBlank(s[|s| - 1])
    ensures Trim(s) == s
  {
  }

  lemma FrameIsFound(status: nat, contentType: string, keepAlive: bool, length: Option<nat>)
    requires length.Some? ==> length.value < U64
    ensures FrameOf(status, Put(map[], FieldsOf(contentType, keepAlive, length))) == Some(Frame(status, contentType, keepAlive, length))
  {
    hide Print;
    hide ParseLength;
    hide StaysOpen;
    var others := map["content-type" := contentType]["connection" := ConnectionValue(keepAlive)];
    var fields := FieldsOf(contentType, keepAlive, length);
    assert fields[1..][1..] == FramingFields(length);
    assert Put(map[], fields) == Put(others, FramingFields(length));
    match length {
      case Some(n) =>
        var headers := others["content-length" := Print(n, 10)];
        assert FramingFields(length)[1..] == [];
        assert Put(others, FramingFields(length)) == headers;
        PrintedLengthIsRead(headers, n);
        OnlyCloseCloses(headers, keepAlive);
      case None =>
        var headers := others["transfer-encoding" := "chunked"]["x-accel-buffering" := "no"];
        var first, second := FramingFields(length)[0], FramingFields(length)[1];
        assert FramingFields(length)[1..] == [second];
        assert Put(others, FramingFields(length)) == Put(others[first.name := first.value], [second]);
        assert [second][1..] == [] && Put(headers, []) == headers;
        assert Put(others, FramingFields(length)) == headers;
        OnlyCloseCloses(headers, keepAlive);
    }
  }

  lemma StatusIsRead(status: nat)
    ensures ReadStatus(StatusLine(status)) == Some(status) && Plain(StatusLine(status))
  {
    hide Print;
    hide StatusText;
    var digits, text := Print(status, 10), StatusText(status);
    PrintsDigits(status);
    ReadPrint(status, 10);
    var rest := digits + " " + text;
    assert StatusLine(status) == "HTTP/1.1" + " " + rest;
    StatusLineIsSplit(digits, text);
    StatusTextIsQuiet(status);
    StatusLineIsPlain(digits, text);
  }

  lemma StatusLineIsSplit(digits: string, text: string)
    requires IsDigits(digits)
    ensures var parts := Split("HTTP/1.1" + " " + (digits + " " + text), " ");
      |parts| >= 2 && parts[0] == "HTTP/1.1" && parts[1] == digits
  {
    var rest := digits + " " + text;
    var line := "HTTP/1.1" + " " + rest;
    FirstChar("HTTP/1.1", ' ', rest);
    FirstChar(digits, ' ', text);
    assert line[..8] == "HTTP/1.1" && line[9..] == rest && rest[..|digits|] == digits;
  }

  predicate Quiet(s: string) {
    forall i :: 0 <= i < |s| ==> ' ' <= s[i] <= 'z'
  }

  lemma StatusTextIsQuiet(status: nat)
    ensures Quiet(StatusText(status))
  {
    hide StatusText;
    hide Quiet;
    if status < 405 {
      LowStatusTextIsQuiet(status);
    } else if status < 500 {
      MiddleStatusTextIsQuiet(status);
    } else {
      HighStatusTextIsQuiet(status);
    }
  }

  lemma LowStatusTextIsQuiet(status: nat)
    requires status < 405
    ensures Quiet(StatusText(status))
  {
  }

  lemma MiddleStatusTextIsQuiet(status: nat)
    requires 405 <= status < 500
    ensures Quiet(StatusText(status))
  {
    assert StatusText(status) in ["Method Not Allowed", "Request Timeout", "Conflict", "Length Required", "Unknown"] by {
      hide Quiet;
    }
    hide StatusText;
    assert Quiet("Method Not Allowed");
    assert Quiet("Request Timeout");
    assert Quiet("Length Required");
  }

  lemma HighStatusTextIsQuiet(status: nat)
    requires status >= 500
    ensures Quiet(StatusText(status))
  {
    assert StatusText(status) in ["Internal Server Error", "Service Unavailable", "HTTP Version Not Supported", "Unknown"] by {
      hide Quiet;
    }
    hide StatusText;
    assert Quiet("Internal Server Error");
    assert Quiet("HTTP Version Not Supported");
    assert Quiet("Service Unavailable");
    assert Quiet("Unknown");
  }

  lemma StatusLineIsPlain(digits: string, text: string)
    requires IsDigits(digits) && Quiet(text)
    ensures Plain("HTTP/1.1" + " " + (digits + " " + text))
  {
    var start := "HTTP/1.1" + " ";
    assert Quiet(start) && Quiet(digits) && Quiet(digits + " ");
    assert Quiet(start + (digits + " " + text));
  }

  /** How the lines of a response head are read. */
  lemma ReplyLinesAreRead(status: nat, contentType: string, keepAlive: bool, length: Option<nat>)
    requires IsContentType(contentType)
    ensures var lines := ReplyLines(status, contentType, keepAlive, length);
      && AllPlain(lines) && ReadStatus(lines[0]) == Some(status)
      && Gives(lines[1..], 0, map[], Put(map[], FieldsOf(contentType, keepAlive, length)))
  {
    hide IsFieldLine;
    hide Plain;
    hide ReadStatus;
    hide StatusLine;
    hide Put;
    var others, fields := OtherLines(contentType, keepAlive) + FramingLines(length), FieldsOf(contentType, keepAlive, length);
    StatusIsRead(status);
    LinesAreRead(contentType, keepAlive, length);
    FieldLinesArePlain(others, fields);
    assert ReplyLines(status, contentType, keepAlive, length) == [StatusLine(status)] + others;
    OneMorePlain(StatusLine(status), others);
    FieldsAreNew(contentType, keepAlive, length);
    FieldsAreRead(others, fields, 0, map[]);
  }

  /** The client understands every head the server writes: the head ends at its only blank line,
      and says the status, the content type and how the body is framed. */
  lemma HeadIsRead(status: nat, contentType: string, keepAlive: bool, length: Option<nat>)
    requires IsContentType(contentType) && (length.Some? ==> length.value < U64)
    ensures var head := ReplyHead(status, contentType, keepAlive, length);
      && Find(head, BLANK) == Some(|head| - 4)
      && ReadHead(head) == Some(Frame(status, contentType, keepAlive, length))
  {
    hide IsContentType;
    hide Plain;
    hide FrameOf;
    hide ReadStatus;
    hide ReplyLines;
    hide FieldsOf;
    hide Put;
    var lines := ReplyLines(status, contentType, keepAlive, length);
    ReplyLinesAreRead(status, contentType, keepAlive, length);
    PrintedLinesAreRead(lines);
    PlainHasNoCrlf(lines);
    OnlyBlankIsLast(lines);
    FrameIsFound(status, contentType, keepAlive, length);
  }

  lemma FieldLinesArePlain(lines: seq<string>, fields: seq<Field>)
    requires ReadAs(lines, fields)
    ensures AllPlain(lines)
  {
    forall line | line in lines ensures Plain(line) {
      var k :| 0 <= k < |lines| && lines[k] == line;
      assert IsFieldLine(lines[k], fields[k]);
    }
  }

  /** A response the server can write: its content type is proper, its length fits 64 bits. */
  predicate IsReply(r: Reply) {
    IsContentType(r.contentType) && (r.body.Whole? ==> |r.body.bytes| < U64)
  }

  lemma ClientUnderstands(r: Reply)
    requires IsReply(r)
    ensures Understands(ReadHead, r)
  {
    hide ReadHead;
    hide ReplyHead;
    hide IsContentType;
    hide Find;
    HeadIsRead(r.status, r.contentType, r.keepAlive, if r.body.Whole? then Some(|r.body.bytes|) else None);
  }

  /** A surplus that begins like no status line is no response. */
  lemma SurplusIsNoReply(s: string, verb: string)
    requires s == "" || s[0] != 'H'
    ensures ReadReply(s, verb, ReadHead) == None
  {
    var found := Find(s, BLANK);
    if found.Some? {
      assert s != "";
      OtherLineIsNoStatus(s[..found.value + 4]);
    }
  }

  lemma OtherLineIsNoStatus(head: string)
    requires head != "" && head[0] != 'H'
    ensures ReadHead(head) == None
  {
    var line := HeadLines(head)[0];
    hide ParseFields;
    hide FrameOf;
    TrimmedBegins(head);
    FirstPieceBegins(TrimBlank(head), CRLF);
    FirstPieceBegins(line, " ");
    hide Split;
    assert line == "" || line[0] != 'H';
    assert Split(line, " ")[0] != "HTTP/1.1";
    assert ReadStatus(line) == None;
  }

  lemma {:induction false} TrimmedBegins(s: string)
    ensures TrimBlank(s) == "" || (s != "" && TrimBlank(s)[0] == s[0])
    decreases |s|
  {
    if |s| >= 4 && s[|s| - 4..] == BLANK {
      TrimmedBegins(s[..|s| - 4]);
    }
  }

  lemma FirstPieceBegins(s: string, sep: string)
    requires sep != ""
    ensures Split(s, sep)[0] == "" || (s != "" && Split(s, sep)[0][0] == s[0])
  {
  }

  /** The server's response to a request with this method: what is one body too many in it does not
      look like a response of its own. */
  ghost predicate Suits(r: Reply, verb: string) {
    IsReply(r) && (Surplus(r, verb) != "" ==> Surplus(r, verb)[0] != 'H')
  }

  ghost predicate AllSuit(replies: seq<Reply>, verbs: seq<string>) {
    forall i :: 0 <= i < |replies| ==> Suits(replies[i], VerbAt(verbs, i))
  }

  lemma OthersSuit(replies: seq<Reply>, verbs: seq<string>)
    requires replies != [] && AllSuit(replies, verbs)
    ensures Suits(replies[0], VerbAt(verbs, 0)) && AllSuit(replies[1..], Later(verbs, 1))
  {
    hide Suits;
    forall i | 0 <= i < |replies| - 1 ensures VerbAt(Later(verbs, 1), i) == VerbAt(verbs, i + 1) {
    }
  }

  lemma OneReplyMore(r: Reply, later: string, verbs: seq<string>)
    requires Suits(r, VerbAt(verbs, 0))
    ensures var verb := VerbAt(verbs, 0);
      ReadAll(ReplyText(r) + later, verbs, ReadHead) ==
        [Seen(r, verb)] + if Surplus(r, verb) == "" then ReadAll(later, Later(verbs, 1), ReadHead) else []
  {
    hide ReadReply;
    hide TextFor;
    hide ReplyText;
    hide Surplus;
    hide Seen;
    hide Understands;
    hide IsReply;
    var verb := VerbAt(verbs, 0);
    var surplus := Surplus(r, verb);
    ClientUnderstands(r);
    TextAndSurplus(r, verb);
    if surplus == "" {
      OneMoreReply(r, later, verbs, ReadHead);
    } else {
      Regroup(TextFor(r, verb), surplus, later);
      OneMoreReply(r, surplus + later, verbs, ReadHead);
      SurplusIsNoReply(surplus + later, VerbAt(Later(verbs, 1), 0));
    }
  }

  /** What a client reads that sent these methods, whatever follows the responses: all of them up
      to the first with a surplus; then nothing more, and if there is none, what follows. */
  lemma {:induction false} RepliesAreRead(replies: seq<Reply>, verbs: seq<string>, rest: string)
    requires AllSuit(replies, verbs)
    ensures var k := FirstSurplus(replies, verbs);
      ReadAll(Texts(replies) + rest, verbs, ReadHead) ==
        if k < |replies| then SeenAll(replies, verbs)[..k + 1]
        else SeenAll(replies, verbs) + ReadAll(rest, Later(verbs, |replies|), ReadHead)
    decreases |replies|
  {
    hide ReadAll;
    hide ReplyText;
    hide Surplus;
    hide Suits;
    hide Seen;
    if replies == [] {
      assert "" + rest == rest && Later(verbs, 0) == verbs;
    } else {
      hide SeenAll;
      var first, others, later := replies[0], replies[1..], Later(verbs, 1);
      OthersSuit(replies, verbs);
      hide AllSuit;
      RepliesAreRead(others, later, rest);
      Regroup(ReplyText(first), Texts(others), rest);
      OneReplyMore(first, Texts(others) + rest, verbs);
      SeenOfMore(replies, verbs);
      assert Later(later, |others|) == Later(verbs, |replies|);
    }
  }

  /** Responses on a connection are self-delimiting: whatever was written of the response after
      them, as long as its last byte is missing, the client reads exactly the responses that were
      finished, in order, each with its status, content type and content; provided that none of
      them has a body that the client does not expect. */
  lemma ResponsesAreDelimited(replies: seq<Reply>, last: Reply, part: string, verbs: seq<string>)
    requires AllSuit(replies, verbs) && IsReply(last) && Cut(part, TextFor(last, VerbAt(verbs, |replies|)))
    requires FirstSurplus(replies, verbs) == |replies|
    ensures ReadAll(Texts(replies) + part, verbs, ReadHead) == SeenAll(replies, verbs)
  {
    hide Understands;
    hide TextFor;
    hide IsReply;
    hide AllSuit;
    hide ReadReply;
    hide SeenAll;
    RepliesAreRead(replies, verbs, part);
    ClientUnderstands(last);
    assert VerbAt(Later(verbs, |replies|), 0) == VerbAt(verbs, |replies|);
    CutReplyIsNotRead(last, part, VerbAt(verbs, |replies|), ReadHead);
    assert ReadAll(part, Later(verbs, |replies|), ReadHead) == [];
    assert SeenAll(replies, verbs) + [] == SeenAll(replies, verbs);
  }

  /** When all responses have arrived, the client has read each as the answer it is if and only if
      no response before the last has a body that the client does not expect. */
  lemma ReadRightIff(replies: seq<Reply>, verbs: seq<string>)
    requires AllSuit(replies, verbs)
    ensures ReadAll(Texts(replies), verbs, ReadHead) == SeenAll(replies, verbs)
       <==> forall i :: 0 <= i < |replies| - 1 ==> Surplus(replies[i], VerbAt(verbs, i)) == ""
  {
    hide Surplus;
    hide ReadReply;
    hide AllSuit;
    assert Texts(replies) + "" == Texts(replies);
    RepliesAreRead(replies, verbs, "");
    SurplusIsNoReply("", VerbAt(Later(verbs, |replies|), 0));
    assert SeenAll(replies, verbs) + [] == SeenAll(replies, verbs);
    var k := FirstSurplus(replies, verbs);
    if k < |replies| {
      assert |SeenAll(replies, verbs)[..k + 1]| == k + 1;
    }
  }
}
