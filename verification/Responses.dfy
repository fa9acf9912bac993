/** How responses are written (src/http.rs, `ResponseWriter`), how a file is sent (src/files.rs,
    `handle_read`), and the responses of a whole connection (src/main.rs, `handle_connection`). */
module Responses {
  import opened Wrappers
  import opened Text
  import opened Numbers
  import opened Http
  import opened Replies
  import opened RepliesProofs

  const BUFFER: nat := 256 * 1024

  /** `text` was written behind `before`; after a failure, some part of it. */
  ghost predicate Wrote(before: string, after: string, text: string, ok: bool) {
    if ok then after == before + text else after <= before + text
  }

  lemma WroteBoth(a: string, b: string, c: string, x: string, y: string, ok: bool)
    requires Wrote(a, b, x, true) && Wrote(b, c, y, ok)
    ensures Wrote(a, c, x + y, ok)
  {
    Regroup(a, x, y);
  }

  lemma WroteNoMore(a: string, b: string, x: string, y: string)
    requires Wrote(a, b, x, false)
    ensures Wrote(a, b, x + y, false)
  {
    Regroup(a, x, y);
  }

  lemma WroteNothing(before: string, text: string)
    ensures Wrote(before, before, text, false)
  {
  }

  /** The buffered socket: what reached the client, and what still waits. A write that fails takes
      some of its data in and gets some of the buffer out; what is left may still go out when the
      buffer is dropped. If it is quiet, no write fails and no handler gives up. */
  class Wire {
    const quiet: bool
    var sent: string
    var pending: string

    ghost function Written(): string
      reads this
    {
      sent + pending
    }

    constructor (quiet: bool)
      ensures this.quiet == quiet && sent == "" && pending == ""
    {
      this.quiet := quiet;
      sent, pending := "", "";
    }

    method WriteAll(data: string) returns (ok: bool)
      modifies this
      ensures Wrote(old(Written()), Written(), data, ok) && old(sent) <= sent && (quiet ==> ok)
    {
      var all := pending + data;
      var taken: nat :| taken <= |all|;
      ok := *;
      ok := ok || quiet;
      if ok {
        taken := |all|;
      }
      var out: nat :| out <= taken;
      Pieces(sent, pending, data, out, taken);
      sent, pending := sent + all[..out], all[out..taken];
    }

    method Flush() returns (ok: bool)
      modifies this
      ensures Wrote(old(Written()), Written(), "", ok) && old(sent) <= sent && (quiet ==> ok)
      ensures ok ==> pending == ""
    {
      ok := *;
      ok := ok || quiet;
      var out: nat :| out <= |pending|;
      if ok {
        out := |pending|;
      }
      Pieces(sent, pending, "", out, |pending|);
      assert pending + "" == pending;
      sent, pending := sent + pending[..out], pending[out..];
    }

    /** Dropping the buffer tries to flush it once more, and says nothing. */
    method Close()
      modifies this
      ensures old(sent) <= sent <= old(Written()) && pending == ""
    {
      var out: nat :| out <= |pending|;
      assert pending == pending[..out] + pending[out..];
      sent, pending := sent + pending[..out], "";
    }
  }

  lemma Pieces(sent: string, pending: string, data: string, out: nat, taken: nat)
    requires out <= taken <= |pending + data|
    ensures var all := pending + data;
      && sent + all[..out] + all[out..taken] <= sent + pending + data
      && (taken == |all| ==> sent + all[..out] + all[out..taken] == sent + pending + data)
  {
    var all := pending + data;
    assert all[..taken] == all[..out] + all[out..taken];
    assert sent + pending + data == sent + all[..taken] + all[taken..];
  }

  class ResponseWriter {
    const wire: Wire
    const keepAlive: bool
    var started: bool
    var chunked: bool
    var hijacked: bool

    constructor (wire: Wire, keepAlive: bool)
      ensures this.wire == wire && this.keepAlive == keepAlive && !started && !chunked && !hijacked
    {
      this.wire, this.keepAlive := wire, keepAlive;
      started, chunked, hijacked := false, false, false;
    }

    method WriteHead(status: nat, contentType: string, length: Option<nat>) returns (ok: bool)
      modifies this`started, this`chunked, wire
      ensures Wrote(old(wire.Written()), wire.Written(), ReplyHead(status, contentType, keepAlive, length), ok)
      ensures old(wire.sent) <= wire.sent
      ensures started && (ok ==> chunked == (old(chunked) || length.None?))
      ensures wire.quiet ==> ok
    {
      started := true;
      ok := wire.WriteAll(ReplyHead(status, contentType, keepAlive, length));
      if ok && length.None? {
        chunked := true;
      }
    }

    /** A response of fixed size, at once. */
    method Fixed(status: nat, contentType: string, body: string) returns (ok: bool)
      requires !chunked
      modifies this`started, this`chunked, wire
      ensures Wrote(old(wire.Written()), wire.Written(), Unfinished(Reply(status, contentType, keepAlive, Whole(body))), ok)
      ensures old(wire.sent) <= wire.sent
      ensures started && (ok ==> !chunked && wire.pending == "")
      ensures wire.quiet ==> ok
    {
      hide ReplyHead;
      ghost var before := wire.Written();
      ok := WriteHead(status, contentType, Some(|body|));
      ghost var head := ReplyHead(status, contentType, keepAlive, Some(|body|));
      if !ok {
        WroteNoMore(before, wire.Written(), head, body);
        return;
      }
      ghost var middle := wire.Written();
      ok := wire.WriteAll(body);
      WroteBoth(before, middle, wire.Written(), head, body, ok);
      if ok {
        ghost var written := wire.Written();
        ok := wire.Flush();
        WroteBoth(before, written, wire.Written(), head + body, "", ok);
        assert head + body + "" == head + body;
      }
    }

    method StartStream(status: nat, contentType: string) returns (ok: bool)
      modifies this`started, this`chunked, wire
      ensures Wrote(old(wire.Written()), wire.Written(), ReplyHead(status, contentType, keepAlive, None), ok)
      ensures old(wire.sent) <= wire.sent
      ensures started && (ok ==> chunked && wire.pending == "")
      ensures wire.quiet ==> ok
    {
      hide ReplyHead;
      ghost var before, head := wire.Written(), ReplyHead(status, contentType, keepAlive, None);
      ok := WriteHead(status, contentType, None);
      if ok {
        ghost var written := wire.Written();
        ok := wire.Flush();
        WroteBoth(before, written, wire.Written(), head, "", ok);
        assert head + "" == head;
      }
    }

    /** One chunk; nothing at all for an empty one, which would end the body. */
    method Chunk(data: string) returns (ok: bool)
      modifies wire
      ensures Wrote(old(wire.Written()), wire.Written(), ChunkText(data), ok)
      ensures old(wire.sent) <= wire.sent
      ensures ok && old(wire.pending) == "" ==> wire.pending == ""
      ensures wire.quiet ==> ok
    {
      hide Print;
      if data == "" {
        return true;
      }
      ghost var before := wire.Written();
      ok := wire.WriteAll(Print(|data|, 16) + CRLF + data + CRLF);
      if ok {
        ghost var written := wire.Written();
        ok := wire.Flush();
        WroteBoth(before, written, wire.Written(), ChunkText(data), "", ok);
        assert ChunkText(data) + "" == ChunkText(data);
      }
    }

    method Finish() returns (ok: bool)
      modifies wire
      ensures Wrote(old(wire.Written()), wire.Written(), if chunked then LAST_CHUNK else "", ok)
      ensures old(wire.sent) <= wire.sent
      ensures ok && old(wire.pending) == "" ==> wire.pending == ""
      ensures wire.quiet ==> ok
    {
      if !chunked {
        return true;
      }
      ghost var before := wire.Written();
      ok := wire.WriteAll(LAST_CHUNK);
      if ok {
        ghost var written := wire.Written();
        ok := wire.Flush();
        WroteBoth(before, written, wire.Written(), LAST_CHUNK, "", ok);
        assert LAST_CHUNK + "" == LAST_CHUNK;
      }
    }

    /** Hands the socket over; the caller writes to it from now on. Once the buffer is flushed the
        connection counts as handed over, even if the socket then cannot be cloned. */
    method Hijack() returns (ok: bool)
      modifies this`started, this`hijacked, wire
      ensures Wrote(old(wire.Written()), wire.Written(), "", ok)
      ensures old(wire.sent) <= wire.sent
      ensures ok ==> hijacked
      ensures hijacked && !old(hijacked) ==> started && wire.pending == "" && wire.Written() == old(wire.Written())
      ensures !hijacked ==> !old(hijacked) && !ok && started == old(started)
    {
      assert forall s: string :: s + "" == s;
      ok := wire.Flush();
      if ok {
        started, hijacked := true, true;
        ok := *;
      }
    }
  }

  // ---- files ----------------------------------------------------------------------------

  type FileContent = s: string | |s| < U64

  /** An open file. If it is shared, others may change its content at any time; if it is faulty,
      operations on it may fail. */
  class File {
    var content: FileContent
    var pos: nat
    const shared: bool
    const faulty: bool

    method Size() returns (n: nat)
      modifies `content
      ensures n < U64 && (!shared ==> content == old(content) && n == |content|)
    {
      if shared {
        content := *;
      }
      n := |content|;
    }

    method Seek(offset: nat) returns (ok: bool)
      modifies `pos
      ensures pos == (if ok then offset else old(pos)) && (!faulty ==> ok)
    {
      ok := *;
      ok := ok || !faulty;
      if ok {
        pos := offset;
      }
    }

    /** At least one byte and up to `max`, unless the file ends here. */
    method Read(max: nat) returns (r: Option<string>)
      requires max > 0
      modifies `content, `pos
      ensures r.Some? ==> |r.value| <= max
      ensures !faulty ==> r.Some?
      ensures !shared ==> content == old(content)
      ensures !shared && r.Some? && old(pos) < |content| ==>
                r.value != "" && pos == old(pos) + |r.value| <= |content| && r.value == content[old(pos)..pos]
    {
      if shared {
        content := *;
      }
      var fails := *;
      if fails && faulty {
        return None;
      }
      if pos >= |content| {
        return Some("");
      }
      var n: nat :| 0 < n <= max && pos + n <= |content|;
      r := Some(content[pos..pos + n]);
      pos := pos + n;
    }
  }

  /** How many bytes a read asks for: `length`, but no more than the file has behind `offset`. */
  function RangeLength(size: nat, offset: nat, length: Option<nat>): nat {
    Min(match length case Some(n) => n case None => U64 - 1, if offset <= size then size - offset else 0)
  }

  function Range(content: FileContent, offset: nat, length: Option<nat>): string {
    var from := Min(offset, |content|);
    content[from..from + RangeLength(|content|, offset, length)]
  }

  const BINARY: string := "application/octet-stream"

  /** What went out is at most the head and `got`; the whole response would have had `rest` as well. */
  lemma BrokenOff(before: string, after: string, head: string, got: string, rest: string, ok: bool)
    requires Wrote(before, after, head + got, ok)
    ensures Wrote(before, after, head + (got + rest), false)
    ensures rest != "" ==> after != before + (head + (got + rest))
    ensures rest == "" ==> Wrote(before, after, head + (got + rest), ok)
  {
    Regroup(head, got, rest);
    Regroup(before, head + got, rest);
    assert rest == "" ==> head + got + rest == head + got;
    assert |after| <= |before + (head + got)|;
  }

  lemma WholeText(reply: Reply)
    requires reply.body.Whole?
    ensures ReplyText(reply) == ReplyHead(reply.status, reply.contentType, reply.keepAlive, Some(|reply.body.bytes|)) + reply.body.bytes
  {
    hide ReplyHead;
    assert forall s: string :: s + "" == s;
  }

  lemma SliceOn(content: string, from: nat, n: nat, to: nat)
    requires from + n <= to <= |content|
    ensures content[from..from + n] + content[from + n..to] == content[from..to]
  {
  }

  /** The loop of `handle_read`: sends up to `total` bytes from the file's position on, and stops
      at the end of the file. */
  method SendBytes(wire: Wire, file: File, total: nat) returns (ok: bool, ghost got: string, remaining: nat)
    modifies wire, file`content, file`pos
    ensures Wrote(old(wire.Written()), wire.Written(), got, ok) && old(wire.sent) <= wire.sent
    ensures |got| + remaining == total
    ensures wire.quiet && !file.faulty ==> ok
    ensures !file.shared ==> file.content == old(file.content)
    ensures !file.shared && old(file.pos) + total <= |file.content| ==>
              got == file.content[old(file.pos)..old(file.pos) + |got|] && (ok ==> remaining == 0)
  {
    var room := Min(total, BUFFER);
    remaining, got, ok := total, "", true;
    assert old(wire.Written()) + got == old(wire.Written());
    while remaining > 0
      invariant 0 <= remaining <= total == |got| + remaining && room == Min(total, BUFFER)
      invariant ok && Wrote(old(wire.Written()), wire.Written(), got, true) && old(wire.sent) <= wire.sent
      invariant !file.shared ==> file.content == old(file.content)
      invariant !file.shared && old(file.pos) + total <= |file.content| ==>
                  file.pos == old(file.pos) + |got| && got == file.content[old(file.pos)..file.pos]
    {
      var piece := file.Read(Min(room, remaining));
      if piece.None? {
        ok := false;
        WroteNoMore(old(wire.Written()), wire.Written(), got, "");
        return;
      }
      if piece.value == "" {
        break;
      }
      ghost var written := wire.Written();
      ok := wire.WriteAll(piece.value);
      WroteBoth(old(wire.Written()), written, wire.Written(), got, piece.value, ok);
      if !file.shared && old(file.pos) + total <= |file.content| {
        SliceOn(file.content, old(file.pos), |got|, file.pos);
      }
      got, remaining := got + piece.value, remaining - |piece.value|;
      if !ok {
        return;
      }
    }
  }

  /** Head and body of a download of `total` bytes from the file's position on. If all of it went
      out and nobody changes the file, the body is what the file holds there. */
  method SendRange(resp: ResponseWriter, file: File, total: nat) returns (ok: bool, shrank: bool, ghost reply: Reply)
    requires !resp.chunked && total < U64
    modifies resp`started, resp`chunked, resp.wire, file`content, file`pos
    ensures exists bytes :: reply == Reply(200, BINARY, resp.keepAlive, Whole(bytes)) && |bytes| == total
    ensures Wrote(old(resp.wire.Written()), resp.wire.Written(), ReplyText(reply), ok) && old(resp.wire.sent) <= resp.wire.sent
    ensures ok ==> !resp.chunked && resp.wire.pending == ""
    ensures !file.shared ==> file.content == old(file.content)
    ensures !file.shared && old(file.pos) + total <= |file.content|
            && resp.wire.Written() == old(resp.wire.Written()) + ReplyText(reply) ==>
              reply.body.bytes == file.content[old(file.pos)..old(file.pos) + total]
    ensures shrank ==> !ok && resp.wire.Written() != old(resp.wire.Written()) + ReplyText(reply)
    ensures shrank ==> total > 0 && (file.shared || old(file.pos) + total > |file.content|)
    ensures resp.wire.quiet && !file.faulty && !shrank ==> ok
  {
    hide ReplyHead;
    hide ReplyText;
    hide Wrote;
    shrank := false;
    ghost var before, head := resp.wire.Written(), ReplyHead(200, BINARY, resp.keepAlive, Some(total));
    ghost var zeros := seq(total, _ => 0 as char);
    ok := resp.WriteHead(200, BINARY, Some(total));
    ghost var middle := resp.wire.Written();
    ghost var got, rest := "", zeros;
    assert head + "" == head;
    if ok {
      var remaining;
      ok, got, remaining := SendBytes(resp.wire, file, total);
      rest := zeros[..remaining];
      WroteBoth(before, middle, resp.wire.Written(), head, got, ok);
      if ok {
        ghost var written := resp.wire.Written();
        ok := resp.wire.Flush();
        WroteBoth(before, written, resp.wire.Written(), head + got, "", ok);
        assert head + got + "" == head + got;
      }
      shrank := ok && remaining > 0;
    }
    reply := Reply(200, BINARY, resp.keepAlive, Whole(got + rest));
    assert reply.body == Whole(got + rest) && |got + rest| == total;
    BrokenOff(before, resp.wire.Written(), head, got, rest, ok);
    WholeText(reply);
    assert rest == "" ==> got + rest == got;
    ok := ok && !shrank;
  }

  /** What `handle_read` answers once the file is open: exactly the announced number of bytes, or
      a failure, on which the connection is closed. `shrank` says that the file ended early. */
  method HandleRead(resp: ResponseWriter, file: File, offset: nat, length: Option<nat>)
    returns (ok: bool, shrank: bool, ghost reply: Reply)
    requires !resp.chunked && file.pos == 0 && (length.Some? ==> length.value < U64)
    modifies resp`started, resp`chunked, resp.wire, file`content, file`pos
    ensures IsReply(reply) && reply.status == 200 && reply.body.Whole? && reply.keepAlive == resp.keepAlive
    ensures Wrote(old(resp.wire.Written()), resp.wire.Written(), ReplyText(reply), ok)
    ensures old(resp.wire.sent) <= resp.wire.sent
    ensures ok ==> !resp.chunked && resp.wire.pending == ""
    ensures !file.shared ==> file.content == old(file.content)
    ensures !file.shared && resp.wire.Written() == old(resp.wire.Written()) + ReplyText(reply) ==>
              reply.body.bytes == Range(file.content, offset, length)
    ensures shrank ==> !ok && file.shared && resp.wire.Written() != old(resp.wire.Written()) + ReplyText(reply)
    ensures resp.wire.quiet && !file.faulty && !file.shared ==> ok
  {
    hide ReplyText;
    hide IsContentType;
    hide Wrote;
    hide Range;
    MediaTypeIsContentType(BINARY);
    ok, shrank := false, false;
    var size := file.Size();
    var total := RangeLength(size, offset, length);
    if offset > 0 {
      var found := file.Seek(offset);
      if !found {
        reply := Reply(200, BINARY, resp.keepAlive, Whole(""));
        WroteNothing(resp.wire.Written(), ReplyText(reply));
        RepliesAreNotEmpty(reply);
        return;
      }
    }
    ok, shrank, reply := SendRange(resp, file, total);
    if !file.shared && resp.wire.Written() == old(resp.wire.Written()) + ReplyText(reply) {
      RangeIsSent(file.content, offset, length, reply.body.bytes);
    }
  }

  lemma RepliesAreNotEmpty(r: Reply)
    ensures ReplyText(r) != ""
  {
    assert |HeadOf(r)| >= 4;
    hide HeadOf;
  }

  lemma RangeIsSent(content: FileContent, offset: nat, length: Option<nat>, got: string)
    requires |got| == RangeLength(|content|, offset, length)
    requires offset + |got| <= |content| ==> got == content[offset..offset + |got|]
    ensures got == Range(content, offset, length)
  {
  }

  lemma RangesAdjoin(content: FileContent, offset: nat, n: nat, length: Option<nat>)
    requires length.Some? ==> n + length.value < U64
    ensures Range(content, offset, Some(n)) + Range(content, offset + n, length)
         == Range(content, offset, match length case Some(m) => Some(n + m) case None => None)
  {
  }

  function Sum(lengths: seq<nat>): nat {
    if lengths == [] then 0 else lengths[0] + Sum(lengths[1..])
  }

  /** The bodies of reads that follow one another in the file. */
  function Ranges(content: FileContent, offset: nat, lengths: seq<nat>): seq<string>
    decreases |lengths|
  {
    if lengths == [] then [] else [Range(content, offset, Some(lengths[0]))] + Ranges(content, offset + lengths[0], lengths[1..])
  }

  lemma RangeEnds(content: FileContent, offset: nat, n: nat)
    ensures Range(content, offset, Some(0)) == ""
    ensures n >= |content| ==> Range(content, 0, Some(n)) == content
  {
  }

  /** Parallel ranged downloads: reads that follow one another add up to one read, and to the
      whole content when they reach its end. */
  lemma {:induction false} RangesTile(content: FileContent, offset: nat, lengths: seq<nat>)
    requires offset + Sum(lengths) < U64
    ensures Concat(Ranges(content, offset, lengths)) == Range(content, offset, Some(Sum(lengths)))
    ensures offset == 0 && Sum(lengths) >= |content| ==> Concat(Ranges(content, offset, lengths)) == content
    decreases |lengths|
  {
    hide Range;
    RangeEnds(content, offset, Sum(lengths));
    if lengths != [] {
      var first, others := Range(content, offset, Some(lengths[0])), Ranges(content, offset + lengths[0], lengths[1..]);
      RangesTile(content, offset + lengths[0], lengths[1..]);
      RangesAdjoin(content, offset, lengths[0], Some(Sum(lengths[1..])));
      assert ([first] + others)[1..] == others;
    }
  }

  // ---- the connection -------------------------------------------------------------------

  /** What a request is answered with, as far as the socket is concerned. */
  datatype Job =
    | Fixed(status: nat, contentType: string, body: string)
    | Download(file: File, offset: nat, length: Option<nat>)
    | Events(chunks: seq<string>)
    | TakeOver

  datatype Incoming = Incoming(verb: string, job: Job, keepAlive: bool)

  predicate IsJob(job: Job) {
    match job
    case Fixed(status, contentType, body) => IsContentType(contentType) && |body| < U64 && !EndsAtHead("GET", status)
    case Download(_, _, length) => length.Some? ==> length.value < U64
    case Events(_) => true
    case TakeOver => true
  }

  /** What `route` has for HEAD: no handler, only the error of whatever refuses the request, a JSON
      object; or the proxy. */
  predicate IsHeadAnswer(job: Job) {
    job.TakeOver? || (job.Fixed? && job.body != "" && job.body[0] == '{')
  }

  predicate IsIncoming(incoming: Incoming) {
    IsJob(incoming.job) && (incoming.verb == "HEAD" ==> IsHeadAnswer(incoming.job))
  }

  /** Nothing gets in the way of this job. */
  predicate IsSteady(job: Job) {
    !job.TakeOver? && (job.Download? ==> !job.file.shared && !job.file.faulty)
  }

  const EVENTS: string := "application/x-ndjson"

  method StreamEvents(resp: ResponseWriter, chunks: seq<string>) returns (ok: bool, ghost reply: Reply)
    modifies resp`started, resp`chunked, resp.wire
    ensures reply == Reply(200, EVENTS, resp.keepAlive, Chunks(chunks))
    ensures Wrote(old(resp.wire.Written()), resp.wire.Written(), Unfinished(reply), ok) && old(resp.wire.sent) <= resp.wire.sent
    ensures ok ==> resp.chunked && resp.wire.pending == ""
    ensures resp.wire.quiet ==> ok
  {
    hide ReplyHead;
    hide ChunkText;
    reply := Reply(200, EVENTS, resp.keepAlive, Chunks(chunks));
    ghost var before, head := resp.wire.Written(), HeadOf(reply);
    ok := resp.StartStream(200, EVENTS);
    if !ok {
      WroteNoMore(before, resp.wire.Written(), head, ChunksText(chunks));
      return;
    }
    ghost var text := head;
    assert head + ChunksText(chunks[0..]) == Unfinished(reply);
    for i := 0 to |chunks|
      invariant ok && Wrote(before, resp.wire.Written(), text, true) && old(resp.wire.sent) <= resp.wire.sent
      invariant text + ChunksText(chunks[i..]) == Unfinished(reply)
      invariant resp.chunked && resp.wire.pending == ""
    {
      assert chunks[i..][0] == chunks[i] && chunks[i..][1..] == chunks[i + 1..];
      ghost var written := resp.wire.Written();
      var givesUp := *;
      if givesUp && !resp.wire.quiet {
        ok := false;             // the handler gave up in between
        WroteNoMore(before, written, text, ChunksText(chunks[i..]));
        return;
      }
      ok := resp.Chunk(chunks[i]);
      WroteBoth(before, written, resp.wire.Written(), text, ChunkText(chunks[i]), ok);
      Regroup(text, ChunkText(chunks[i]), ChunksText(chunks[i + 1..]));
      text := text + ChunkText(chunks[i]);
      if !ok {
        WroteNoMore(before, resp.wire.Written(), text, ChunksText(chunks[i + 1..]));
        return;
      }
    }
    assert text + "" == text;
  }

  ghost function Touched(job: Job): set<object> {
    if job.Download? then {job.file} else {}
  }

  /** The reply is the one the job asks for; a download of a file that nobody else changes gives
      the range of its content. */
  ghost predicate Answers(job: Job, reply: Reply)
    reads Touched(job)
  {
    match job
    case Fixed(status, contentType, body) =>
      reply == Reply(status, contentType, reply.keepAlive, Whole(body))
    case Download(file, offset, length) =>
      reply.body.Whole? && (!file.shared ==> reply.body.bytes == Range(file.content, offset, length))
    case Events(chunks) => reply == Reply(200, EVENTS, reply.keepAlive, Chunks(chunks))
    case TakeOver => false
  }

  /** A response that suits its request, but for the body that it has even for HEAD. */
  ghost predicate Meets(reply: Reply, verb: string) {
    && IsReply(reply) && !EndsAtHead("GET", reply.status)
    && (verb == "HEAD" ==> reply.body.Whole? && reply.body.bytes != "" && reply.body.bytes[0] != 'H')
  }

  /** What the handler of a job writes, up to `finish`. */
  method Handle(resp: ResponseWriter, job: Job) returns (ok: bool, ghost reply: Reply)
    requires IsJob(job) && resp.wire.pending == "" && !resp.chunked && !resp.hijacked
    requires job.Download? ==> job.file.pos == 0
    modifies resp, resp.wire, Touched(job)
    ensures reply.keepAlive == resp.keepAlive && old(resp.wire.sent) <= resp.wire.sent
    ensures resp.hijacked ==> job.TakeOver? && resp.wire.sent == old(resp.wire.sent) && resp.wire.pending == ""
    ensures !resp.hijacked ==> Wrote(old(resp.wire.Written()), resp.wire.Written(), Unfinished(reply), ok)
    ensures !resp.hijacked && ok ==> resp.wire.pending == "" && resp.chunked == reply.body.Chunks?
    ensures !resp.hijacked && resp.wire.Written() == old(resp.wire.Written()) + Unfinished(reply) ==> Answers(job, reply)
    ensures job.Fixed? ==> Answers(job, reply)
    ensures job.TakeOver? ==> resp.wire.Written() == old(resp.wire.Written()) && (!resp.hijacked ==> !ok)
    ensures Meets(reply, "GET") && (IsHeadAnswer(job) ==> Meets(reply, "HEAD"))
    ensures resp.wire.quiet && IsSteady(job) ==> ok
  {
    hide ReplyHead;
    hide IsContentType;
    hide Range;
    ghost var before := resp.wire.Written();
    match job {
      case Fixed(status, contentType, body) =>
        reply := Reply(status, contentType, resp.keepAlive, Whole(body));
        ok := resp.Fixed(status, contentType, body);
      case Download(file, offset, length) =>
        var shrank;
        ok, shrank, reply := HandleRead(resp, file, offset, length);
        assert ReplyText(reply) == Unfinished(reply) + "" == Unfinished(reply);
      case Events(chunks) =>
        MediaTypeIsContentType(EVENTS);
        ok, reply := StreamEvents(resp, chunks);
      case TakeOver =>
        MediaTypeIsContentType(BINARY);
        reply := Reply(200, BINARY, resp.keepAlive, Whole("-"));       // which is never written
        ok := resp.Hijack();
        assert before + "" == before;
        if !resp.hijacked {
          NotWritten(before, resp.wire.Written(), reply);
        }
    }
  }

  lemma NotWritten(before: string, after: string, reply: Reply)
    requires Wrote(before, after, "", false) && reply.body.Whole?
    ensures Wrote(before, after, Unfinished(reply), false) && after != before + Unfinished(reply)
  {
    RepliesAreNotEmpty(reply);
    assert ReplyText(reply) == Unfinished(reply) + "" == Unfinished(reply);
    WroteNoMore(before, after, "", Unfinished(reply));
    assert "" + Unfinished(reply) == Unfinished(reply);
  }

  /** One request: its handler, then `finish`. The connection goes on only if all of it was
      written; and whenever all of it was written, it is what the job asks for. */
  method Answer(wire: Wire, incoming: Incoming) returns (finished: bool, hijacked: bool, ghost reply: Reply)
    requires IsIncoming(incoming) && wire.pending == ""
    requires incoming.job.Download? ==> incoming.job.file.pos == 0
    modifies wire, Touched(incoming.job)
    ensures Meets(reply, incoming.verb) && reply.keepAlive == incoming.keepAlive && old(wire.sent) <= wire.sent
    ensures hijacked ==> !finished && wire.sent == old(wire.sent) && wire.pending == ""
    ensures !hijacked ==> Wrote(old(wire.Written()), wire.Written(), ReplyText(reply), finished)
    ensures finished ==> wire.pending == ""
    ensures !hijacked && wire.Written() == old(wire.Written()) + ReplyText(reply) ==> Answers(incoming.job, reply)
    ensures incoming.job.Fixed? ==> Answers(incoming.job, reply)
    ensures !hijacked && incoming.job.TakeOver? ==> !finished && wire.Written() == old(wire.Written())
    ensures wire.quiet && IsSteady(incoming.job) ==> finished
  {
    hide HeadOf;
    hide Meets;
    hide Unfinished;
    hide Answers;
    var resp := new ResponseWriter(wire, incoming.keepAlive);
    ghost var before := wire.Written();
    var ok;
    ok, reply := Handle(resp, incoming.job);
    MeetsEither(reply, incoming.verb);
    if resp.hijacked {
      return false, true, reply;
    }
    ghost var ending := if reply.body.Chunks? then LAST_CHUNK else "";
    ghost var written := wire.Written();
    if !ok {
      WroteNoMore(before, written, Unfinished(reply), ending);
      if written == before + (Unfinished(reply) + ending) {
        FinishedOnly(before, written, Unfinished(reply), ending);
      }
      return false, false, reply;
    }
    finished := resp.Finish();
    WroteBoth(before, written, wire.Written(), Unfinished(reply), ending, finished);
    hijacked := false;
  }

  lemma MeetsEither(reply: Reply, verb: string)
    requires Meets(reply, "GET") && (verb == "HEAD" ==> Meets(reply, "HEAD"))
    ensures Meets(reply, verb)
  {
  }

  /** A response that was cut short before its ending is whole only if there is no ending. */
  lemma FinishedOnly(before: string, after: string, text: string, ending: string)
    requires Wrote(before, after, text, false) && after == before + (text + ending)
    ensures after == before + text
  {
    assert |after| <= |before + text|;
    assert ending == "";
    assert text + ending == text;
  }

  lemma {:induction false} TextsOfMore(replies: seq<Reply>, r: Reply)
    ensures Texts(replies + [r]) == Texts(replies) + ReplyText(r)
    decreases |replies|
  {
    hide ReplyText;
    if replies == [] {
      assert [r][1..] == [] && replies + [r] == [r];
      assert ReplyText(r) + "" == ReplyText(r) == "" + ReplyText(r);
    } else {
      assert (replies + [r])[1..] == replies[1..] + [r];
      TextsOfMore(replies[1..], r);
      Regroup(ReplyText(replies[0]), Texts(replies[1..]), ReplyText(r));
    }
  }

  ghost predicate AllMeet(replies: seq<Reply>, verbs: seq<string>) {
    forall i :: 0 <= i < |replies| ==> Meets(replies[i], VerbAt(verbs, i))
  }

  lemma NothingYet(verbs: seq<string>)
    ensures Texts([]) == "" && AllMeet([], verbs)
  {
  }

  lemma AllMeetMore(replies: seq<Reply>, verbs: seq<string>, r: Reply, verb: string)
    requires AllMeet(replies, verbs) && |replies| == |verbs| && Meets(r, verb)
    ensures AllMeet(replies + [r], verbs + [verb])
  {
    hide Meets;
    forall i | 0 <= i < |replies| ensures VerbAt(verbs + [verb], i) == VerbAt(verbs, i) {
    }
  }

  // ---- HEAD -----------------------------------------------------------------------------

  /** The first request with method HEAD, or how many there are. */
  function FirstHead(verbs: seq<string>): (h: nat)
    ensures h <= |verbs| && (h < |verbs| ==> verbs[h] == "HEAD")
    ensures forall i :: 0 <= i < h ==> verbs[i] != "HEAD"
  {
    if verbs == [] || verbs[0] == "HEAD" then 0 else 1 + FirstHead(verbs[1..])
  }

  function NoneBeforeLast(verbs: seq<string>): bool {
    forall i :: 0 <= i < |verbs| - 1 ==> verbs[i] != "HEAD"
  }

  lemma SurplusForHead(r: Reply, verb: string)
    requires Meets(r, verb)
    ensures Suits(r, verb) && (Surplus(r, verb) != "" <==> verb == "HEAD")
  {
    hide IsContentType;
  }

  lemma AllSuitTheirs(replies: seq<Reply>, verbs: seq<string>)
    requires AllMeet(replies, verbs) && |replies| <= |verbs|
    ensures AllSuit(replies, verbs) && FirstSurplus(replies, verbs) == Min(FirstHead(verbs), |replies|)
  {
    forall i | 0 <= i < |replies|
      ensures Suits(replies[i], VerbAt(verbs, i)) && (Surplus(replies[i], VerbAt(verbs, i)) != "" <==> verbs[i] == "HEAD")
    {
      SurplusForHead(replies[i], VerbAt(verbs, i));
    }
    hide Suits;
    hide Surplus;
    hide Meets;
  }

  /** Behind the first response to HEAD the client takes the body for a response, which it is not. */
  lemma NothingBehindHead(replies: seq<Reply>, verbs: seq<string>, rest: string)
    requires AllMeet(replies, verbs) && FirstHead(verbs) < |replies| <= |verbs|
    ensures ReadAll(Texts(replies) + rest, verbs, ReadHead) == SeenAll(replies, verbs)[..FirstHead(verbs) + 1]
  {
    hide AllSuit;
    hide AllMeet;
    hide ReadAll;
    hide SeenAll;
    hide FirstHead;
    hide FirstSurplus;
    LengthsAgree(replies, verbs);
    AllSuitTheirs(replies, verbs);
    RepliesAreRead(replies, verbs, rest);
  }

  /** Whatever part of the last response arrived, the client has the responses before it, and the
      last one if and only if all of it arrived that a client expects. */
  lemma PartlyReceived(replies: seq<Reply>, last: Reply, part: string, verbs: seq<string>)
    requires AllMeet(replies, verbs) && |replies| <= FirstHead(verbs)
    requires Meets(last, VerbAt(verbs, |replies|)) && part <= ReplyText(last)
    ensures var verb := VerbAt(verbs, |replies|);
      ReadAll(Texts(replies) + part, verbs, ReadHead)
        == SeenAll(replies, verbs) + if TextFor(last, verb) <= part then [Seen(last, verb)] else []
  {
    hide ReplyText;
    hide ReadReply;
    hide Understands;
    hide IsReply;
    hide AllSuit;
    hide AllMeet;
    hide SeenAll;
    hide TextFor;
    hide Surplus;
    hide Seen;
    var verb := VerbAt(verbs, |replies|);
    AllSuitTheirs(replies, verbs);
    SurplusForHead(last, verb);
    TextAndSurplus(last, verb);
    if TextFor(last, verb) <= part {
      RepliesAreRead(replies, verbs, part);
      SurplusReadsAsNothing(last, part, Later(verbs, |replies|));
    } else {
      assert Cut(part, TextFor(last, verb));
      ResponsesAreDelimited(replies, last, part, verbs);
      assert SeenAll(replies, verbs) + [] == SeenAll(replies, verbs);
    }
  }

  lemma SurplusReadsAsNothing(last: Reply, part: string, verbs: seq<string>)
    requires Suits(last, VerbAt(verbs, 0)) && TextFor(last, VerbAt(verbs, 0)) <= part <= ReplyText(last)
    ensures ReadAll(part, verbs, ReadHead) == [Seen(last, VerbAt(verbs, 0))]
  {
    hide TextFor;
    hide ReplyText;
    hide ReadReply;
    hide Understands;
    hide IsReply;
    hide Seen;
    hide Surplus;
    var verb := VerbAt(verbs, 0);
    var text, surplus := TextFor(last, verb), part[|TextFor(last, verb)|..];
    TextAndSurplus(last, verb);
    assert part == text + surplus && surplus <= Surplus(last, verb);
    ClientUnderstands(last);
    OneMoreReply(last, surplus, verbs, ReadHead);
    SurplusIsNoReply(surplus, VerbAt(Later(verbs, 1), 0));
    assert [Seen(last, verb)] + [] == [Seen(last, verb)];
  }

  lemma HeadBeforeLast(verbs: seq<string>, n: nat)
    requires n <= |verbs|
    ensures NoneBeforeLast(verbs[..n]) <==> n <= FirstHead(verbs) + 1
  {
    var h := FirstHead(verbs);
    if h + 1 < n {
      assert verbs[..n][h] == "HEAD";
    }
  }

  lemma LengthsAgree(replies: seq<Reply>, verbs: seq<string>)
    ensures |SeenAll(replies, verbs)| == |replies|
  {
  }

  lemma NothingToRead(verbs: seq<string>)
    ensures ReadAll("", verbs, ReadHead) == []
  {
    hide ReadHead;
  }

  lemma CutOff<T>(all: seq<T>, h: nat, read: seq<T>)
    requires read == if Min(h, |all|) < |all| then all[..Min(h, |all|) + 1] else all + []
    ensures read == all[..Min(h + 1, |all|)] && (read == all <==> |all| <= h + 1)
  {
    assert all[..|all|] == all == all + [];
  }

  /** All responses sent: the client reads up to the first HEAD request and no further; so it has
      read each as the answer to its request if and only if no request but the last is HEAD. */
  lemma AllReceived(replies: seq<Reply>, verbs: seq<string>)
    requires AllMeet(replies, verbs) && |replies| <= |verbs|
    ensures var read, all := ReadAll(Texts(replies), verbs, ReadHead), SeenAll(replies, verbs);
      && read == all[..Min(FirstHead(verbs) + 1, |replies|)]
      && (read == all <==> NoneBeforeLast(verbs[..|replies|]))
  {
    hide AllSuit;
    hide AllMeet;
    hide ReadAll;
    hide SeenAll;
    hide FirstHead;
    hide NoneBeforeLast;
    hide FirstSurplus;
    hide Texts;
    HeadBeforeLast(verbs, |replies|);
    LengthsAgree(replies, verbs);
    AllSuitTheirs(replies, verbs);
    assert Texts(replies) + "" == Texts(replies);
    RepliesAreRead(replies, verbs, "");
    NothingToRead(Later(verbs, |replies|));
    CutOff(SeenAll(replies, verbs), FirstHead(verbs), ReadAll(Texts(replies), verbs, ReadHead));
  }

  /** The input: a request that is refused, with method HEAD, and any other behind it. Both answers
      are complete on the wire, and the client never reads the second. */
  lemma HeadBreaksPairing(refusal: Reply, second: Reply, verb: string)
    requires Meets(refusal, "HEAD") && Meets(second, verb)
    ensures ReadAll(ReplyText(refusal) + ReplyText(second), ["HEAD", verb], ReadHead) == [Seen(refusal, "HEAD")]
  {
    hide ReplyText;
    hide ReadAll;
    hide Seen;
    hide Meets;
    var replies, verbs := [refusal, second], ["HEAD", verb];
    assert replies[1..] == [second] && [second][1..] == [];
    assert Texts([second]) == ReplyText(second) + "" == ReplyText(second);
    assert Texts(replies) == ReplyText(refusal) + ReplyText(second);
    AllReceived(replies, verbs);
    assert FirstHead(verbs) == 0;
    assert SeenAll(replies, verbs)[..1] == [Seen(refusal, "HEAD")];
  }

  ghost function FilesOf(requests: seq<Incoming>): set<object> {
    set i | 0 <= i < |requests| && requests[i].job.Download? :: requests[i].job.file as object
  }

  ghost predicate OwnFiles(requests: seq<Incoming>) {
    forall i, j :: 0 <= i < j < |requests| && requests[i].job.Download? && requests[j].job.Download? ==>
      requests[i].job.file != requests[j].job.file
  }

  /** What the client has read of the responses. After a HEAD request among those before, no more
      than up to there. Otherwise all those before, and this one or not; if it has read this one, it
      is the answer to the request. */
  ghost predicate ReadSoFar(sent: string, verbs: seq<string>, before: seq<Reply>, reply: Reply, incoming: Incoming)
    reads Touched(incoming.job)
  {
    var read, h := ReadAll(sent, verbs, ReadHead), FirstHead(verbs);
    if h < |before| then read == SeenAll(before, verbs)[..h + 1]
    else
      || read == SeenAll(before, verbs)
      || (read == SeenAll(before + [reply], verbs) && Answers(incoming.job, reply))
  }

  /** The next response, and what the client has read once it is out; after a failure the
      connection is closed. */
  method AnswerNext(wire: Wire, incoming: Incoming, ghost before: seq<Reply>, ghost verbs: seq<string>)
    returns (finished: bool, hijacked: bool, ghost reply: Reply)
    requires IsIncoming(incoming) && (incoming.job.Download? ==> incoming.job.file.pos == 0)
    requires AllMeet(before, verbs) && wire.sent == Texts(before) && wire.pending == ""
    requires |before| < |verbs| && verbs[|before|] == incoming.verb
    modifies wire, Touched(incoming.job)
    ensures Meets(reply, incoming.verb) && reply.keepAlive == incoming.keepAlive && old(wire.sent) <= wire.sent
    ensures hijacked ==> !finished && wire.sent == Texts(before) && wire.pending == ""
    ensures finished ==> Answers(incoming.job, reply) && wire.sent == Texts(before + [reply]) && wire.pending == ""
    ensures !finished ==> ReadSoFar(wire.sent, verbs, before, reply, incoming)
    ensures wire.quiet && IsSteady(incoming.job) ==> finished
  {
    hide ReplyText;
    hide Meets;
    hide Answers;
    hide ReadSoFar;
    hide AllMeet;
    assert incoming.verb == "HEAD" ==> incoming.job.TakeOver? || incoming.job.Fixed?;
    hide IsIncoming;
    ghost var start := wire.sent;
    assert wire.Written() == start;
    finished, hijacked, reply := Answer(wire, incoming);
    ghost var written, text := wire.Written(), ReplyText(reply);
    TextsOfMore(before, reply);
    RepliesAreNotEmpty(reply);
    if finished {
      assert written == wire.sent;
    } else if hijacked {
      assert start + "" == start;
      AnswerIsPartlyRead(before, reply, "", verbs, incoming);
    } else {
      wire.Close();
      PartOf(start, wire.sent, written, text);
      assert incoming.job.TakeOver? ==> wire.sent == start && wire.sent[|start|..] == "";
      AnswerIsPartlyRead(before, reply, wire.sent[|start|..], verbs, incoming);
    }
  }

  lemma AnswerIsPartlyRead(before: seq<Reply>, reply: Reply, part: string, verbs: seq<string>, incoming: Incoming)
    requires AllMeet(before, verbs) && Meets(reply, incoming.verb) && part <= ReplyText(reply)
    requires |before| < |verbs| && verbs[|before|] == incoming.verb
    requires part == ReplyText(reply) ==> Answers(incoming.job, reply)
    requires incoming.verb == "HEAD" ==> Answers(incoming.job, reply) || part == ""
    ensures ReadSoFar(Texts(before) + part, verbs, before, reply, incoming)
  {
    hide Meets;
    hide Answers;
    hide AllMeet;
    hide ReadAll;
    hide SeenAll;
    hide ReplyText;
    if FirstHead(verbs) < |before| {
      NothingBehindHead(before, verbs, part);
    } else {
      PartlyReceived(before, reply, part, verbs);
      SeenMore(before, reply, verbs);
      WholeUnlessHead(reply, incoming.verb);
      hide TextFor;
      assert SeenAll(before, verbs) + [] == SeenAll(before, verbs);
    }
  }

  lemma WholeUnlessHead(r: Reply, verb: string)
    requires Meets(r, verb)
    ensures TextFor(r, verb) != "" && TextFor(r, verb) <= ReplyText(r)
    ensures verb != "HEAD" ==> TextFor(r, verb) == ReplyText(r)
  {
    TextAndSurplus(r, verb);
    hide TextFor;
    hide ReplyText;
    SurplusForHead(r, verb);
    hide Surplus;
    hide Meets;
  }

  lemma PartOf(start: string, sent: string, written: string, text: string)
    requires start <= sent <= written <= start + text
    ensures sent == start + sent[|start|..] && sent[|start|..] <= text
    ensures sent[|start|..] == text ==> written == start + text
  {
  }

  lemma SeenMore(before: seq<Reply>, reply: Reply, verbs: seq<string>)
    ensures SeenAll(before + [reply], verbs) == SeenAll(before, verbs) + [Seen(reply, VerbAt(verbs, |before|))]
  {
    hide Seen;
  }

  function VerbsOf(requests: seq<Incoming>): seq<string> {
    seq(|requests|, i requires 0 <= i < |requests| => requests[i].verb)
  }

  /** All requests of a connection, until one is not answered completely, the client asked to
      close, or a handler took the socket over. The client reads the replies that were finished,
      in order, and at most the last one besides them, but none behind the first to a HEAD request;
      nothing else; and the i-th response it reads is the answer to the i-th request. If nothing
      fails, all requests up to the first that closes the connection are answered. */
  method HandleConnection(wire: Wire, requests: seq<Incoming>) returns (hijacked: bool, done: nat, ghost replies: seq<Reply>)
    requires wire.sent == "" && wire.pending == "" && OwnFiles(requests)
    requires forall i :: 0 <= i < |requests| ==>
               IsIncoming(requests[i]) && (requests[i].job.Download? ==> requests[i].job.file.pos == 0)
    modifies wire, FilesOf(requests)
    ensures done <= |replies| <= done + 1 && |replies| <= |requests|
    ensures forall i :: 0 <= i < |replies| ==> replies[i].keepAlive == requests[i].keepAlive
    ensures forall i :: 0 <= i < done ==> Answers(requests[i].job, replies[i])
    ensures var verbs := VerbsOf(requests); var read, h := ReadAll(wire.sent, verbs, ReadHead), FirstHead(verbs);
      && read <= SeenAll(replies, verbs) && Min(done, h + 1) <= |read| <= Min(|replies|, h + 1)
      && (forall i :: 0 <= i < |read| ==> Answers(requests[i].job, replies[i]))
      && (|replies| == done ==> (read == SeenAll(replies, verbs) <==> NoneBeforeLast(verbs[..done])))
    ensures hijacked ==> |replies| == done
    ensures wire.quiet && (forall i :: 0 <= i < |requests| ==> IsSteady(requests[i].job)) ==>
              && |replies| == done && wire.sent == Texts(replies)
              && (done < |requests| ==> done > 0 && !requests[done - 1].keepAlive)
  {
    hide ReplyText;
    hide ReadAll;
    hide Meets;
    hide IsIncoming;
    hide Range;
    hide Seen;
    hide ReadSoFar;
    hide AllMeet;
    hide FirstHead;
    hide Answers;
    hide SeenAll;
    hide Texts;
    hide IsSteady;
    hide NoneBeforeLast;
    ghost var verbs := VerbsOf(requests);
    replies, done, hijacked := [], 0, false;
    NothingYet(verbs);
    while done < |requests|
      invariant done == |replies| <= |requests| && !hijacked
      invariant AllMeet(replies, verbs) && wire.sent == Texts(replies) && wire.pending == ""
      invariant forall i :: done <= i < |requests| && requests[i].job.Download? ==> requests[i].job.file.pos == 0
      invariant forall i :: 0 <= i < done ==> Answers(requests[i].job, replies[i])
      invariant forall i :: 0 <= i < done ==> replies[i].keepAlive == requests[i].keepAlive
    {
      var request := requests[done];
      TouchesItsFile(requests, done, wire);
      ghost var before := replies;
      ghost var reply;
      var finished;
      finished, hijacked, reply := AnswerNext(wire, request, before, verbs);
      if hijacked {
        break;
      }
      replies := before + [reply];
      if !finished {
        LastIsRead(wire.sent, verbs, before, reply, request);
        return;
      }
      OneMoreMeets(before, reply, verbs);
      done := done + 1;
      if !request.keepAlive {
        break;
      }
    }
    AllAreRead(replies, verbs);
  }

  lemma AllAreRead(replies: seq<Reply>, verbs: seq<string>)
    requires AllMeet(replies, verbs) && |replies| <= |verbs|
    ensures var read := ReadAll(Texts(replies), verbs, ReadHead);
      && read <= SeenAll(replies, verbs) && |read| == Min(|replies|, FirstHead(verbs) + 1)
      && (read == SeenAll(replies, verbs) <==> NoneBeforeLast(verbs[..|replies|]))
  {
    hide ReadAll;
    hide AllMeet;
    hide SeenAll;
    hide FirstHead;
    AllReceived(replies, verbs);
    LengthsAgree(replies, verbs);
  }

  lemma OneMoreMeets(before: seq<Reply>, reply: Reply, verbs: seq<string>)
    requires AllMeet(before, verbs) && Meets(reply, VerbAt(verbs, |before|))
    ensures AllMeet(before + [reply], verbs)
  {
    hide Meets;
  }

  /** What has been read after a failure, counted. */
  lemma LastIsRead(sent: string, verbs: seq<string>, before: seq<Reply>, reply: Reply, incoming: Incoming)
    requires |before| < |verbs| && ReadSoFar(sent, verbs, before, reply, incoming)
    ensures var read, h, all := ReadAll(sent, verbs, ReadHead), FirstHead(verbs), before + [reply];
      && read <= SeenAll(all, verbs) && Min(|before|, h + 1) <= |read| <= Min(|all|, h + 1)
      && (|read| == |all| ==> Answers(incoming.job, reply))
  {
    hide ReadAll;
    hide Answers;
    SeenMore(before, reply, verbs);
    LengthsAgree(before, verbs);
    LengthsAgree(before + [reply], verbs);
    hide SeenAll;
  }

  lemma TouchesItsFile(requests: seq<Incoming>, k: nat, wire: Wire)
    requires k < |requests| && OwnFiles(requests)
    ensures Touched(requests[k].job) <= FilesOf(requests)
    ensures forall i :: 0 <= i < |requests| && i != k ==> Touched(requests[i].job) !! Touched(requests[k].job)
    ensures forall i :: 0 <= i < |requests| && i != k && requests[i].job.Download? ==>
              requests[i].job.file !in Touched(requests[k].job)
    ensures forall i :: 0 <= i < |requests| ==> wire as object !in Touched(requests[i].job)
  {
  }
}
