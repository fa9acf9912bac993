/** Both directions of a connection (src/main.rs, `handle_connection`): the requests that come in
    and the responses that go out belong together, one to one and in order; for a client that reads
    by RFC 9112, up to the first HEAD request. */
module Exchange {
  import opened Wrappers
  import opened Text
  import opened Http
  import opened Framing
  import opened Numbers
  import opened Replies
  import opened RepliesProofs
  import R = Responses

  /** What a request that could not be read is answered with, if at all. */
  function ErrorStatus(e: IoError): Option<nat> {
    match e
    case TooLarge => Some(400)
    case BadHead(_) => Some(400)
    case TimedOut => Some(408)
    case _ => None
  }

  const JSON: string := "application/json"

  /** The body of an error is a JSON object. */
  predicate IsErrorText(why: string) {
    0 < |why| < U64 && why[0] == '{'
  }

  function RefusalJob(status: nat, why: string): R.Job {
    R.Fixed(status, JSON, why)
  }

  /** The answer to a request that could not be read; the connection is closed. `verbs` are the
      methods of what the client sent, that request included. */
  method Refuse(wire: R.Wire, status: nat, why: string, verb: string, ghost before: seq<Reply>, ghost verbs: seq<string>)
    returns (ghost reply: Reply)
    requires IsErrorText(why) && (status == 400 || status == 408)
    requires |before| < |verbs| && verbs[|before|] == verb && R.AllMeet(before, verbs) && wire.sent == Texts(before) && wire.pending == ""
    modifies wire
    ensures wire.quiet ==> wire.sent == Texts(before + [reply])
    ensures Texts(before) <= wire.sent
    ensures R.ReadSoFar(wire.sent, verbs, before, reply, R.Incoming(verb, RefusalJob(status, why), false))
    ensures !reply.keepAlive
    ensures wire.quiet ==> R.Answers(RefusalJob(status, why), reply)
  {
    hide ReadAll;
    hide ReplyText;
    hide SeenAll;
    hide R.Meets;
    hide R.AllMeet;
    hide R.ReadSoFar;
    hide R.Answers;
    hide Texts;
    MediaTypeIsContentType(JSON);
    hide IsContentType;
    var incoming := R.Incoming(verb, RefusalJob(status, why), false);
    var finished, hijacked;
    finished, hijacked, reply := R.AnswerNext(wire, incoming, before, verbs);
    if finished {
      FinishedIsRead(before, reply, verbs, incoming);
    }
  }

  /** A response that is all out: what the client has read. */
  lemma FinishedIsRead(before: seq<Reply>, reply: Reply, verbs: seq<string>, incoming: R.Incoming)
    requires |before| < |verbs| && verbs[|before|] == incoming.verb
    requires R.AllMeet(before, verbs) && R.Meets(reply, incoming.verb) && R.Answers(incoming.job, reply)
    ensures R.ReadSoFar(Texts(before + [reply]), verbs, before, reply, incoming)
  {
    hide R.Meets;
    hide R.Answers;
    hide R.AllMeet;
    hide R.ReadSoFar;
    hide Texts;
    hide ReplyText;
    R.TextsOfMore(before, reply);
    R.AnswerIsPartlyRead(before, reply, ReplyText(reply), verbs, incoming);
  }

  /** Nothing is written for a connection that was handed over, or by a handler that fails. */
  lemma NotAnswered(before: seq<Reply>, verbs: seq<string>, incoming: R.Incoming) returns (reply: Reply)
    requires R.AllMeet(before, verbs) && |before| < |verbs| && verbs[|before|] == incoming.verb
    ensures R.Meets(reply, incoming.verb) && reply.keepAlive == incoming.keepAlive
    ensures R.ReadSoFar(Texts(before), verbs, before, reply, incoming)
  {
    hide R.AllMeet;
    hide R.ReadSoFar;
    hide R.Answers;
    hide Texts;
    hide ReplyText;
    reply := Placeholder(incoming.keepAlive, incoming.verb);
    hide R.Meets;
    R.RepliesAreNotEmpty(reply);
    assert Texts(before) + "" == Texts(before) && "" <= ReplyText(reply);
    R.AnswerIsPartlyRead(before, reply, "", verbs, incoming);
  }

  lemma Placeholder(keepAlive: bool, verb: string) returns (reply: Reply)
    ensures R.Meets(reply, verb) && reply.keepAlive == keepAlive
  {
    MediaTypeIsContentType(JSON);
    reply := Reply(200, JSON, keepAlive, Whole("-"));
    hide IsContentType;
  }

  /** What the handler answers, then `finish`; nothing for a connection that was handed over, and
      perhaps nothing from a handler that failed. */
  method Respond(wire: R.Wire, incoming: R.Incoming, o: Outcome, ghost before: seq<Reply>, ghost verbs: seq<string>)
    returns (finished: bool, ghost reply: Reply)
    requires R.IsIncoming(incoming) && (incoming.job.Download? ==> incoming.job.file.pos == 0)
    requires |before| < |verbs| && verbs[|before|] == incoming.verb
    requires R.AllMeet(before, verbs) && wire.sent == Texts(before) && wire.pending == ""
    modifies wire, R.Touched(incoming.job)
    ensures R.Meets(reply, incoming.verb) && reply.keepAlive == incoming.keepAlive
    ensures finished ==>
              o.ok && !o.hijacked && R.Answers(incoming.job, reply) && wire.sent == Texts(before + [reply]) && wire.pending == ""
    ensures R.ReadSoFar(wire.sent, verbs, before, reply, incoming)
    ensures wire.quiet && R.IsSteady(incoming.job) && o.ok && !o.hijacked ==> finished
  {
    hide ReadAll;
    hide ReplyText;
    hide SeenAll;
    hide Texts;
    hide R.Meets;
    hide R.AllMeet;
    hide R.Answers;
    hide R.ReadSoFar;
    hide R.IsIncoming;
    hide R.IsSteady;
    var silent := *;
    if o.hijacked || (!o.ok && silent) {
      reply := NotAnswered(before, verbs, incoming);
      return false, reply;
    }
    var hijacked;
    finished, hijacked, reply := R.AnswerNext(wire, incoming, before, verbs);
    if finished {
      FinishedIsRead(before, reply, verbs, incoming);
    }
    finished := finished && o.ok;
  }

  /** Routes one request, answers it, and discards what is left of its body. `verbs` are the methods
      of what the client sent, this request included. */
  method Serve(reader: Reader, wire: R.Wire, m: Message, handler: Handler, job: R.Job,
               ghost rest: string, ghost before: seq<Reply>, ghost verbs: seq<string>)
    returns (goesOn: bool, ghost reply: Reply)
    requires reader.Valid() && m.request.bodyConsumed == 0
    requires m.head <= rest && reader.Rest() == rest[|m.head|..]
    requires R.IsIncoming(R.Incoming(m.request.verb, job, m.request.keepAlive)) && (job.Download? ==> job.file.pos == 0)
    requires |before| < |verbs| && verbs[|before|] == m.request.verb
    requires R.AllMeet(before, verbs) && wire.sent == Texts(before) && wire.pending == ""
    modifies reader, wire, R.Touched(job)
    ensures reader.Valid() && old(reader.pos) <= reader.pos
    ensures R.Meets(reply, m.request.verb) && reply.keepAlive == m.request.keepAlive
    ensures goesOn ==>
              && reader.Rest() == Skip(rest, m) && GoesOn(rest, m, handler) && R.Answers(job, reply)
              && wire.sent == Texts(before + [reply]) && wire.pending == ""
    ensures R.ReadSoFar(wire.sent, verbs, before, reply, R.Incoming(m.request.verb, job, m.request.keepAlive))
    ensures reader.quiet && wire.quiet && R.IsSteady(job) && GoesOn(rest, m, handler) ==> goesOn
  {
    hide Skip;
    hide IsServed;
    hide Took;
    hide Texts;
    hide R.Meets;
    hide R.AllMeet;
    hide R.Answers;
    hide R.ReadSoFar;
    hide R.IsIncoming;
    hide R.IsSteady;
    ghost var start := reader.pos;
    BehindBody(reader.input, start, rest, m);
    var o := Route(reader, m.request, handler);
    var finished;
    finished, reply := Respond(wire, R.Incoming(m.request.verb, job, m.request.keepAlive), o, before, verbs);
    if !finished {
      return false, reply;
    }
    goesOn := Discard(reader, m, handler, o.request, rest, start);
  }

  /** A refusal with one of these statuses. */
  ghost predicate IsRefusal(reply: Reply, statuses: set<nat>) {
    !reply.keepAlive && reply.contentType == JSON && reply.status in statuses
  }

  /** The statuses a refusal may have behind the first n messages: 400 if and only if what follows
      them is a head that the parser does not take or is too long for one, and 408 only on a
      connection where a read may fail or be late. */
  ghost function Refusals(input: string, n: nat, parse: Parser, quiet: bool): set<nat> {
    (if IsBad(After(input, n, parse), parse) then {400} else {}) + (if quiet then {} else {408})
  }

  ghost function AsRequests(jobs: seq<R.Job>): (r: seq<R.Incoming>)
    ensures |r| == |jobs| && forall i :: 0 <= i < |jobs| ==> r[i].job == jobs[i]
  {
    seq(|jobs|, i requires 0 <= i < |jobs| => R.Incoming("GET", jobs[i], true))
  }

  function Verbs(messages: seq<Message>): (verbs: seq<string>)
    ensures |verbs| == |messages|
  {
    seq(|messages|, i requires 0 <= i < |messages| => messages[i].request.verb)
  }

  /** The i-th reply is the answer to the i-th request. */
  ghost predicate Match(jobs: seq<R.Job>, dispatched: seq<Message>, replies: seq<Reply>, n: nat)
    requires n <= |jobs| && n <= |dispatched| && n <= |replies|
    reads set i | 0 <= i < n && jobs[i].Download? :: jobs[i].file as object
  {
    forall i :: 0 <= i < n ==> R.Answers(jobs[i], replies[i]) && replies[i].keepAlive == dispatched[i].request.keepAlive
  }

  ghost function FilesBefore(jobs: seq<R.Job>, n: nat): set<object>
    requires n <= |jobs|
  {
    set i | 0 <= i < n && jobs[i].Download? :: jobs[i].file as object
  }

  /** How the two directions of a connection fit together. The client, which sent the dispatched
      requests and perhaps one more with method `unread`, has read at most one response for each
      request, in order, and the i-th is the answer to the i-th request; a response beyond them says
      that the next request could not be read. It reads nothing behind the response to a HEAD
      request; unless that stopped it, only the last request may be without its response. */
  ghost predicate Paired(sent: string, jobs: seq<R.Job>, dispatched: seq<Message>, unread: string, replies: seq<Reply>,
                         refusals: set<nat>)
    requires |dispatched| <= |jobs|
    reads FilesBefore(jobs, |dispatched|)
  {
    var verbs := Verbs(dispatched) + [unread];
    var read, h, n := ReadAll(sent, verbs, ReadHead), R.FirstHead(verbs), |dispatched|;
    && n <= |replies| <= n + 1
    && read <= SeenAll(replies, verbs) && |read| <= h + 1 && (|read| == h + 1 || n <= |read| + 1)
    && Match(jobs, dispatched, replies, Min(|read|, n))
    && (|read| > n ==> IsRefusal(replies[n], refusals))
  }

  /** All answers are out, and the client has read every one of them if and only if no request but
      the last was HEAD. */
  ghost predicate Complete(sent: string, jobs: seq<R.Job>, dispatched: seq<Message>, unread: string, replies: seq<Reply>)
    requires |dispatched| <= |jobs|
    reads FilesBefore(jobs, |dispatched|)
  {
    var n := |dispatched|;
    && n <= |replies| && Match(jobs, dispatched, replies, n) && Texts(replies[..n]) <= sent
    && (n <= |ReadAll(sent, Verbs(dispatched) + [unread], ReadHead)| <==> R.NoneBeforeLast(Verbs(dispatched)))
  }

  lemma MeetWithMore(replies: seq<Reply>, verbs: seq<string>, more: seq<string>)
    requires R.AllMeet(replies, verbs) && |replies| <= |verbs|
    ensures R.AllMeet(replies, verbs + more)
  {
    hide R.Meets;
    forall i | 0 <= i < |replies| ensures VerbAt(verbs + more, i) == VerbAt(verbs, i) {
    }
  }

  lemma AllAnswered(sent: string, jobs: seq<R.Job>, dispatched: seq<Message>, unread: string, replies: seq<Reply>,
                    refusals: set<nat>)
    requires |dispatched| == |replies| <= |jobs| && R.AllMeet(replies, Verbs(dispatched)) && sent == Texts(replies)
    requires Match(jobs, dispatched, replies, |dispatched|)
    ensures Paired(sent, jobs, dispatched, unread, replies, refusals) && Complete(sent, jobs, dispatched, unread, replies)
  {
    hide ReadAll;
    hide SeenAll;
    hide R.Meets;
    hide R.Answers;
    hide R.FirstHead;
    hide R.NoneBeforeLast;
    hide Texts;
    var verbs := Verbs(dispatched) + [unread];
    MeetWithMore(replies, Verbs(dispatched), [unread]);
    R.AllAreRead(replies, verbs);
    R.HeadBeforeLast(verbs, |replies|);
    assert verbs[..|replies|] == Verbs(dispatched) && replies[..|dispatched|] == replies;
    hide R.AllMeet;
    hide Verbs;
  }

  lemma OneMoreMatch(jobs: seq<R.Job>, dispatched: seq<Message>, replies: seq<Reply>, m: Message, reply: Reply)
    requires |dispatched| == |replies| < |jobs| && Match(jobs, dispatched, replies, |dispatched|)
    requires R.Answers(jobs[|dispatched|], reply) && reply.keepAlive == m.request.keepAlive
    ensures Match(jobs, dispatched + [m], replies + [reply], |dispatched| + 1)
  {
    hide R.Answers;
  }

  lemma StillMatch(jobs: seq<R.Job>, dispatched: seq<Message>, more: seq<Message>, replies: seq<Reply>, reply: Reply, n: nat)
    requires |dispatched| == |replies| <= |jobs| && Match(jobs, dispatched, replies, |dispatched|) && n <= |dispatched|
    ensures Match(jobs, dispatched + more, replies + [reply], n)
  {
    hide R.Answers;
  }

  lemma LastAnswered(sent: string, jobs: seq<R.Job>, dispatched: seq<Message>, unread: string, replies: seq<Reply>,
                     m: Message, reply: Reply, refusals: set<nat>)
    requires |dispatched| == |replies| < |jobs| && Match(jobs, dispatched, replies, |dispatched|)
    requires reply.keepAlive == m.request.keepAlive
    requires R.ReadSoFar(sent, Verbs(dispatched + [m]) + [unread], replies, reply,
                         R.Incoming(m.request.verb, jobs[|dispatched|], m.request.keepAlive))
    ensures Paired(sent, jobs, dispatched + [m], unread, replies + [reply], refusals)
  {
    hide ReadAll;
    hide R.Answers;
    hide Match;
    hide R.FirstHead;
    hide SeenAll;
    var verbs := Verbs(dispatched + [m]) + [unread];
    var read, n := ReadAll(sent, verbs, ReadHead), |dispatched|;
    R.LastIsRead(sent, verbs, replies, reply, R.Incoming(m.request.verb, jobs[n], m.request.keepAlive));
    hide Verbs;
    hide R.ReadSoFar;
    if |read| <= n {
      StillMatch(jobs, dispatched, [m], replies, reply, |read|);
    } else {
      OneMoreMatch(jobs, dispatched, replies, m, reply);
    }
  }

  lemma Refused(sent: string, jobs: seq<R.Job>, dispatched: seq<Message>, unread: string, replies: seq<Reply>,
                reply: Reply, status: nat, why: string, refusals: set<nat>)
    requires |dispatched| == |replies| <= |jobs| && Match(jobs, dispatched, replies, |dispatched|)
    requires status in refusals && !reply.keepAlive && Texts(replies) <= sent
    requires R.ReadSoFar(sent, Verbs(dispatched) + [unread], replies, reply, R.Incoming(unread, RefusalJob(status, why), false))
    ensures Paired(sent, jobs, dispatched, unread, replies + [reply], refusals)
    ensures Complete(sent, jobs, dispatched, unread, replies + [reply])
  {
    hide ReadAll;
    hide Match;
    hide R.FirstHead;
    hide R.NoneBeforeLast;
    hide SeenAll;
    hide Texts;
    var verbs := Verbs(dispatched) + [unread];
    var n := |dispatched|;
    R.LengthsAgree(replies, verbs);
    R.LengthsAgree(replies + [reply], verbs);
    R.LastIsRead(sent, verbs, replies, reply, R.Incoming(unread, RefusalJob(status, why), false));
    R.HeadBeforeLast(verbs, n);
    assert verbs[..n] == Verbs(dispatched) && (replies + [reply])[..n] == replies;
    hide Verbs;
    assert dispatched + [] == dispatched;
    StillMatch(jobs, dispatched, [], replies, reply, n);
    StillMatch(jobs, dispatched, [], replies, reply, Min(|ReadAll(sent, verbs, ReadHead)|, n));
  }

  /** The server's `route` has only errors and the proxy for HEAD. */
  ghost predicate HeadsAreRefused(messages: seq<Message>, jobs: seq<R.Job>) {
    forall i :: 0 <= i < |messages| && i < |jobs| && messages[i].request.verb == "HEAD" ==> R.IsHeadAnswer(jobs[i])
  }

  lemma RequestIsIncoming(input: string, parse: Parser, before: seq<Message>, m: Message, jobs: seq<R.Job>)
    requires AreFirst(input, parse, before + [m]) && HeadsAreRefused(Messages(input, parse), jobs)
    requires |before| < |jobs| && R.IsJob(jobs[|before|])
    ensures R.IsIncoming(R.Incoming(m.request.verb, jobs[|before|], m.request.keepAlive))
  {
    hide Messages;
    hide R.IsJob;
    hide R.IsHeadAnswer;
    assert m == Messages(input, parse)[|before|];
  }

  /** The methods of what the client sent, once one more request is read. */
  lemma VerbsWithMore(dispatched: seq<Message>, m: Message, unread: string, replies: seq<Reply>) returns (verbs: seq<string>)
    requires |replies| == |dispatched| && R.AllMeet(replies, Verbs(dispatched))
    ensures verbs == Verbs(dispatched + [m]) + [unread] && Verbs(dispatched + [m]) == Verbs(dispatched) + [m.request.verb]
    ensures |replies| < |verbs| && verbs[|replies|] == m.request.verb && R.AllMeet(replies, verbs)
  {
    verbs := Verbs(dispatched) + ([m.request.verb] + [unread]);
    MeetWithMore(replies, Verbs(dispatched), [m.request.verb] + [unread]);
    hide R.AllMeet;
    assert Verbs(dispatched + [m]) == Verbs(dispatched) + [m.request.verb];
  }

  /** What is said when no further request could be read: an error of status 400 to a head that is
      bad, one of status 408 to a head that is late, and nothing otherwise. */
  method Goodbye(wire: R.Wire, got: Result<Option<Message>, IoError>, ghost jobs: seq<R.Job>, ghost dispatched: seq<Message>,
                 unread: string, ghost before: seq<Reply>, ghost refusals: set<nat>)
    returns (ghost replies: seq<Reply>)
    requires |dispatched| == |before| <= |jobs| && Match(jobs, dispatched, before, |dispatched|)
    requires R.AllMeet(before, Verbs(dispatched)) && wire.sent == Texts(before) && wire.pending == ""
    requires got.Err? && (got.error.TooLarge? || got.error.BadHead?) ==> 400 in refusals
    requires got.Err? && got.error.TimedOut? ==> 408 in refusals
    modifies wire
    ensures Paired(wire.sent, jobs, dispatched, unread, replies, refusals)
    ensures Complete(wire.sent, jobs, dispatched, unread, replies)
    ensures got.Err? && (got.error.TooLarge? || got.error.BadHead?) ==> Ends(wire.sent, before, replies, 400, wire.quiet)
    ensures got.Err? && got.error.TimedOut? ==> Ends(wire.sent, before, replies, 408, wire.quiet)
    ensures got.Ok? || got.error.UnexpectedEof? || got.error.Broken? ==> replies == before && wire.sent == Texts(before)
  {
    hide Match;
    hide R.AllMeet;
    hide Paired;
    hide Complete;
    hide R.ReadSoFar;
    hide Texts;
    replies := before;
    var status := if got.Err? then ErrorStatus(got.error) else None;
    if status.None? {
      AllAnswered(wire.sent, jobs, dispatched, unread, before, refusals);
      return;
    }
    assert IsErrorText("{}");
    var why: string :| IsErrorText(why);
    ghost var verbs := Verbs(dispatched) + [unread];
    MeetWithMore(before, Verbs(dispatched), [unread]);
    ghost var reply := Refuse(wire, status.value, why, unread, before, verbs);
    Refused(wire.sent, jobs, dispatched, unread, before, reply, status.value, why, refusals);
    replies := before + [reply];
  }

  /** One more reply, a refusal of this status, and all of it is out if nothing fails. */
  ghost predicate Ends(sent: string, before: seq<Reply>, replies: seq<Reply>, status: nat, quiet: bool) {
    && |replies| == |before| + 1 && before == replies[..|before|] && !replies[|before|].keepAlive
    && (quiet ==> sent == Texts(replies) && IsRefusal(replies[|before|], {status}))
  }

  /** All replies are out: one to each request, and a refusal if and only if a bad head follows. */
  ghost predicate AllSaid(sent: string, replies: seq<Reply>, input: string, n: nat, parse: Parser) {
    sent == Texts(replies) && |replies| == n + if IsBad(After(input, n, parse), parse) then 1 else 0
  }

  /** The end of the loop. */
  method Conclude(wire: R.Wire, got: Result<Option<Message>, IoError>, ghost input: string, ghost parse: Parser,
                  ghost quiet: bool, ghost rest: string, ghost jobs: seq<R.Job>, ghost dispatched: seq<Message>,
                  unread: string, ghost before: seq<Reply>)
    returns (ghost replies: seq<Reply>)
    requires |dispatched| == |before| <= |jobs| && Match(jobs, dispatched, before, |dispatched|)
    requires R.AllMeet(before, Verbs(dispatched)) && wire.sent == Texts(before) && wire.pending == ""
    requires UpTo(input, parse, dispatched, rest) && Explains(got, rest, parse, quiet)
    modifies wire
    ensures Paired(wire.sent, jobs, dispatched, unread, replies, Refusals(input, |dispatched|, parse, quiet))
    ensures Complete(wire.sent, jobs, dispatched, unread, replies)
    ensures quiet && wire.quiet ==> AllSaid(wire.sent, replies, input, |dispatched|, parse)
  {
    hide Match;
    hide R.AllMeet;
    hide Paired;
    hide Complete;
    hide Texts;
    hide IsBad;
    hide After;
    hide Messages;
    hide IsRefusal;
    replies := Goodbye(wire, got, jobs, dispatched, unread, before, Refusals(input, |dispatched|, parse, quiet));
  }

  lemma Next(input: string, parse: Parser, before: seq<Message>, rest: string, m: Message)
    requires UpTo(input, parse, before, rest) && First(rest, parse) == Some(m)
    ensures m.head <= rest && parse(m.head) == Ok(m.request)
    ensures UpTo(input, parse, before + [m], Skip(rest, m)) && AreFirst(input, parse, before + [m])
  {
    hide First;
    hide Skip;
    hide After;
    hide Messages;
    Dispatched(input, parse, before, rest, m);
  }

  lemma FirstIsFresh(rest: string, parse: Parser, m: Message)
    requires First(rest, parse) == Some(m)
    requires forall head :: parse(head).Ok? ==> parse(head).value.bodyConsumed == 0
    ensures m.head <= rest && m.request.bodyConsumed == 0
  {
    assert parse(m.head) == Ok(m.request);
  }

  /** The files of the jobs from the n-th on are as they were opened. */
  ghost predicate Untouched(jobs: seq<R.Job>, n: nat)
    reads R.FilesOf(AsRequests(jobs))
  {
    forall i :: n <= i < |jobs| && jobs[i].Download? ==> jobs[i].file.pos == 0
  }

  lemma OthersUntouched(jobs: seq<R.Job>, n: nat, wire: R.Wire)
    requires n < |jobs| && R.OwnFiles(AsRequests(jobs)) && Untouched(jobs, n)
    ensures R.Touched(jobs[n]) <= R.FilesOf(AsRequests(jobs)) && (jobs[n].Download? ==> jobs[n].file.pos == 0)
    ensures FilesBefore(jobs, n) !! R.Touched(jobs[n])
    ensures forall i :: n < i < |jobs| && jobs[i].Download? ==> jobs[i].file !in R.Touched(jobs[n])
  {
    R.TouchesItsFile(AsRequests(jobs), n, wire);
  }

  /** One round of the loop, once the request is read: it is served, and the books are kept. */
  method Attend(reader: Reader, wire: R.Wire, parse: Parser, handlers: Handlers, jobs: seq<R.Job>, unread: string,
                dispatched: seq<Message>, m: Message, ghost rest: string, ghost replies: seq<Reply>, ghost refusals: set<nat>)
    returns (goesOn: bool, ghost reply: Reply)
    requires reader.Valid() && First(rest, parse) == Some(m) && m.head <= rest && reader.Rest() == rest[|m.head|..]
    requires m.request.bodyConsumed == 0 && UpTo(reader.input, parse, dispatched, rest)
    requires |dispatched| == |replies| < |jobs| && R.OwnFiles(AsRequests(jobs)) && Untouched(jobs, |dispatched|)
    requires R.IsJob(jobs[|dispatched|]) && HeadsAreRefused(Messages(reader.input, parse), jobs)
    requires R.AllMeet(replies, Verbs(dispatched)) && wire.sent == Texts(replies) && wire.pending == ""
    requires Match(jobs, dispatched, replies, |dispatched|) && WentOn(reader.input, parse, handlers, |dispatched|)
    modifies reader, wire, R.FilesOf(AsRequests(jobs))
    ensures reader.Valid() && old(reader.pos) <= reader.pos && AreFirst(reader.input, parse, dispatched + [m])
    ensures goesOn ==>
              && UpTo(reader.input, parse, dispatched + [m], reader.Rest()) && Untouched(jobs, |dispatched| + 1)
              && R.AllMeet(replies + [reply], Verbs(dispatched + [m]))
              && wire.sent == Texts(replies + [reply]) && wire.pending == ""
              && Match(jobs, dispatched + [m], replies + [reply], |dispatched| + 1)
              && WentOn(reader.input, parse, handlers, |dispatched| + 1)
    ensures !goesOn ==> Paired(wire.sent, jobs, dispatched + [m], unread, replies + [reply], refusals)
    ensures !goesOn && reader.quiet && wire.quiet && R.IsSteady(jobs[|dispatched|]) ==>
              && AreAll(reader.input, parse, handlers, dispatched + [m])
              && !WentOn(reader.input, parse, handlers, |dispatched| + 1)
  {
    hide ReplyText;
    hide R.Meets;
    hide R.IsJob;
    hide R.IsSteady;
    hide R.IsIncoming;
    hide R.AllMeet;
    hide R.Answers;
    hide R.ReadSoFar;
    hide UpTo;
    hide AreFirst;
    hide Paired;
    hide WentOn;
    hide AreAll;
    hide Match;
    hide Texts;
    hide First;
    hide Skip;
    hide After;
    hide Messages;
    hide Verbs;
    hide GoesOn;
    hide HeadsAreRefused;
    hide R.OwnFiles;
    Next(reader.input, parse, dispatched, rest, m);
    OthersUntouched(jobs, |dispatched|, wire);
    RequestIsIncoming(reader.input, parse, dispatched, m, jobs);
    OneMoreServed(reader.input, parse, handlers, dispatched, rest, m);
    ghost var verbs := VerbsWithMore(dispatched, m, unread, replies);
    goesOn, reply := Serve(reader, wire, m, handlers(|dispatched|), jobs[|dispatched|], rest, replies, verbs);
    if goesOn {
      OneMoreMatch(jobs, dispatched, replies, m, reply);
      R.AllMeetMore(replies, Verbs(dispatched), reply, m.request.verb);
    } else {
      LastAnswered(wire.sent, jobs, dispatched, unread, replies, m, reply, refusals);
    }
  }

  /** The loop goes on behind these requests: each was answered, and nothing else was done yet. */
  ghost predicate Going(reader: Reader, wire: R.Wire, parse: Parser, handlers: Handlers, jobs: seq<R.Job>,
                        dispatched: seq<Message>, replies: seq<Reply>)
    reads reader, wire, R.FilesOf(AsRequests(jobs))
  {
    && reader.Valid() && |dispatched| == |replies| <= reader.pos && |reader.input| < |jobs|
    && AreFirst(reader.input, parse, dispatched) && UpTo(reader.input, parse, dispatched, reader.Rest())
    && R.AllMeet(replies, Verbs(dispatched)) && wire.sent == Texts(replies) && wire.pending == ""
    && Untouched(jobs, |dispatched|) && Match(jobs, dispatched, replies, |dispatched|)
    && WentOn(reader.input, parse, handlers, |dispatched|)
  }

  /** What can be said of a connection when it is over. */
  ghost predicate Over(reader: Reader, wire: R.Wire, parse: Parser, handlers: Handlers, jobs: seq<R.Job>,
                       dispatched: seq<Message>, unread: string, replies: seq<Reply>)
    reads reader, wire, R.FilesOf(AsRequests(jobs))
  {
    var n := |dispatched|;
    && AreFirst(reader.input, parse, dispatched) && n <= |jobs|
    && Paired(wire.sent, jobs, dispatched, unread, replies, Refusals(reader.input, n, parse, reader.quiet))
    && (n > 0 ==> WentOn(reader.input, parse, handlers, n - 1))
    && (reader.quiet && wire.quiet && (forall i :: 0 <= i < |jobs| ==> R.IsSteady(jobs[i])) ==>
          && AreAll(reader.input, parse, handlers, dispatched)
          && (WentOn(reader.input, parse, handlers, n) ==>
                && Complete(wire.sent, jobs, dispatched, unread, replies)
                && AllSaid(wire.sent, replies, reader.input, n, parse)))
  }

  /** One round of the loop. */
  method Round(reader: Reader, wire: R.Wire, parse: Parser, handlers: Handlers, jobs: seq<R.Job>, unread: string,
               dispatched: seq<Message>, ghost replies: seq<Reply>)
    returns (served: Option<Message>, goesOn: bool, ghost now: seq<Reply>)
    requires Going(reader, wire, parse, handlers, jobs, dispatched, replies)
    requires forall head :: parse(head).Ok? ==> parse(head).value.bodyConsumed == 0
    requires R.OwnFiles(AsRequests(jobs)) && (forall i :: 0 <= i < |jobs| ==> R.IsJob(jobs[i]))
    requires HeadsAreRefused(Messages(reader.input, parse), jobs)
    modifies reader, wire, R.FilesOf(AsRequests(jobs))
    ensures goesOn ==>
              && Going(reader, wire, parse, handlers, jobs, dispatched + Taken(served), now)
              && old(reader.pos) < reader.pos <= |reader.input|
    ensures !goesOn ==> Over(reader, wire, parse, handlers, jobs, dispatched + Taken(served), unread, now)
  {
    hide ReplyText;
    hide R.Meets;
    hide R.IsJob;
    hide R.IsSteady;
    hide R.OwnFiles;
    hide R.AllMeet;
    hide R.Answers;
    hide R.ReadSoFar;
    hide R.IsIncoming;
    hide UpTo;
    hide AreFirst;
    hide Paired;
    hide Complete;
    hide WentOn;
    hide AreAll;
    hide Match;
    hide Texts;
    hide First;
    hide Verbs;
    hide GoesOn;
    hide HeadsAreRefused;
    hide Messages;
    hide After;
    hide Skip;
    hide IsBad;
    hide Refusals;
    hide AllSaid;
    hide Explains;
    hide Untouched;
    ghost var rest := reader.Rest();
    ghost var start := reader.pos;
    var got := reader.ReadRequest(parse);
    if got.Err? || got.value.None? {
      EndOfRequests(reader.input, parse, handlers, dispatched, rest, reader.quiet);
      now := Conclude(wire, got, reader.input, parse, reader.quiet, rest, jobs, dispatched, unread, replies);
      assert dispatched + Taken(None) == dispatched;
      return None, false, now;
    }
    var m := got.value.value;
    FirstIsFresh(rest, parse, m);
    WentOnBefore(reader.input, parse, handlers, |dispatched|);
    ghost var refusals := Refusals(reader.input, |dispatched| + 1, parse, reader.quiet);
    ghost var reply;
    goesOn, reply := Attend(reader, wire, parse, handlers, jobs, unread, dispatched, m, rest, replies, refusals);
    served, now := Some(m), replies + [reply];
  }

  /** A whole connection, whatever its bytes, whatever the handlers do and wherever it breaks; the
      i-th request is for the i-th handler and the i-th job, and `unread` is the method of a request
      that cannot be read. The requests dispatched are the first of the stream's messages, and the
      responses that the client reads are paired with them. If nothing fails they are all of them up
      to the first behind which the connection does not go on; and if it goes on behind each, all are
      answered, and a refusal follows if and only if a bad head does. */
  method HandleConnection(reader: Reader, wire: R.Wire, parse: Parser, handlers: Handlers, jobs: seq<R.Job>, unread: string)
    returns (dispatched: seq<Message>, ghost replies: seq<Reply>)
    requires reader.Valid() && reader.pos == 0 && wire.sent == "" && wire.pending == ""
    requires forall head :: parse(head).Ok? ==> parse(head).value.bodyConsumed == 0
    requires |jobs| > |reader.input| && R.OwnFiles(AsRequests(jobs))
    requires forall i :: 0 <= i < |jobs| ==> R.IsJob(jobs[i]) && (jobs[i].Download? ==> jobs[i].file.pos == 0)
    requires HeadsAreRefused(Messages(reader.input, parse), jobs)
    modifies reader, wire, R.FilesOf(AsRequests(jobs))
    ensures AreFirst(reader.input, parse, dispatched) && |dispatched| <= |jobs|
    ensures Paired(wire.sent, jobs, dispatched, unread, replies, Refusals(reader.input, |dispatched|, parse, reader.quiet))
    ensures dispatched != [] ==> WentOn(reader.input, parse, handlers, |dispatched| - 1)
    ensures reader.quiet && wire.quiet && (forall i :: 0 <= i < |jobs| ==> R.IsSteady(jobs[i])) ==>
              && AreAll(reader.input, parse, handlers, dispatched)
              && (WentOn(reader.input, parse, handlers, |dispatched|) ==>
                    && Complete(wire.sent, jobs, dispatched, unread, replies)
                    && AllSaid(wire.sent, replies, reader.input, |dispatched|, parse))
  {
    StartOfStream(reader.input, parse);
    NoneYet(reader.input, parse, handlers);
    R.NothingYet(Verbs([]));
    dispatched, replies := [], [];
    hide First;
    hide Messages;
    hide After;
    hide GoesOn;
    assert Going(reader, wire, parse, handlers, jobs, dispatched, replies);
    hide Going;
    while true
      invariant reader.pos <= |reader.input| && Going(reader, wire, parse, handlers, jobs, dispatched, replies)
      decreases |reader.input| - reader.pos
    {
      var served, goesOn;
      served, goesOn, replies := Round(reader, wire, parse, handlers, jobs, unread, dispatched, replies);
      dispatched := dispatched + Taken(served);
      if !goesOn {
        return;
      }
    }
  }
}
