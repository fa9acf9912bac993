/** What the segmentation of a connection's bytes means. */
module FramingFacts {
  import opened Wrappers
  import opened Text
  import opened Http
  import opened Framing

  /** A complete message: a head whose only blank line is at its end, and a body as long as the
      head says. */
  ghost predicate IsMessage(m: Message, body: string, parse: Parser) {
    && IsHead(m.head, |m.head|)
    && parse(m.head) == Ok(m.request)
    && |body| == m.request.contentLength
  }

  function Bytes(messages: seq<Message>, bodies: seq<string>): string
    requires |messages| == |bodies|
  {
    if messages == [] then "" else messages[0].head + bodies[0] + Bytes(messages[1..], bodies[1..])
  }

  lemma HeadStandsFirst(head: string, rest: string)
    requires IsHead(head, |head|)
    ensures IsHead(head + rest, |head|)
  {
    var s := head + rest;
    forall j: nat | j < |head| - 4 ensures !At(s, BLANK, j) {
      PrefixAt(head, s, BLANK, j);
    }
    PrefixAt(head, s, BLANK, |head| - 4);
    FoundAt(s, BLANK, |head| - 4);
  }

  lemma FirstOfMessage(m: Message, tail: string, parse: Parser)
    requires IsHead(m.head, |m.head|) && parse(m.head) == Ok(m.request)
    ensures First(m.head + tail, parse) == Some(m)
  {
    HeadStandsFirst(m.head, tail);
    assert (m.head + tail)[..|m.head|] == m.head;
  }

  lemma CompleteMessage(m: Message, body: string, tail: string, parse: Parser)
    requires IsMessage(m, body, parse)
    ensures Messages(m.head + (body + tail), parse) == [m] + Messages(tail, parse)
  {
    var s := m.head + (body + tail);
    FirstOfMessage(m, body + tail, parse);
    OneMessage(s, m, parse);
    assert Skip(s, m) == tail;
  }

  ghost predicate AreMessages(messages: seq<Message>, bodies: seq<string>, parse: Parser) {
    |messages| == |bodies|
    && (messages == [] || (IsMessage(messages[0], bodies[0], parse) && AreMessages(messages[1..], bodies[1..], parse)))
  }

  lemma RegroupFour<T>(a: seq<T>, b: seq<T>, c: seq<T>, d: seq<T>)
    ensures (a + b + c) + d == a + (b + (c + d))
  {
  }

  lemma OneMoreMessage(m: Message, body: string, later: string, rest: string, messages: seq<Message>, parse: Parser)
    requires IsMessage(m, body, parse)
    requires Messages(later + rest, parse) == messages + Messages(rest, parse)
    ensures Messages((m.head + body + later) + rest, parse) == ([m] + messages) + Messages(rest, parse)
  {
    RegroupFour(m.head, body, later, rest);
    RegroupFour([m], messages, [], Messages(rest, parse));
    assert [m] + messages + [] == [m] + messages;
    assert [] + Messages(rest, parse) == Messages(rest, parse);
    var tail := later + rest;
    assert Messages(m.head + (body + tail), parse) == [m] + Messages(tail, parse) by {
      CompleteMessage(m, body, tail, parse);
    }
  }

  /** The segmentation is the only one: however bytes are cut into complete messages, these are
      the messages found, and what follows them is segmented by itself. */
  lemma {:induction false} SegmentationIsUnique(messages: seq<Message>, bodies: seq<string>, rest: string, parse: Parser)
    requires AreMessages(messages, bodies, parse)
    ensures Messages(Bytes(messages, bodies) + rest, parse) == messages + Messages(rest, parse)
    decreases |messages|
  {
    if messages == [] {
      assert Bytes(messages, bodies) + rest == rest;
    } else {
      SegmentationIsUnique(messages[1..], bodies[1..], rest, parse);
      OneMoreMessage(messages[0], bodies[0], Bytes(messages[1..], bodies[1..]), rest, messages[1..], parse);
      assert messages == [messages[0]] + messages[1..];
    }
  }

  /** And nothing is left over but what is no complete message: what follows the last message
      whose body is there does not begin with a head, or is empty. */
  lemma {:induction false} NothingIsSkipped(s: string, parse: Parser)
    ensures First(After(s, |Messages(s, parse)|, parse), parse) == None
    decreases |s|
  {
    var first := First(s, parse);
    if first.Some? {
      OneMessage(s, first.value, parse);
      NothingIsSkipped(Skip(s, first.value), parse);
      SkipOne(s, first.value, |Messages(Skip(s, first.value), parse)|, parse);
    }
  }

  lemma SkipOne(s: string, m: Message, n: nat, parse: Parser)
    requires First(s, parse) == Some(m) && First(After(Skip(s, m), n, parse), parse) == None
    ensures First(After(s, n + 1, parse), parse) == None
  {
    hide First;
    hide After;
    AfterSkip(s, m, n, parse);
  }

  lemma {:induction false} AfterSkip(s: string, m: Message, n: nat, parse: Parser)
    requires First(s, parse) == Some(m)
    ensures After(s, n + 1, parse) == After(Skip(s, m), n, parse)
    decreases n
  {
    if n > 0 {
      AfterSkip(s, m, n - 1, parse);
    }
  }
}
