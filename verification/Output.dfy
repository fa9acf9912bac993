/** A foreground command's output on its way to the client (src/exec.rs: `spawn_reader`,
    `drain_output_readers`, `wait_and_report`, `handle_exec`, `stream_events`).

    Two pipe readers and the wait thread send into one bounded queue, the connection's thread
    receives and writes to the client. One step is one read, one send, one receive with the write
    that follows it, or one timeout; a write that fails ends the stream and drops the receiver.
    `log` on a reader records everything it ever read. */
module Output {

  type Chunk = string

  datatype Pipe = Stdout | Stderr

  datatype Item = Start | Ping | Out(pipe: Pipe, data: Chunk) | Exit

  datatype Hand = Reading | Holding(data: Chunk) | Closing | Done

  datatype Reader = Reader(hand: Hand, log: seq<Chunk>)

  /** The wait thread, after the child was reaped. */
  datatype Waiter = Draining(got: nat) | Sending | Gone

  /** The connection's thread: about to write the start event, streaming, or returned. */
  datatype Client = Starting | Streaming | Ended

  datatype State = State(
    readers: map<Pipe, Reader>,
    doneSignals: nat,            // done signals sent and not received
    waiter: Waiter,
    sawBoth: bool,               // the drain received both done signals
    queue: seq<Item>,
    connected: bool,             // the receiver exists
    client: Client,
    stream: seq<Item>)           // what the client got

  const QUEUE: nat := 64

  datatype Step =
    | Read(i: Pipe, data: Chunk)
    | Eof(i: Pipe)
    | Send(i: Pipe)
    | SignalDone(i: Pipe)
    | DrainReceive
    | DrainTimeout
    | SendExit
    | WriteStart(ok: bool)
    | Receive(ok: bool)
    | PingTimeout(ok: bool)
    | Disconnected

  function With(s: State, i: Pipe, hand: Hand): map<Pipe, Reader>
    requires i in s.readers
  {
    s.readers[i := s.readers[i].(hand := hand)]
  }

  ghost predicate Does(s: State, step: Step, s': State) {
    match step
    case Read(i, data) =>
      && i in s.readers && s.readers[i].hand.Reading?
      && s' == s.(readers := s.readers[i := Reader(Holding(data), s.readers[i].log + [data])])
    case Eof(i) =>
      && i in s.readers && s.readers[i].hand.Reading?
      && s' == s.(readers := With(s, i, Closing))
    case Send(i) =>
      && i in s.readers && s.readers[i].hand.Holding?
      && (if s.connected then
            && |s.queue| < QUEUE
            && s' == s.(readers := With(s, i, Reading), queue := s.queue + [Out(i, s.readers[i].hand.data)])
          else s' == s.(readers := With(s, i, Closing)))
    case SignalDone(i) =>
      && i in s.readers && s.readers[i].hand.Closing?
      && s' == s.(readers := With(s, i, Done), doneSignals := s.doneSignals + 1)
    case DrainReceive =>
      && s.waiter.Draining? && s.doneSignals > 0
      && s' == s.(doneSignals := s.doneSignals - 1, sawBoth := s.waiter.got == 1,
                  waiter := if s.waiter.got == 1 then Sending else Draining(s.waiter.got + 1))
    case DrainTimeout =>
      && s.waiter.Draining?
      && s' == s.(waiter := Sending)
    case SendExit =>
      && s.waiter.Sending?
      && (if s.connected then
            && |s.queue| < QUEUE
            && s' == s.(waiter := Gone, queue := s.queue + [Exit])
          else s' == s.(waiter := Gone))
    case WriteStart(ok) =>
      && s.client.Starting?
      && s' == (if ok then s.(client := Streaming, stream := s.stream + [Start])
                else s.(client := Ended, connected := false))
    case Receive(ok) =>
      && s.client.Streaming? && s.queue != []
      && s' == (if !ok then s.(client := Ended, connected := false, queue := s.queue[1..])
                else if s.queue[0].Exit? then
                  s.(client := Ended, connected := false, queue := s.queue[1..], stream := s.stream + [Exit])
                else s.(queue := s.queue[1..], stream := s.stream + [s.queue[0]]))
    case PingTimeout(ok) =>
      && s.client.Streaming?
      && s' == (if ok then s.(stream := s.stream + [Ping]) else s.(client := Ended, connected := false))
    case Disconnected =>
      // every sender is gone and the queue is empty
      && s.client.Streaming? && s.queue == [] && s.waiter.Gone?
      && (forall i :: i in s.readers ==> s.readers[i].hand.Done?)
      && s' == s.(client := Ended, connected := false)
  }

  ghost predicate Init(s: State) {
    && s.readers == map[Stdout := Reader(Reading, []), Stderr := Reader(Reading, [])]
    && s.doneSignals == 0 && s.waiter == Draining(0) && !s.sawBoth
    && s.queue == [] && s.connected && s.client.Starting? && s.stream == []
  }

  ghost predicate Run(states: seq<State>, steps: seq<Step>) {
    && |states| == |steps| + 1 && Init(states[0])
    && forall i :: 0 <= i < |steps| ==> Does(states[i], steps[i], states[i + 1])
  }

  /** The chunks of one pipe among some items, in order. */
  function Chunks(i: Pipe, items: seq<Item>): seq<Chunk> {
    if items == [] then []
    else
      var rest := Chunks(i, items[1..]);
      if items[0].Out? && items[0].pipe == i then [items[0].data] + rest else rest
  }

  function Held(r: Reader): seq<Chunk> {
    if r.hand.Holding? then [r.hand.data] else []
  }

  function IsDone(s: State, i: Pipe): nat {
    if i in s.readers && s.readers[i].hand.Done? then 1 else 0
  }

  // ---- what every step keeps -------------------------------------------------------------

  /** Every chunk read is with the client, in the queue, or in the reader's hand. */
  ghost predicate NothingLost(s: State) {
    && (forall i: Pipe :: i in s.readers)
    && (s.connected ==>
          forall i :: i in s.readers ==> Chunks(i, s.stream + s.queue) + Held(s.readers[i]) == s.readers[i].log)
    && (forall i :: i in s.readers ==> Chunks(i, s.stream) <= s.readers[i].log)
  }

  /** The drain counts done signals, and no reader sends after its signal. */
  ghost predicate SignalsCounted(s: State) {
    && (s.waiter.Draining? ==> !s.sawBoth && s.waiter.got <= 1
                               && s.waiter.got + s.doneSignals == IsDone(s, Stdout) + IsDone(s, Stderr))
    && (s.sawBoth ==> IsDone(s, Stdout) == 1 && IsDone(s, Stderr) == 1)
  }

  function Exits(items: seq<Item>): nat {
    if items == [] then 0 else (if items[0].Exit? then 1 else 0) + Exits(items[1..])
  }

  /** One Exit at most, after the drain, and it is the last thing the client gets. */
  ghost predicate ExitOnce(s: State) {
    && Exits(s.stream + s.queue) <= (if s.waiter.Gone? then 1 else 0)
    && (s.connected ==> Exits(s.stream) == 0 && Exits(s.stream + s.queue) == (if s.waiter.Gone? then 1 else 0))
    && (s.connected <==> !s.client.Ended?)
    && (s.client.Starting? ==> s.stream == [])
    && (s.client.Streaming? ==> s.stream != [])
    && (s.stream != [] ==> s.stream[0] == Start && Exits(s.stream[..|s.stream| - 1]) == 0)
    && (s.connected && s.sawBoth && s.waiter.Gone? ==> s.queue != [] && s.queue[|s.queue| - 1] == Exit)
  }

  /** What is true of a finished stream that ends in Exit. */
  ghost predicate Complete(s: State) {
    s.sawBoth && s.stream != [] && s.stream[|s.stream| - 1] == Exit ==>
      forall i :: i in s.readers ==> Chunks(i, s.stream) == s.readers[i].log
  }

  ghost predicate Inv(s: State) {
    NothingLost(s) && SignalsCounted(s) && ExitOnce(s) && Complete(s)
  }

  lemma {:induction false} ChunksAppend(i: Pipe, a: seq<Item>, b: seq<Item>)
    ensures Chunks(i, a + b) == Chunks(i, a) + Chunks(i, b)
  {
    if a == [] {
      assert a + b == b;
    } else {
      assert (a + b)[1..] == a[1..] + b;
      ChunksAppend(i, a[1..], b);
    }
  }

  lemma {:induction false} ExitsAppend(a: seq<Item>, b: seq<Item>)
    ensures Exits(a + b) == Exits(a) + Exits(b)
  {
    if a == [] {
      assert a + b == b;
    } else {
      assert (a + b)[1..] == a[1..] + b;
      ExitsAppend(a[1..], b);
    }
  }

  lemma AppendOne(items: seq<Item>, e: Item)
    ensures forall i: Pipe :: Chunks(i, items + [e]) == Chunks(i, items) + (if e.Out? && e.pipe == i then [e.data] else [])
    ensures Exits(items + [e]) == Exits(items) + (if e.Exit? then 1 else 0)
  {
    forall i: Pipe ensures Chunks(i, items + [e]) == Chunks(i, items) + (if e.Out? && e.pipe == i then [e.data] else []) {
      ChunksAppend(i, items, [e]);
    }
    ExitsAppend(items, [e]);
  }

  lemma PipesAreTwo(i: Pipe)
    ensures i == Stdout || i == Stderr
  {
  }

  // ---- the pipe readers ------------------------------------------------------------------

  ghost predicate IsReading(step: Step) {
    step.Read? || step.Eof? || step.SignalDone?
  }

  lemma NothingLostByReading(s: State, step: Step, s': State)
    requires NothingLost(s) && Does(s, step, s') && IsReading(step)
    ensures NothingLost(s')
  {
    hide Chunks;
  }

  lemma SignalsByReading(s: State, step: Step, s': State)
    requires SignalsCounted(s) && Does(s, step, s') && IsReading(step)
    ensures SignalsCounted(s')
  {
    PipesAreTwo(step.i);
    assert IsDone(s, step.i) == 0;
  }

  lemma ExitsByReading(s: State, step: Step, s': State)
    requires ExitOnce(s) && Does(s, step, s') && IsReading(step)
    ensures ExitOnce(s')
  {
    hide Exits;
  }

  lemma CompleteByReading(s: State, step: Step, s': State)
    requires SignalsCounted(s) && Complete(s) && Does(s, step, s') && IsReading(step)
    ensures Complete(s')
  {
    hide Chunks;
    PipesAreTwo(step.i);
    assert IsDone(s, step.i) == 0;
  }

  lemma KeptByReading(s: State, step: Step, s': State)
    requires Inv(s) && Does(s, step, s') && IsReading(step)
    ensures Inv(s')
  {
    hide NothingLost;
    hide SignalsCounted;
    hide ExitOnce;
    hide Complete;
    hide Does;
    NothingLostByReading(s, step, s');
    SignalsByReading(s, step, s');
    ExitsByReading(s, step, s');
    CompleteByReading(s, step, s');
  }

  lemma SendsOne(s: State, step: Step, s': State)
    requires Does(s, step, s') && step.Send?
    ensures step.i in s.readers && s.readers[step.i].hand.Holding?
    ensures s'.stream == s.stream && s'.connected == s.connected
    ensures s'.queue == if s.connected then s.queue + [Out(step.i, s.readers[step.i].hand.data)] else s.queue
    ensures s'.readers == With(s, step.i, if s.connected then Reading else Closing)
  {
  }

  lemma NothingLostBySending(s: State, step: Step, s': State)
    requires NothingLost(s) && Does(s, step, s') && step.Send?
    ensures NothingLost(s')
  {
    SendsOne(s, step, s');
    var e := Out(step.i, s.readers[step.i].hand.data);
    AppendOne(s.stream + s.queue, e);
    assert s.stream + (s.queue + [e]) == s.stream + s.queue + [e];
    hide Does;
    hide Chunks;
    hide Exits;
  }

  lemma SignalsBySending(s: State, step: Step, s': State)
    requires SignalsCounted(s) && Does(s, step, s') && step.Send?
    ensures SignalsCounted(s')
  {
    PipesAreTwo(step.i);
    assert IsDone(s, step.i) == 0;
  }

  lemma ExitsBySending(s: State, step: Step, s': State)
    requires SignalsCounted(s) && ExitOnce(s) && Does(s, step, s') && step.Send?
    ensures ExitOnce(s')
  {
    PipesAreTwo(step.i);
    assert IsDone(s, step.i) == 0;
    if s.connected {
      var e := Out(step.i, s.readers[step.i].hand.data);
      AppendOne(s.stream + s.queue, e);
      assert s.stream + (s.queue + [e]) == s.stream + s.queue + [e];
    }
    hide Chunks;
    hide Exits;
  }

  lemma CompleteBySending(s: State, step: Step, s': State)
    requires Complete(s) && Does(s, step, s') && step.Send?
    ensures Complete(s')
  {
    hide Chunks;
  }

  lemma KeptBySending(s: State, step: Step, s': State)
    requires Inv(s) && Does(s, step, s') && step.Send?
    ensures Inv(s')
  {
    hide NothingLost;
    hide SignalsCounted;
    hide ExitOnce;
    hide Complete;
    hide Does;
    NothingLostBySending(s, step, s');
    SignalsBySending(s, step, s');
    ExitsBySending(s, step, s');
    CompleteBySending(s, step, s');
  }

  // ---- the wait thread -------------------------------------------------------------------

  ghost predicate IsWaiting(step: Step) {
    step.DrainReceive? || step.DrainTimeout? || step.SendExit?
  }

  lemma NothingLostByWaiter(s: State, step: Step, s': State)
    requires NothingLost(s) && Does(s, step, s') && IsWaiting(step)
    ensures NothingLost(s')
  {
    if step.SendExit? && s.connected {
      AppendOne(s.stream + s.queue, Exit);
      assert s.stream + (s.queue + [Exit]) == s.stream + s.queue + [Exit];
    }
    hide Chunks;
    hide Exits;
  }

  lemma SignalsByWaiter(s: State, step: Step, s': State)
    requires SignalsCounted(s) && Does(s, step, s') && IsWaiting(step)
    ensures SignalsCounted(s')
  {
  }

  lemma ExitsByWaiter(s: State, step: Step, s': State)
    requires SignalsCounted(s) && ExitOnce(s) && Does(s, step, s') && IsWaiting(step)
    ensures ExitOnce(s')
  {
    if step.SendExit? && s.connected {
      AppendOne(s.stream + s.queue, Exit);
      assert s.stream + (s.queue + [Exit]) == s.stream + s.queue + [Exit];
    }
    hide Chunks;
    hide Exits;
    hide IsDone;
  }

  /** While the wait thread drains, the stream does not end in Exit. */
  lemma CompleteByWaiter(s: State, step: Step, s': State)
    requires ExitOnce(s) && Complete(s) && Does(s, step, s') && IsWaiting(step)
    ensures Complete(s')
  {
    hide Chunks;
    hide Exits;
    if s.stream != [] && s.stream[|s.stream| - 1] == Exit {
      ExitIsCounted(s.stream, s.queue);
    }
  }

  lemma ExitIsCounted(stream: seq<Item>, queue: seq<Item>)
    requires stream != [] && stream[|stream| - 1] == Exit
    ensures Exits(stream) > 0 && Exits(stream + queue) > 0
  {
    var k := |stream| - 1;
    assert stream[..k] + [Exit] == stream;
    ExitsAppend(stream[..k], [Exit]);
    ExitsAppend(stream, queue);
  }

  lemma KeptByWaiter(s: State, step: Step, s': State)
    requires Inv(s) && Does(s, step, s') && IsWaiting(step)
    ensures Inv(s')
  {
    hide NothingLost;
    hide SignalsCounted;
    hide ExitOnce;
    hide Complete;
    hide Does;
    NothingLostByWaiter(s, step, s');
    SignalsByWaiter(s, step, s');
    ExitsByWaiter(s, step, s');
    CompleteByWaiter(s, step, s');
  }

  // ---- the connection's thread -----------------------------------------------------------

  ghost predicate IsWriting(step: Step) {
    step.WriteStart? || step.PingTimeout?
  }

  /** What is written neither holds output nor is Exit. */
  lemma WrittenIsNoOutput(s: State, e: Item)
    requires e.Start? || e.Ping?
    ensures forall i: Pipe :: Chunks(i, s.stream + [e] + s.queue) == Chunks(i, s.stream + s.queue)
    ensures forall i: Pipe :: Chunks(i, s.stream + [e]) == Chunks(i, s.stream)
    ensures Exits(s.stream + [e] + s.queue) == Exits(s.stream + s.queue) && Exits(s.stream + [e]) == Exits(s.stream)
  {
    AppendOne(s.stream, e);
    ExitsAppend(s.stream, s.queue);
    ExitsAppend(s.stream + [e], s.queue);
    forall i: Pipe ensures Chunks(i, s.stream + [e] + s.queue) == Chunks(i, s.stream + s.queue) {
      ChunksAppend(i, s.stream, s.queue);
      ChunksAppend(i, s.stream + [e], s.queue);
    }
  }

  function Written(step: Step): Item {
    if step.WriteStart? then Start else Ping
  }

  lemma WritesOne(s: State, step: Step, s': State)
    requires Does(s, step, s') && IsWriting(step)
    ensures if step.WriteStart? then s.client.Starting? else s.client.Streaming?
    ensures s' == s.(client := Streaming, stream := s.stream + [Written(step)]) || s' == s.(client := Ended, connected := false)
  {
  }

  lemma ExitsByWriting(s: State, step: Step, s': State)
    requires ExitOnce(s) && Does(s, step, s') && IsWriting(step)
    ensures ExitOnce(s')
  {
    WritesOne(s, step, s');
    WrittenIsNoOutput(s, Written(step));
    hide Exits;
    hide Chunks;
    hide Does;
    assert (s.stream + [Written(step)])[..|s.stream|] == s.stream;
  }

  lemma NothingLostByWriting(s: State, step: Step, s': State)
    requires NothingLost(s) && Does(s, step, s') && IsWriting(step)
    ensures NothingLost(s')
  {
    WritesOne(s, step, s');
    WrittenIsNoOutput(s, Written(step));
    hide Exits;
    hide Chunks;
    hide Does;
  }

  lemma SignalsByWriting(s: State, step: Step, s': State)
    requires SignalsCounted(s) && Complete(s) && Does(s, step, s') && IsWriting(step)
    ensures SignalsCounted(s') && Complete(s')
  {
    WritesOne(s, step, s');
    hide Chunks;
    hide Does;
  }

  lemma KeptByWriting(s: State, step: Step, s': State)
    requires Inv(s) && Does(s, step, s') && IsWriting(step)
    ensures Inv(s')
  {
    hide NothingLost;
    hide SignalsCounted;
    hide ExitOnce;
    hide Complete;
    hide Does;
    NothingLostByWriting(s, step, s');
    SignalsByWriting(s, step, s');
    ExitsByWriting(s, step, s');
  }

  lemma FailedReceive(s: State, step: Step, s': State)
    requires Inv(s) && Does(s, step, s') && ((step.Receive? && !step.ok) || step.Disconnected?)
    ensures Inv(s')
  {
    ExitsAppend(s.stream, s.queue);
    if step.Receive? {
      AppendOne([], s.queue[0]);
      ExitsAppend(s.queue[..1], s'.queue);
      assert s.queue == s.queue[..1] + s'.queue;
      assert s.queue[..1] == [] + [s.queue[0]];
      ExitsAppend(s.stream, s'.queue);
    }
  }

  lemma PassedOn(s: State, step: Step, s': State)
    requires Inv(s) && Does(s, step, s') && step.Receive? && step.ok
    ensures NothingLost(s') && SignalsCounted(s') && ExitOnce(s')
  {
    var e := s.queue[0];
    assert s'.stream == s.stream + [e];
    assert s'.stream + s'.queue == s.stream + s.queue;
    assert s'.stream[..|s'.stream| - 1] == s.stream;
    AppendOne(s.stream, e);
    ExitsAppend(s'.stream, s'.queue);
    forall i | i in s.readers ensures Chunks(i, s'.stream) <= s.readers[i].log {
      ChunksAppend(i, s'.stream, s'.queue);
    }
  }

  lemma CompleteWhenExitArrives(s: State, step: Step, s': State)
    requires Inv(s) && Does(s, step, s') && step.Receive? && step.ok
    ensures Complete(s')
  {
    var e := s.queue[0];
    assert s'.stream == s.stream + [e];
    if e.Exit? && s.sawBoth {
      ExitsAppend(s.stream, s.queue);
      LastExitIsOnly(s.queue);
      forall i | i in s.readers ensures Chunks(i, s'.stream) == s'.readers[i].log {
        PipesAreTwo(i);
        assert s.stream + s.queue == s'.stream;
      }
    }
  }

  lemma {:induction false} LastExitIsOnly(q: seq<Item>)
    requires q != [] && q[0] == Exit && q[|q| - 1] == Exit && Exits(q) == 1
    ensures q == [Exit]
  {
    if |q| > 1 {
      assert q[..|q| - 1] + [q[|q| - 1]] == q;
      ExitsAppend(q[..|q| - 1], [q[|q| - 1]]);
    }
  }

  lemma {:induction false} InvAlways(states: seq<State>, steps: seq<Step>, i: nat)
    requires Run(states, steps) && i < |states|
    ensures Inv(states[i])
  {
    if i == 0 {
      assert states[0].stream + states[0].queue == [];
      forall i: Pipe ensures i in states[0].readers {
        PipesAreTwo(i);
      }
    } else {
      InvAlways(states, steps, i - 1);
      var s, step, s' := states[i - 1], steps[i - 1], states[i];
      assert Does(s, step, s');
      if step.Read? || step.Eof? || step.SignalDone? {
        KeptByReading(s, step, s');
      } else if step.Send? {
        KeptBySending(s, step, s');
      } else if step.DrainReceive? || step.DrainTimeout? || step.SendExit? {
        KeptByWaiter(s, step, s');
      } else if step.WriteStart? || step.PingTimeout? {
        KeptByWriting(s, step, s');
      } else if step.Receive? && step.ok {
        PassedOn(s, step, s');
        CompleteWhenExitArrives(s, step, s');
      } else {
        FailedReceive(s, step, s');
      }
    }
  }

  /** In every run: the chunks of each pipe reach the client in the order they were read, none
      skipped; Exit comes at most once, first thing after it nothing; the stream opens with
      the start event. */
  lemma StreamIsInOrder(states: seq<State>, steps: seq<Step>, n: nat, i: Pipe)
    requires Run(states, steps) && n < |states|
    ensures var s := states[n];
      && i in s.readers && Chunks(i, s.stream) <= s.readers[i].log
      && Exits(s.stream) <= 1
      && (s.stream != [] ==> s.stream[0] == Start && Exits(s.stream[..|s.stream| - 1]) == 0)
  {
    InvAlways(states, steps, n);
    var s := states[n];
    ExitsAppend(s.stream, s.queue);
  }

  /** Output before exit: when the drain saw both done signals, a stream that ends in Exit holds
      every chunk that was ever read from either pipe; and a stream that got its Exit ended. */
  lemma ExitComesAfterAllOutput(states: seq<State>, steps: seq<Step>, n: nat, i: Pipe)
    requires Run(states, steps) && n < |states|
    requires states[n].stream != [] && states[n].stream[|states[n].stream| - 1] == Exit
    ensures states[n].client.Ended?
    ensures states[n].sawBoth ==> i in states[n].readers && Chunks(i, states[n].stream) == states[n].readers[i].log
  {
    InvAlways(states, steps, n);
    var s := states[n];
    var k := |s.stream| - 1;
    assert s.stream[..k] + [Exit] == s.stream;
    ExitsAppend(s.stream[..k], [Exit]);
  }

  /** After its end the stream stays as it is. */
  lemma {:induction false} NothingAfterTheEnd(states: seq<State>, steps: seq<Step>, m: nat, n: nat)
    requires Run(states, steps) && m <= n < |states| && states[m].client.Ended?
    ensures states[n].client.Ended? && states[n].stream == states[m].stream
    decreases n - m
  {
    if m < n {
      NothingAfterTheEnd(states, steps, m, n - 1);
      assert Does(states[n - 1], steps[n - 1], states[n]);
    }
  }

  /** While the connection's thread streams, an empty queue means that the wait thread has not
      sent Exit yet: the thread never finds the queue abandoned without having passed Exit on. */
  lemma NoEndWithoutExit(states: seq<State>, steps: seq<Step>, n: nat)
    requires Run(states, steps) && n < |states|
    requires states[n].client.Streaming? && states[n].queue == []
    ensures !states[n].waiter.Gone?
  {
    InvAlways(states, steps, n);
    assert states[n].stream + states[n].queue == states[n].stream;
  }

  /** The queue between the threads never holds more than 64 items. */
  lemma {:induction false} QueueIsBounded(states: seq<State>, steps: seq<Step>, n: nat)
    requires Run(states, steps) && n < |states|
    ensures |states[n].queue| <= 64
  {
    if n > 0 {
      QueueIsBounded(states, steps, n - 1);
      assert Does(states[n - 1], steps[n - 1], states[n]);
    }
  }
}
