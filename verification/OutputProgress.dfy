/** The output of `Output` gets through: from every state of every run the stream can be brought to
    its end, and it ends only with the exit event or with a write to the client that fails. */
module OutputProgress {
  import opened Output

  datatype Trace = Trace(states: seq<State>, steps: seq<Step>)

  ghost predicate IsRun(trace: Trace) {
    Run(trace.states, trace.steps)
  }

  function Now(trace: Trace): State
    requires |trace.states| > 0
  {
    trace.states[|trace.states| - 1]
  }

  /** b goes on from where a stands, and no write fails on the way. */
  ghost predicate GoesOn(a: Trace, b: Trace) {
    && IsRun(a) && IsRun(b) && a.states <= b.states && a.steps <= b.steps
    && forall i :: |a.steps| <= i < |b.steps| ==> !Fails(b.steps[i])
  }

  /** A write to the client that fails. */
  predicate Fails(step: Step) {
    (step.WriteStart? && !step.ok) || (step.Receive? && !step.ok) || (step.PingTimeout? && !step.ok)
  }

  lemma RunsHaveStates(a: Trace)
    requires IsRun(a)
    ensures |a.states| > 0 && Inv(Now(a))
  {
    InvAlways(a.states, a.steps, |a.states| - 1);
  }

  lemma Further(a: Trace, b: Trace, c: Trace)
    requires GoesOn(a, b) && GoesOn(b, c)
    ensures GoesOn(a, c)
  {
  }

  lemma Next(a: Trace, step: Step, s': State) returns (b: Trace)
    requires IsRun(a) && |a.states| > 0 && Does(Now(a), step, s') && !Fails(step)
    ensures GoesOn(a, b) && IsRun(b) && |b.states| > 0 && Now(b) == s'
  {
    hide Does;
    b := Trace(a.states + [s'], a.steps + [step]);
    forall i | 0 <= i < |b.steps| ensures Does(b.states[i], b.steps[i], b.states[i + 1]) {
      if i < |a.steps| {
        assert Does(a.states[i], a.steps[i], a.states[i + 1]);
      }
    }
  }

  // ---- the only ways to end --------------------------------------------------------------

  ghost predicate EndedWell(s: State) {
    s.client.Ended? && s.stream != [] && s.stream[|s.stream| - 1] == Exit
  }

  ghost predicate Failed(steps: seq<Step>) {
    exists k :: 0 <= k < |steps| && Fails(steps[k])
  }

  /** The stream ends with the exit event, unless a write to the client failed. */
  lemma {:induction false} EndsWithExitUnlessItFails(a: Trace)
    requires IsRun(a) && |a.states| > 0 && Now(a).client.Ended?
    ensures EndedWell(Now(a)) || Failed(a.steps)
    decreases |a.steps|
  {
    if |a.steps| > 0 {
      var k := |a.steps| - 1;
      var s, step, s' := a.states[k], a.steps[k], a.states[k + 1];
      assert Does(s, step, s') && s' == Now(a);
      var before := Trace(a.states[..k + 1], a.steps[..k]);
      assert Now(before) == s;
      assert IsRun(before);
      RunsHaveStates(before);
      if s.client.Ended? {
        EndsWithExitUnlessItFails(before);
        NothingAfterTheEnd(a.states, a.steps, k, k + 1);
        if Failed(before.steps) {
          var j :| 0 <= j < k && Fails(before.steps[j]);
          assert Fails(a.steps[j]);
        }
      } else if Fails(step) {
        assert Failed(a.steps);
      } else {
        EndingStep(s, step, s');
      }
    }
  }

  lemma EndingStep(s: State, step: Step, s': State)
    requires Inv(s) && Does(s, step, s') && !Fails(step) && !s.client.Ended? && s'.client.Ended?
    ensures EndedWell(s')
  {
    assert s.queue == [] ==> s.stream + s.queue == s.stream;
  }

  // ---- getting there ---------------------------------------------------------------------

  /** What the client still misses it gets, or it gets its exit event. */
  lemma {:induction false} CanDrain(a: Trace) returns (b: Trace)
    requires IsRun(a) && |a.states| > 0 && Now(a).client.Streaming?
    ensures GoesOn(a, b) && IsRun(b) && |b.states| > 0 && Now(b).readers == Now(a).readers
    ensures Now(b).doneSignals == Now(a).doneSignals && Now(b).waiter == Now(a).waiter && Now(b).sawBoth == Now(a).sawBoth
    ensures EndedWell(Now(b)) || (Now(b).client.Streaming? && Now(b).queue == [])
    decreases |Now(a).queue|
  {
    var s := Now(a);
    if s.queue == [] {
      b := a;
    } else {
      var rest := s.(queue := s.queue[1..], stream := s.stream + [s.queue[0]]);
      if s.queue[0].Exit? {
        b := Next(a, Receive(true), rest.(client := Ended, connected := false));
      } else {
        var a1 := Next(a, Receive(true), rest);
        b := CanDrain(a1);
        Further(a, a1, b);
      }
    }
  }

  lemma CanStart(a: Trace) returns (b: Trace)
    requires IsRun(a) && |a.states| > 0 && !Now(a).client.Ended?
    ensures GoesOn(a, b) && IsRun(b) && |b.states| > 0 && Now(b).readers == Now(a).readers
    ensures Now(b).doneSignals == Now(a).doneSignals && Now(b).waiter == Now(a).waiter && Now(b).sawBoth == Now(a).sawBoth
    ensures EndedWell(Now(b)) || (Now(b).client.Streaming? && Now(b).queue == [])
  {
    hide GoesOn;
    hide IsRun;
    var s, a1 := Now(a), a;
    if s.client.Starting? {
      a1 := Next(a, WriteStart(true), s.(client := Streaming, stream := s.stream + [Start]));
    } else {
      GoesOnItself(a);
    }
    b := CanDrain(a1);
    Further(a, a1, b);
  }

  lemma GoesOnItself(a: Trace)
    requires IsRun(a)
    ensures GoesOn(a, a)
  {
  }

  /** A reader sends what it holds, meets the end of its pipe, and says that it is done. */
  lemma CanFinishReader(a: Trace, i: Pipe) returns (b: Trace)
    requires IsRun(a) && |a.states| > 0 && Now(a).client.Streaming? && Now(a).queue == []
    ensures GoesOn(a, b) && IsRun(b) && |b.states| > 0 && Now(b).client.Streaming? && Now(b).queue == []
    ensures i in Now(a).readers && i in Now(b).readers
    ensures Now(b).readers[i].hand.Done? && Now(b).readers[i].log == Now(a).readers[i].log
    ensures Now(b).readers.Keys == Now(a).readers.Keys
    ensures forall j :: j in Now(a).readers && j != i ==> Now(b).readers[j] == Now(a).readers[j]
    ensures Now(b).waiter == Now(a).waiter
  {
    RunsHaveStates(a);
    hide GoesOn;
    hide IsRun;
    hide Inv;
    var a1 := CanSendHeld(a, i);
    var s1, a2 := Now(a1), a1;
    if s1.readers[i].hand.Reading? {
      a2 := Next(a1, Eof(i), s1.(readers := With(s1, i, Closing)));
    } else {
      GoesOnItself(a1);
    }
    Further(a, a1, a2);
    var s2 := Now(a2);
    b := a2;
    if s2.readers[i].hand.Closing? {
      b := Next(a2, SignalDone(i), s2.(readers := With(s2, i, Done), doneSignals := s2.doneSignals + 1));
      Further(a, a2, b);
    }
  }

  lemma CanSendHeld(a: Trace, i: Pipe) returns (b: Trace)
    requires IsRun(a) && |a.states| > 0 && Now(a).client.Streaming? && Now(a).queue == []
    ensures GoesOn(a, b) && IsRun(b) && |b.states| > 0 && Now(b).client.Streaming? && Now(b).queue == []
    ensures i in Now(a).readers && i in Now(b).readers && !Now(b).readers[i].hand.Holding?
    ensures Now(b).readers[i].log == Now(a).readers[i].log && Now(b).readers.Keys == Now(a).readers.Keys
    ensures forall j :: j in Now(a).readers && j != i ==> Now(b).readers[j] == Now(a).readers[j]
    ensures Now(b).waiter == Now(a).waiter
  {
    RunsHaveStates(a);
    hide GoesOn;
    hide IsRun;
    var s := Now(a);
    if s.readers[i].hand.Holding? {
      var e := Out(i, s.readers[i].hand.data);
      var s1 := s.(readers := With(s, i, Reading), queue := s.queue + [e]);
      var a1 := Next(a, Send(i), s1);
      assert s1.queue == [e];
      b := Next(a1, Receive(true), s1.(queue := s1.queue[1..], stream := s1.stream + [e]));
      Further(a, a1, b);
    } else {
      b := a;
      GoesOnItself(a);
    }
  }

  /** The wait thread takes both done signals, if it still waits for them. */
  lemma CanSeeBoth(a: Trace) returns (b: Trace)
    requires IsRun(a) && |a.states| > 0 && Now(a).client.Streaming? && Now(a).queue == []
    requires forall i :: i in Now(a).readers ==> Now(a).readers[i].hand.Done?
    ensures GoesOn(a, b) && IsRun(b) && |b.states| > 0 && Now(b).client.Streaming? && Now(b).queue == []
    ensures Now(b).readers == Now(a).readers && !Now(b).waiter.Draining?
    ensures Now(a).waiter.Draining? ==> Now(b).sawBoth
    ensures !Now(a).waiter.Draining? ==> Now(b).sawBoth == Now(a).sawBoth
  {
    RunsHaveStates(a);
    var s := Now(a);
    b := a;
    GoesOnItself(a);
    assert s.waiter.Draining? ==> s.waiter.got + s.doneSignals == 2;
    hide GoesOn;
    hide IsRun;
    hide Inv;
    if s.waiter.Draining? && s.waiter.got == 0 {
      b := Next(a, DrainReceive, s.(doneSignals := s.doneSignals - 1, sawBoth := false, waiter := Draining(1)));
    }
    var s1 := Now(b);
    if s1.waiter.Draining? {
      var c := Next(b, DrainReceive, s1.(doneSignals := s1.doneSignals - 1, sawBoth := true, waiter := Sending));
      Further(a, b, c);
      b := c;
    }
  }

  /** From every state of every run the stream can come to its end without a failed write: it ends
      with the exit event, and if the drain was not over it holds all that was ever read, from
      either pipe. */
  lemma CanComplete(a: Trace) returns (b: Trace)
    requires IsRun(a) && |a.states| > 0 && !Now(a).client.Ended?
    ensures GoesOn(a, b) && |b.states| > 0 && EndedWell(Now(b))
    ensures Now(a).waiter.Draining? ==>
      forall i: Pipe :: i in Now(a).readers && i in Now(b).readers && Chunks(i, Now(b).stream) == Now(a).readers[i].log
  {
    hide GoesOn;
    hide Chunks;
    var a1 := CanStart(a);
    if !EndedWell(Now(a1)) {
      b := CanCompleteFrom(a1);
      Further(a, a1, b);
    } else {
      b := a1;
      ExitMeansSent(a1);
    }
    RunsHaveStates(a);
  }

  lemma ExitMeansSent(a: Trace)
    requires IsRun(a) && |a.states| > 0 && EndedWell(Now(a))
    ensures !Now(a).waiter.Draining?
  {
    RunsHaveStates(a);
    var s := Now(a);
    var k := |s.stream| - 1;
    assert s.stream == s.stream[..k] + [Exit];
    ExitsAppend(s.stream[..k], [Exit]);
    ExitsAppend(s.stream, s.queue);
  }

  lemma CanCompleteFrom(a: Trace) returns (b: Trace)
    requires IsRun(a) && |a.states| > 0 && Now(a).client.Streaming? && Now(a).queue == []
    ensures GoesOn(a, b) && |b.states| > 0 && EndedWell(Now(b))
    ensures Now(a).waiter.Draining? ==>
      forall i: Pipe :: i in Now(a).readers && i in Now(b).readers && Chunks(i, Now(b).stream) == Now(a).readers[i].log
  {
    RunsHaveStates(a);
    assert forall i: Pipe :: i in Now(a).readers;
    hide GoesOn;
    hide IsRun;
    hide Inv;
    hide Chunks;
    var a1 := CanFinishReader(a, Stdout);
    var a2 := CanFinishReader(a1, Stderr);
    Further(a, a1, a2);
    forall i | i in Now(a2).readers ensures Now(a2).readers[i].hand.Done? {
      PipesAreTwo(i);
    }
    var a3 := CanSeeBoth(a2);
    Further(a, a2, a3);
    b := CanExit(a3);
    Further(a, a3, b);
    if Now(a).waiter.Draining? {
      forall i: Pipe ensures i in Now(b).readers && Chunks(i, Now(b).stream) == Now(a).readers[i].log {
        AllIsThere(b, i);
        PipesAreTwo(i);
      }
    }
  }

  /** The wait thread sends its exit event, and the client gets it. */
  lemma CanExit(a: Trace) returns (b: Trace)
    requires IsRun(a) && |a.states| > 0 && Now(a).client.Streaming? && Now(a).queue == [] && !Now(a).waiter.Draining?
    ensures GoesOn(a, b) && IsRun(b) && |b.states| > 0 && EndedWell(Now(b))
    ensures Now(b).readers == Now(a).readers && Now(b).sawBoth == Now(a).sawBoth
  {
    NotGoneYet(a);
    hide GoesOn;
    hide IsRun;
    var s := Now(a);
    var s1 := s.(waiter := Gone, queue := s.queue + [Exit]);
    var a1 := Next(a, SendExit, s1);
    assert s1.queue[0] == Exit;
    b := Next(a1, Receive(true), s1.(client := Ended, connected := false, queue := s1.queue[1..], stream := s1.stream + [Exit]));
    Further(a, a1, b);
  }

  lemma AllIsThere(b: Trace, i: Pipe)
    requires IsRun(b) && |b.states| > 0 && EndedWell(Now(b)) && Now(b).sawBoth
    ensures i in Now(b).readers && Chunks(i, Now(b).stream) == Now(b).readers[i].log
  {
    ExitComesAfterAllOutput(b.states, b.steps, |b.states| - 1, i);
  }

  lemma NotGoneYet(a: Trace)
    requires IsRun(a) && |a.states| > 0 && Now(a).client.Streaming? && Now(a).queue == [] && !Now(a).waiter.Draining?
    ensures Now(a).waiter.Sending? && Now(a).connected
  {
    NoEndWithoutExit(a.states, a.steps, |a.states| - 1);
    RunsHaveStates(a);
  }
}
