/** The cap on live connections (src/main.rs, `ConnectionSlot`): one shared counter, changed by
    `fetch_add` and `fetch_sub` of any number of threads, each one atomic step. */
module Connections {

  type Thread = nat

  /** A connection thread holds a slot, or found the server full and has yet to undo its count. */
  datatype Slot = Holding | Undoing

  datatype State = State(max: nat, live: int, slots: map<Thread, Slot>)

  datatype Step = Acquire(t: Thread) | Undo(t: Thread) | Drop(t: Thread)

  ghost predicate Does(s: State, step: Step, s': State) {
    match step
    case Acquire(t) =>
      && t !in s.slots
      && s' == s.(live := s.live + 1, slots := s.slots[t := if s.live >= s.max then Undoing else Holding])
    case Undo(t) =>
      && t in s.slots && s.slots[t].Undoing?
      && s' == s.(live := s.live - 1, slots := s.slots - {t})
    case Drop(t) =>
      && t in s.slots && s.slots[t].Holding?
      && s' == s.(live := s.live - 1, slots := s.slots - {t})
  }

  function Holders(s: State): set<Thread> {
    set t | t in s.slots && s.slots[t].Holding?
  }

  ghost predicate Inv(s: State) {
    s.live == |s.slots| && |Holders(s)| <= s.max
  }

  ghost predicate Run(states: seq<State>, steps: seq<Step>) {
    && |states| == |steps| + 1 && states[0].live == 0 && states[0].slots == map[]
    && forall i :: 0 <= i < |steps| ==> Does(states[i], steps[i], states[i + 1])
  }

  lemma AfterPut(s: State, t: Thread, slot: Slot, s': State)
    requires t !in s.slots && s'.slots == s.slots[t := slot]
    ensures |s'.slots| == |s.slots| + 1
    ensures Holders(s') == if slot.Holding? then Holders(s) + {t} else Holders(s)
  {
    assert s'.slots.Keys == s.slots.Keys + {t};
  }

  lemma AfterEnd(s: State, t: Thread, s': State)
    requires t in s.slots && s'.slots == s.slots - {t}
    ensures |s'.slots| == |s.slots| - 1
    ensures Holders(s') == Holders(s) - {t}
  {
    assert s'.slots.Keys == s.slots.Keys - {t};
  }

  lemma InvKept(s: State, step: Step, s': State)
    requires Inv(s) && Does(s, step, s')
    ensures Inv(s')
  {
    HoldersAtMostSlots(s);
    if step.Acquire? {
      AfterPut(s, step.t, s'.slots[step.t], s');
    } else {
      AfterEnd(s, step.t, s');
    }
  }

  lemma HoldersAtMostSlots(s: State)
    ensures |Holders(s)| <= |s.slots|
  {
    var others := set u | u in s.slots && s.slots[u].Undoing?;
    assert s.slots.Keys == Holders(s) + others;
    assert |Holders(s) + others| == |Holders(s)| + |others|;
  }

  /** In every run no more than `max` connections are served at a time, and the counter is
      always the number of threads that counted themselves in, so it never underflows. */
  lemma {:induction false} LiveConnectionsAreCapped(states: seq<State>, steps: seq<Step>, i: nat)
    requires Run(states, steps) && i < |states|
    ensures |Holders(states[i])| <= states[i].max
    ensures states[i].live == |states[i].slots| >= |Holders(states[i])|
    ensures Inv(states[i])
  {
    if i == 0 {
      assert Holders(states[0]) == {};
    } else {
      LiveConnectionsAreCapped(states, steps, i - 1);
      assert Does(states[i - 1], steps[i - 1], states[i]);
      InvKept(states[i - 1], steps[i - 1], states[i]);
    }
    HoldersAtMostSlots(states[i]);
  }

  /** A connection is turned away if and only if `max` threads are counted in when it comes, and
      served at once otherwise; one that ends makes room. */
  lemma TurnedAwayWhenFull(states: seq<State>, steps: seq<Step>, i: nat)
    requires Run(states, steps) && i < |steps|
    ensures steps[i].Acquire? ==> steps[i].t in states[i + 1].slots
    ensures steps[i].Acquire? ==> (steps[i].t !in Holders(states[i + 1]) <==> |states[i].slots| >= states[i].max)
    ensures !steps[i].Acquire? ==> steps[i].t !in states[i + 1].slots && |states[i + 1].slots| == |states[i].slots| - 1
  {
    LiveConnectionsAreCapped(states, steps, i);
    assert Does(states[i], steps[i], states[i + 1]);
    if !steps[i].Acquire? {
      AfterEnd(states[i], steps[i].t, states[i + 1]);
    }
  }
}
