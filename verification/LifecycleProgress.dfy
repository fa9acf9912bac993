/** The host of `Lifecycle` is never stuck: from every state of every run it can create a sandbox
    while there is room, and delete any sandbox so that its uid is free again. */
module LifecycleProgress {
  import opened Wrappers
  import opened Uids
  import opened Lifecycle
  import opened LifecycleProofs

  datatype Trace = Trace(states: seq<State>, steps: seq<Step>)

  ghost predicate IsRun(trace: Trace) {
    Run(trace.states, trace.steps)
  }

  function Now(trace: Trace): State
    requires |trace.states| > 0
  {
    trace.states[|trace.states| - 1]
  }

  /** b goes on from where a stands. */
  ghost predicate GoesOn(a: Trace, b: Trace) {
    && IsRun(a) && IsRun(b) && a.states <= b.states && a.steps <= b.steps
  }

  lemma RunsHaveStates(trace: Trace)
    requires IsRun(trace)
    ensures |trace.states| > 0 && Inv(Now(trace))
  {
    InvAlways(trace.states, trace.steps, |trace.states| - 1);
  }

  lemma Further(a: Trace, b: Trace, c: Trace)
    requires GoesOn(a, b) && GoesOn(b, c)
    ensures GoesOn(a, c)
  {
  }

  lemma Grow(a: Trace, step: Step, s': State) returns (b: Trace)
    requires IsRun(a) && |a.states| > 0 && Does(Now(a), step, s')
    ensures GoesOn(a, b) && IsRun(b) && |b.states| > 0 && Now(b) == s'
  {
    hide Does;
    b := Trace(a.states + [s'], a.steps + [step]);
    forall i | 0 <= i < |b.steps| ensures Does(b.states[i], b.steps[i], b.states[i + 1]) {
      if i < |a.steps| {
        assert Does(a.states[i], a.steps[i], a.states[i + 1]);
      }
    }
  }

  lemma CreateNext(a: Trace, step: Step, s': State) returns (b: Trace)
    requires IsRun(a) && |a.states| > 0 && Creates(Now(a), step, s')
    ensures GoesOn(a, b) && IsRun(b) && |b.states| > 0 && Now(b) == s'
  {
    hide Creates;
    hide Deletes;
    hide Spawns;
    hide Happens;
    b := Grow(a, step, s');
  }

  lemma DeleteNext(a: Trace, step: Step, s': State) returns (b: Trace)
    requires IsRun(a) && |a.states| > 0 && Deletes(Now(a), step, s')
    ensures GoesOn(a, b) && IsRun(b) && |b.states| > 0 && Now(b) == s'
  {
    hide Creates;
    hide Deletes;
    hide Spawns;
    hide Happens;
    b := Grow(a, step, s');
  }

  lemma SpawnNext(a: Trace, step: Step, s': State) returns (b: Trace)
    requires IsRun(a) && |a.states| > 0 && Spawns(Now(a), step, s')
    ensures GoesOn(a, b) && IsRun(b) && |b.states| > 0 && Now(b) == s'
  {
    hide Creates;
    hide Deletes;
    hide Spawns;
    hide Happens;
    b := Grow(a, step, s');
  }

  // ---- creating --------------------------------------------------------------------------

  /** A slot is left, and a uid that no sandbox holds and that was not set aside. */
  ghost predicate HasRoom(s: State, u: Uid) {
    && SlotHolders(s) + |Backers(s.attempts)| < s.capacity
    && InRange(u) && u !in HeldUids(s.boxes) && u !in s.pool.quarantined
  }

  lemma NothingBusyIsFree(trace: Trace)
    requires IsRun(trace) && |trace.states| > 0
    ensures forall u :: u in Now(trace).pool.free ==> PidsOf(Now(trace).procs, u) == {}
  {
    UidReuseIsClean(trace.states, trace.steps, |trace.states| - 1);
  }

  lemma TakeFinds(s: State, u: Uid)
    requires UidsConserved(s) && InRange(u) && u !in HeldUids(s.boxes) && u !in s.pool.quarantined
    ensures TakeFrom(s.pool, {}).1.Some?
  {
    TakeKeepsPartition(s.pool, {}, HeldUids(s.boxes));
    TakeFreeEffect(s.pool, {});
    TakeNewEffect(TakeFree(s.pool, {}).0);
    hide TakeFree;
    hide TakeNew;
  }

  /** A thread asks for a slot and a uid. */
  lemma CanReserve(a: Trace, t: Thread, x: Sbx, u: Uid) returns (b: Trace)
    requires IsRun(a) && |a.states| > 0 && HasRoom(Now(a), u)
    requires t !in Now(a).attempts && x !in Now(a).boxes
    ensures GoesOn(a, b) && IsRun(b) && |b.states| > 0 && Now(b).registry == Now(a).registry
    ensures x in Now(b).boxes && Now(b).boxes[x] == Box(Now(b).boxes[x].uid, Building, false, Open, false, false)
  {
    RunsHaveStates(a);
    var s := Now(a);
    NothingBusyIsFree(a);
    RoomMeansReserved(s);
    TakeFinds(s, u);
    hide TakeFrom;
    hide PidsOf;
    hide Inv;
    hide IsRun;
    hide GoesOn;
    var (pool, got) := TakeFrom(s.pool, {});
    var s1 := s.(reserved := s.reserved + 1, attempts := s.attempts[t := Reserved]);
    var a1 := CreateNext(a, Create(t), s1);
    var s2 := s1.(pool := pool, attempts := s1.attempts - {t},
                  boxes := s.boxes[x := Box(got.value, Building, false, Open, false, false)]);
    b := CreateNext(a1, TakeUid(t, {}, x), s2);
    Further(a, a1, b);
  }

  /** While there is room, a create that begins now can end with a sandbox in the registry. */
  lemma CanCreate(a: Trace, t: Thread, x: Sbx, u: Uid) returns (b: Trace)
    requires IsRun(a) && |a.states| > 0 && HasRoom(Now(a), u)
    requires t !in Now(a).attempts && x !in Now(a).boxes
    ensures GoesOn(a, b) && IsRun(b) && |b.states| > 0
    ensures Now(b).registry == Now(a).registry + {x} && x in Now(b).boxes && Now(b).boxes[x].phase.Live?
  {
    hide IsRun;
    hide GoesOn;
    hide HasRoom;
    var a2 := CanReserve(a, t, x, u);
    var s2 := Now(a2);
    var box := s2.boxes[x];
    var s3 := s2.(boxes := s2.boxes[x := box.(home := true)]);
    var a3 := CreateNext(a2, MakeHome(x), s3);
    var s4 := s3.(registry := s3.registry + {x}, boxes := s3.boxes[x := box.(home := true, phase := Live, published := true)]);
    b := CreateNext(a3, Publish(x), s4);
    Further(a, a2, a3);
    Further(a, a3, b);
  }

  lemma RoomMeansReserved(s: State)
    requires Inv(s) && SlotHolders(s) + |Backers(s.attempts)| < s.capacity
    ensures s.reserved < s.capacity
  {
  }

  // ---- deleting --------------------------------------------------------------------------

  lemma CanKill(a: Trace, x: Sbx, p: Pid) returns (b: Trace)
    requires IsRun(a) && |a.states| > 0 && x in Now(a).boxes
    requires Now(a).boxes[x].phase.Sweeping? && p in Now(a).boxes[x].phase.pending
    ensures GoesOn(a, b) && IsRun(b) && |b.states| > 0
    ensures Now(b) == Killed(Now(a), x, {p})
  {
    hide IsRun;
    hide GoesOn;
    b := DeleteNext(a, Kill(x, p, true), Killed(Now(a), x, {p}));
  }

  function Killed(s: State, x: Sbx, gone: set<Pid>): State
    requires x in s.boxes && s.boxes[x].phase.Sweeping?
  {
    s.(procs := s.procs - gone, boxes := To(s, x, s.boxes[x].phase.(pending := s.boxes[x].phase.pending - gone)))
  }

  lemma OneByOne(s: State, x: Sbx, p: Pid)
    requires x in s.boxes && s.boxes[x].phase.Sweeping? && p in s.boxes[x].phase.pending
    ensures Killed(Killed(s, x, {p}), x, s.boxes[x].phase.pending - {p}) == Killed(s, x, s.boxes[x].phase.pending)
  {
    var ph := s.boxes[x].phase;
    assert s.procs - {p} - (ph.pending - {p}) == s.procs - ph.pending;
    assert ph.pending - {p} - (ph.pending - {p}) == ph.pending - ph.pending;
  }

  /** The processes that a look found can all be killed. */
  lemma {:induction false} CanKillAll(a: Trace, x: Sbx) returns (b: Trace)
    requires IsRun(a) && |a.states| > 0 && x in Now(a).boxes && Now(a).boxes[x].phase.Sweeping?
    ensures GoesOn(a, b) && IsRun(b) && |b.states| > 0
    ensures Now(b) == Killed(Now(a), x, Now(a).boxes[x].phase.pending)
    decreases |Now(a).boxes[x].phase.pending|
  {
    hide IsRun;
    hide GoesOn;
    var s := Now(a);
    if s.boxes[x].phase.pending == {} {
      b := a;
      Stays(a);
      var ph := s.boxes[x].phase;
      assert s.procs - {} == s.procs && ph.pending - {} == ph.pending && To(s, x, ph.(pending := ph.pending)) == s.boxes;
    } else {
      var p :| p in s.boxes[x].phase.pending;
      var a1 := CanKill(a, x, p);
      b := CanKillAll(a1, x);
      Further(a, a1, b);
      OneByOne(s, x, p);
    }
  }

  lemma Stays(a: Trace)
    requires IsRun(a)
    ensures GoesOn(a, a)
  {
  }

  /** Nobody starts processes in the sandbox any more. */
  lemma CanUnlock(a: Trace, x: Sbx) returns (b: Trace)
    requires IsRun(a) && |a.states| > 0 && x in Now(a).boxes
    ensures GoesOn(a, b) && IsRun(b) && |b.states| > 0
    ensures Now(b) == Now(a).(boxes := Now(a).boxes[x := Now(a).boxes[x].(lock := Open)])
  {
    hide IsRun;
    hide GoesOn;
    var s := Now(a);
    if s.boxes[x].lock.Held? {
      b := SpawnNext(a, Unlock(x), s.(boxes := s.boxes[x := s.boxes[x].(lock := Open)]));
    } else {
      b := a;
      Stays(a);
      assert s.boxes[x := s.boxes[x].(lock := Open)] == s.boxes;
    }
  }

  lemma RegisteredIsLive(s: State, x: Sbx)
    requires Inv(s) && x in s.registry
    ensures x in s.boxes && s.boxes[x].phase.Live? && s.boxes[x].published && s.boxes[x].home && !s.boxes[x].deleted
  {
  }

  lemma CanLock(a: Trace, t: Thread, x: Sbx) returns (b: Trace)
    requires IsRun(a) && |a.states| > 0 && x in Now(a).registry && x in Now(a).boxes && t !in Now(a).asking
    requires Now(a).boxes[x].lock.Open? && !Now(a).boxes[x].deleted
    ensures GoesOn(a, b) && IsRun(b) && |b.states| > 0
    ensures Now(b) == Now(a).(boxes := Now(a).boxes[x := Now(a).boxes[x].(lock := Held(t, false))])
  {
    hide IsRun;
    hide GoesOn;
    var s := Now(a);
    var s1 := s.(asking := s.asking[t := x]);
    var a1 := SpawnNext(a, Ask(t, x), s1);
    assert s1.asking - {t} == s.asking;
    b := SpawnNext(a1, TryLock(t), s.(boxes := s.boxes[x := s.boxes[x].(lock := Held(t, false))]));
    Further(a, a1, b);
  }

  /** A process can be started in a sandbox that is in the registry, under its uid. */
  lemma CanStart(a: Trace, t: Thread, x: Sbx, p: Pid) returns (b: Trace)
    requires IsRun(a) && |a.states| > 0 && x in Now(a).registry && t !in Now(a).asking && p !in Now(a).procs
    ensures GoesOn(a, b) && IsRun(b) && |b.states| > 0 && x in Now(a).boxes
    ensures Now(b).procs == Now(a).procs[p := Process(Now(a).boxes[x].uid, Some(x))] && Now(b).registry == Now(a).registry
  {
    RunsHaveStates(a);
    RegisteredIsLive(Now(a), x);
    hide Inv;
    hide IsRun;
    hide GoesOn;
    var a1 := CanUnlock(a, x);
    var a2 := CanLock(a1, t, x);
    var s := Now(a2);
    b := SpawnNext(a2, Start(x, p), s.(procs := s.procs[p := Process(s.boxes[x].uid, Some(x))],
                                       boxes := s.boxes[x := s.boxes[x].(lock := Held(t, true))]));
    Further(a, a1, a2);
    Further(a, a2, b);
  }

  lemma CanUnmap(a: Trace, x: Sbx) returns (b: Trace)
    requires IsRun(a) && |a.states| > 0 && x in Now(a).registry && x in Now(a).boxes
    ensures GoesOn(a, b) && IsRun(b) && |b.states| > 0
    ensures Now(b) == Now(a).(registry := Now(a).registry - {x}, boxes := To(Now(a), x, Unmapped))
  {
    hide IsRun;
    hide GoesOn;
    b := DeleteNext(a, Unmap(x), Now(a).(registry := Now(a).registry - {x}, boxes := To(Now(a), x, Unmapped)));
  }

  lemma CanSetDeleted(a: Trace, x: Sbx) returns (b: Trace)
    requires IsRun(a) && |a.states| > 0 && In(Now(a), x, Unmapped) && Now(a).boxes[x].lock.Open?
    ensures GoesOn(a, b) && IsRun(b) && |b.states| > 0
    ensures Now(b) == Now(a).(boxes := Now(a).boxes[x := Now(a).boxes[x].(deleted := true, phase := Flagged)])
  {
    hide IsRun;
    hide GoesOn;
    b := DeleteNext(a, SetDeleted(x), Now(a).(boxes := Now(a).boxes[x := Now(a).boxes[x].(deleted := true, phase := Flagged)]));
  }

  lemma CanFreeSlot(a: Trace, x: Sbx) returns (b: Trace)
    requires IsRun(a) && |a.states| > 0 && In(Now(a), x, Flagged)
    ensures GoesOn(a, b) && IsRun(b) && |b.states| > 0
    ensures Now(b) == Now(a).(reserved := Now(a).reserved - 1, boxes := To(Now(a), x, Sweeping(0, {})))
  {
    hide IsRun;
    hide GoesOn;
    b := DeleteNext(a, FreeSlot(x), Now(a).(reserved := Now(a).reserved - 1, boxes := To(Now(a), x, Sweeping(0, {}))));
  }

  /** A sandbox is taken out of the registry, flagged, and gives its slot back. */
  lemma CanFlag(a: Trace, x: Sbx) returns (b: Trace)
    requires IsRun(a) && |a.states| > 0 && x in Now(a).registry
    ensures GoesOn(a, b) && IsRun(b) && |b.states| > 0 && x in Now(a).boxes
    ensures var s := Now(a);
      Now(b) == s.(registry := s.registry - {x}, reserved := s.reserved - 1,
                   boxes := s.boxes[x := Box(s.boxes[x].uid, Sweeping(0, {}), true, Open, true, true)])
  {
    RunsHaveStates(a);
    RegisteredIsLive(Now(a), x);
    hide Inv;
    hide IsRun;
    hide GoesOn;
    var a1 := CanUnlock(a, x);
    var a2 := CanUnmap(a1, x);
    var a3 := CanSetDeleted(a2, x);
    b := CanFreeSlot(a3, x);
    Further(a, a1, a2);
    Further(a, a2, a3);
    Further(a, a3, b);
  }

  /** The sweep can end with a look that finds nothing. */
  lemma CanSweep(a: Trace, x: Sbx) returns (b: Trace)
    requires IsRun(a) && |a.states| > 0 && x in Now(a).boxes && Now(a).boxes[x].phase == Sweeping(0, {})
    ensures GoesOn(a, b) && IsRun(b) && |b.states| > 0
    ensures var s := Now(a);
      Now(b) == s.(procs := s.procs - PidsOf(s.procs, s.boxes[x].uid), boxes := To(s, x, Swept(true)))
  {
    hide IsRun;
    hide GoesOn;
    var s := Now(a);
    var found := PidsOf(s.procs, s.boxes[x].uid);
    if found == {} {
      b := DeleteNext(a, Look(x), s.(boxes := To(s, x, Swept(true))));
      assert s.procs - found == s.procs;
    } else {
      var a1 := DeleteNext(a, Look(x), s.(boxes := To(s, x, Sweeping(1, found))));
      var a2 := CanKillAll(a1, x);
      var s2 := Now(a2);
      assert found - found == {};
      assert PidsOf(s.procs - found, s.boxes[x].uid) == {};
      b := DeleteNext(a2, Look(x), s2.(boxes := To(s2, x, Swept(true))));
      Further(a, a1, a2);
      Further(a, a2, b);
    }
  }

  /** From every state of every run, a sandbox in the registry can be deleted so that nothing of it
      is left: its home and its processes are gone, its slot is given back, and its uid is free. */
  lemma CanDelete(a: Trace, x: Sbx) returns (b: Trace)
    requires IsRun(a) && |a.states| > 0 && x in Now(a).registry
    ensures GoesOn(a, b) && IsRun(b) && |b.states| > 0
    ensures Now(b).registry == Now(a).registry - {x} && Now(b).reserved == Now(a).reserved - 1
    ensures x in Now(b).boxes && Now(b).boxes[x].phase.Gone? && !Now(b).boxes[x].home
    ensures PidsOf(Now(b).procs, Now(b).boxes[x].uid) == {} && Now(b).boxes[x].uid in Now(b).pool.free
  {
    hide IsRun;
    hide GoesOn;
    var a1 := CanFlag(a, x);
    var a2 := CanSweep(a1, x);
    var s := Now(a2);
    var u := s.boxes[x].uid;
    assert PidsOf(s.procs, u) == {};
    hide PidsOf;
    var s3 := s.(boxes := s.boxes[x := s.boxes[x].(home := false, phase := Wiped(true, true))]);
    var a3 := DeleteNext(a2, WipeHome(x, true), s3);
    var s4 := s3.(pool := Returned(s.pool, u), boxes := To(s3, x, Gone));
    b := DeleteNext(a3, SettleUid(x), s4);
    assert s4.pool.free[|s.pool.free|] == u;
    Further(a, a1, a2);
    Further(a, a2, a3);
    Further(a, a3, b);
  }

  // ---- turning away ----------------------------------------------------------------------

  /** A create is turned away if and only if those that hold a slot and those that are still
      backing out fill the host. */
  lemma TurnedAwayWhenFull(states: seq<State>, steps: seq<Step>, i: nat)
    requires Run(states, steps) && i < |steps| && steps[i].Create?
    ensures steps[i].t in states[i + 1].attempts
    ensures states[i + 1].attempts[steps[i].t].BackingOut?
       <==> SlotHolders(states[i]) + |Backers(states[i].attempts)| >= states[i].capacity
    ensures !states[i + 1].attempts[steps[i].t].BackingOut? ==> SlotHolders(states[i + 1]) == SlotHolders(states[i]) + 1
  {
    InvAlways(states, steps, i);
    InvAlways(states, steps, i + 1);
    assert Does(states[i], steps[i], states[i + 1]);
    var s, t := states[i], steps[i].t;
    AttemptIsCounted(s.attempts, t);
    AttemptsAfterPut(s.attempts, t, states[i + 1].attempts[t]);
    hide SlotAttempts;
    hide Backers;
    hide SlotBoxes;
  }
}
