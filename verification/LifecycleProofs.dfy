/** Every step keeps the invariant of `Lifecycle`, and what follows for every run. */
module LifecycleProofs {
  import opened Wrappers
  import opened Uids
  import opened Lifecycle

  lemma AgreesAt(s: State, x: Sbx)
    requires StagesAgree(s) && x in s.boxes
    ensures BoxAgrees(s.boxes[x]) && (x in s.registry <==> s.boxes[x].phase.Live?)
  {
  }

  /** One sandbox is new or moves on; it is in the registry exactly while it is live. */
  lemma StagesAfterMove(s: State, s': State, x: Sbx, b: Box)
    requires StagesAgree(s) && BoxAgrees(b) && s'.boxes == s.boxes[x := b] && s'.asking == s.asking
    requires x in s.boxes && s.boxes[x].published ==> b.published
    requires x !in s.boxes ==> forall t :: t in s.asking ==> s.asking[t] != x
    requires s'.registry == if b.phase.Live? then s.registry + {x} else s.registry - {x}
    ensures StagesAgree(s')
  {
  }

  lemma NobodyAsksForNew(s: State, x: Sbx)
    requires StagesAgree(s) && x !in s.boxes
    ensures x !in s.registry && forall t :: t in s.asking ==> s.asking[t] != x
  {
  }

  lemma StagesKeptByCreate(s: State, step: Step, s': State)
    requires StagesAgree(s) && Creates(s, step, s')
    ensures StagesAgree(s')
  {
    if step.Create? || step.BackOut? {
    } else if step.TakeUid? {
      NobodyAsksForNew(s, step.x);
      if s'.boxes != s.boxes {
        StagesAfterMove(s, s', step.x, s'.boxes[step.x]);
      }
    } else {
      hide StagesAgree;
      AgreesAt(s, step.x);
      StagesAfterMove(s, s', step.x, s'.boxes[step.x]);
    }
  }

  lemma StagesKeptByDelete(s: State, step: Step, s': State)
    requires StagesAgree(s) && Deletes(s, step, s')
    ensures StagesAgree(s')
  {
    hide StagesAgree;
    hide PidsOf;
    AgreesAt(s, step.x);
    StagesAfterMove(s, s', step.x, s'.boxes[step.x]);
  }

  lemma StagesUntouched(s: State, s': State)
    requires StagesAgree(s) && s'.boxes == s.boxes && s'.registry == s.registry
    requires forall t :: t in s'.asking ==> (t in s.asking && s'.asking[t] == s.asking[t]) || s'.asking[t] in s.registry
    ensures StagesAgree(s')
  {
  }

  lemma StagesKeptBySpawn(s: State, step: Step, s': State)
    requires StagesAgree(s) && (Spawns(s, step, s') || Happens(s, step, s'))
    ensures StagesAgree(s')
  {
    if step.TryLock? && !s.boxes[s.asking[step.t]].deleted {
      StagesAfterLock(s, step, s');
    } else {
      hide StagesAgree;
      if step.Start? || step.Unlock? {
        AgreesAt(s, step.x);
        StagesAfterMove(s, s', step.x, s'.boxes[step.x]);
      } else {
        StagesUntouched(s, s');
      }
    }
  }

  lemma StagesAfterLock(s: State, step: Step, s': State)
    requires StagesAgree(s) && Spawns(s, step, s') && step.TryLock? && !s.boxes[s.asking[step.t]].deleted
    ensures StagesAgree(s')
  {
    var x := s.asking[step.t];
    var asked := s.(asking := s'.asking);
    StagesUntouched(s, asked);
    AgreesAt(s, x);
    assert s.boxes[x].published;
    hide StagesAgree;
    StagesAfterMove(asked, s', x, s'.boxes[x]);
  }

  lemma PoolUntouchedByOthers(s: State, step: Step, s': State)
    requires Deletes(s, step, s') || Spawns(s, step, s') || Happens(s, step, s')
    requires !step.SettleUid?
    ensures s'.pool == s.pool
  {
    hide PidsOf;
  }

  lemma PoolUntouched(s: State, step: Step, s': State)
    requires Does(s, step, s') && !step.TakeUid? && !step.ReleaseUnused? && !step.SettleUid?
    ensures s'.pool == s.pool
  {
    DoesOne(s, step, s');
    hide Does;
    hide Deletes;
    hide Spawns;
    hide Happens;
    hide TakeFrom;
    hide PidsOf;
    if !Creates(s, step, s') {
      hide Creates;
      PoolUntouchedByOthers(s, step, s');
    }
  }

  /** A quarantined uid is never let go again, whatever happens. */
  lemma QuarantineIsForGood(s: State, step: Step, s': State, u: Uid)
    requires UidsConserved(s) && Does(s, step, s') && u in s.pool.quarantined
    ensures u in s'.pool.quarantined
  {
    if step.TakeUid? {
      TakeKeepsPartition(s.pool, step.busy, HeldUids(s.boxes));
    } else if !step.ReleaseUnused? && !step.SettleUid? {
      PoolUntouched(s, step, s');
    }
  }

  /** A sandbox that was not there, or could run nothing before, changes nothing for processes. */
  lemma ProcessesAfterBuild(s: State, s': State, x: Sbx, b: Box)
    requires ProcessesOwned(s) && s'.procs == s.procs && QuarantineGrows(s, s') && s'.boxes == s.boxes[x := b]
    requires x in s.boxes ==> !MayRun(s.boxes[x].phase)
    requires x !in s.boxes ==> forall p :: p in s.procs ==> s.procs[p].owner != Some(x) || !MayOwn(s, p)
    ensures ProcessesOwned(s')
  {
    forall p | p in s'.procs && InRange(s'.procs[p].uid) && s'.procs[p].uid !in s'.pool.quarantined
      ensures s'.procs[p].owner.Some? && s'.procs[p].owner.value in s'.boxes
      ensures s'.boxes[s'.procs[p].owner.value].uid == s'.procs[p].uid && MayRun(s'.boxes[s'.procs[p].owner.value].phase)
    {
      assert s.procs[p].uid !in s.pool.quarantined;
    }
  }

  predicate MayOwn(s: State, p: Pid) {
    p in s.procs && InRange(s.procs[p].uid) && s.procs[p].uid !in s.pool.quarantined
  }

  ghost predicate QuarantineGrows(s: State, s': State) {
    forall u :: u in s.pool.quarantined ==> u in s'.pool.quarantined
  }

  lemma ProcessesUntouched(s: State, s': State)
    requires ProcessesOwned(s) && s'.procs == s.procs && s'.boxes == s.boxes && QuarantineGrows(s, s')
    ensures ProcessesOwned(s')
  {
  }

  lemma ProcessesKeptByCreate(s: State, step: Step, s': State)
    requires StagesAgree(s) && ProcessesOwned(s) && Creates(s, step, s') && QuarantineGrows(s, s')
    ensures ProcessesOwned(s')
  {
    hide StagesAgree;
    hide QuarantineGrows;
    hide TakeFrom;
    hide PidsOf;
    if s'.boxes == s.boxes {
      ProcessesUntouched(s, s');
    } else {
      ProcessesAfterBuild(s, s', step.x, s'.boxes[step.x]);
    }
  }

  /** The sweep: only a look that finds nothing lets the uid go, and nothing can be started in
      or forked into a flagged sandbox that has no process left. */
  lemma ProcessesKeptByDelete(s: State, step: Step, s': State)
    requires StagesAgree(s) && ProcessesOwned(s) && Deletes(s, step, s')
    requires forall u :: u in s.pool.quarantined ==> u in s'.pool.quarantined
    ensures ProcessesOwned(s')
  {
    if step.Look? {
      forall p | p in s.procs && s.procs[p].uid == s.boxes[step.x].uid
        ensures p in PidsOf(s.procs, s.boxes[step.x].uid)
      {
      }
    } else if step.SettleUid? && s'.pool == SetAside(s.pool, s.boxes[step.x].uid) {
      assert s'.pool.quarantined[|s.pool.quarantined|] == s.boxes[step.x].uid;
    }
  }

  lemma ProcessesKeptBySpawn(s: State, step: Step, s': State)
    requires StagesAgree(s) && ProcessesOwned(s) && (Spawns(s, step, s') || Happens(s, step, s'))
    ensures ProcessesOwned(s')
  {
  }

  lemma HomesKeptByCreate(s: State, step: Step, s': State)
    requires StagesAgree(s) && HomesGuarded(s) && Creates(s, step, s') && QuarantineGrows(s, s')
    ensures HomesGuarded(s')
  {
    hide TakeFrom;
    hide Returned;
  }

  lemma HomesKeptByDelete(s: State, step: Step, s': State)
    requires StagesAgree(s) && HomesGuarded(s) && Deletes(s, step, s') && QuarantineGrows(s, s')
    ensures HomesGuarded(s')
  {
    if step.SettleUid? && s'.pool == SetAside(s.pool, s.boxes[step.x].uid) {
      assert s'.pool.quarantined[|s.pool.quarantined|] == s.boxes[step.x].uid;
    }
  }

  lemma HomesKeptByOthers(s: State, step: Step, s': State)
    requires StagesAgree(s) && HomesGuarded(s) && (Spawns(s, step, s') || Happens(s, step, s'))
    ensures HomesGuarded(s')
  {
  }

  lemma HomesKept(s: State, step: Step, s': State)
    requires StagesAgree(s) && UidsConserved(s) && HomesGuarded(s) && Does(s, step, s')
    ensures HomesGuarded(s')
  {
    hide StagesAgree;
    hide UidsConserved;
    hide HomesGuarded;
    hide Creates;
    hide Deletes;
    hide Spawns;
    hide Happens;
    forall u | u in s.pool.quarantined ensures u in s'.pool.quarantined {
      QuarantineIsForGood(s, step, s', u);
    }
    if Creates(s, step, s') {
      HomesKeptByCreate(s, step, s');
    } else if Deletes(s, step, s') {
      HomesKeptByDelete(s, step, s');
    } else {
      HomesKeptByOthers(s, step, s');
    }
  }

  // ---- uids ------------------------------------------------------------------------------

  lemma HeldAfterTake(boxes: map<Sbx, Box>, x: Sbx, b: Box)
    requires x !in boxes && HoldsUid(b)
    ensures HeldUids(boxes[x := b]) == HeldUids(boxes) + {b.uid}
  {
    var after := boxes[x := b];
    assert after[x].uid in HeldUids(after);
    forall y | y in boxes && HoldsUid(boxes[y]) ensures boxes[y].uid in HeldUids(after) {
      assert after[y].uid in HeldUids(after);
    }
  }

  lemma HeldAfterMove(boxes: map<Sbx, Box>, x: Sbx, b: Box)
    requires x in boxes && boxes[x].uid == b.uid && HoldsUid(boxes[x]) == HoldsUid(b)
    ensures HeldUids(boxes[x := b]) == HeldUids(boxes)
  {
    var after := boxes[x := b];
    forall y | y in boxes && HoldsUid(boxes[y])
      ensures boxes[y].uid in HeldUids(after)
    {
      assert after[y].uid == boxes[y].uid;
    }
    forall y | y in after && HoldsUid(after[y])
      ensures after[y].uid in HeldUids(boxes)
    {
      assert after[y].uid == boxes[y].uid;
    }
  }

  lemma HeldAfterSettling(boxes: map<Sbx, Box>, x: Sbx, b: Box)
    requires x in boxes && HoldsUid(boxes[x]) && !HoldsUid(b)
    requires forall y, z :: y in boxes && z in boxes && y != z && HoldsUid(boxes[y]) && HoldsUid(boxes[z]) ==>
               boxes[y].uid != boxes[z].uid
    ensures HeldUids(boxes[x := b]) == HeldUids(boxes) - {boxes[x].uid}
  {
    var after := boxes[x := b];
    forall y | y in boxes && HoldsUid(boxes[y]) && y != x
      ensures boxes[y].uid in HeldUids(after) && boxes[y].uid != boxes[x].uid
    {
      assert after[y].uid == boxes[y].uid;
    }
    forall y | y in after && HoldsUid(after[y])
      ensures after[y].uid in HeldUids(boxes)
    {
      assert after[y].uid == boxes[y].uid;
    }
  }

  lemma UidsKeptByTake(s: State, step: Step, s': State)
    requires UidsConserved(s) && step.TakeUid? && Creates(s, step, s')
    ensures UidsConserved(s')
  {
    TakeKeepsPartition(s.pool, step.busy, HeldUids(s.boxes));
    var r := TakeFrom(s.pool, step.busy).1;
    if r.Some? {
      var b := Box(r.value, Building, false, Open, false, false);
      assert s'.boxes == s.boxes[step.x := b];
      HeldAfterTake(s.boxes, step.x, b);
      assert HeldUids(s'.boxes) == HeldUids(s.boxes) + {r.value};
      forall y | y in s.boxes && HoldsUid(s.boxes[y]) ensures s.boxes[y].uid != r.value {
        assert s.boxes[y].uid in HeldUids(s.boxes);
      }
    } else {
      assert s'.boxes == s.boxes;
    }
  }

  lemma UidsKeptBySettling(s: State, step: Step, s': State)
    requires UidsConserved(s) && (step.ReleaseUnused? || step.SettleUid?) && Does(s, step, s')
    ensures UidsConserved(s')
  {
    var x := step.x;
    HeldAfterSettling(s.boxes, x, s'.boxes[x]);
    assert s.boxes[x].uid in HeldUids(s.boxes);
    ReturnKeepsPartition(s.pool, HeldUids(s.boxes), s.boxes[x].uid);
  }

  /** A step that leaves the pool alone and moves at most one sandbox on. */
  lemma UidsKeptByMove(s: State, s': State, x: Sbx)
    requires UidsConserved(s) && s'.pool == s.pool && x in s.boxes && x in s'.boxes
    requires s'.boxes == s.boxes[x := s'.boxes[x]] && s.boxes[x].uid == s'.boxes[x].uid && HoldsUid(s.boxes[x]) == HoldsUid(s'.boxes[x])
    ensures UidsConserved(s')
  {
    HeldAfterMove(s.boxes, x, s'.boxes[x]);
  }

  lemma UidsKeptByCreate(s: State, step: Step, s': State)
    requires UidsConserved(s) && Creates(s, step, s') && !step.TakeUid? && !step.ReleaseUnused?
    ensures UidsConserved(s')
  {
    hide UidsConserved;
    if step.Create? || step.BackOut? {
      UidsUntouched(s, s');
    } else {
      UidsKeptByMove(s, s', step.x);
    }
  }

  lemma UidsKeptByDelete(s: State, step: Step, s': State)
    requires StagesAgree(s) && UidsConserved(s) && Deletes(s, step, s') && !step.SettleUid?
    ensures UidsConserved(s')
  {
    hide UidsConserved;
    hide StagesAgree;
    hide PidsOf;
    AgreesAt(s, step.x);
    UidsKeptByMove(s, s', step.x);
  }

  lemma UidsKeptBySpawn(s: State, step: Step, s': State)
    requires UidsConserved(s) && (Spawns(s, step, s') || Happens(s, step, s'))
    ensures UidsConserved(s')
  {
    hide UidsConserved;
    if step.TryLock? {
      UidsKeptByMove(s, s', s.asking[step.t]);
    } else if step.Start? || step.Unlock? {
      UidsKeptByMove(s, s', step.x);
    } else {
      UidsUntouched(s, s');
    }
  }

  lemma UidsKeptByOthers(s: State, step: Step, s': State)
    requires StagesAgree(s) && UidsConserved(s) && Does(s, step, s')
    requires !step.TakeUid? && !step.ReleaseUnused? && !step.SettleUid?
    ensures UidsConserved(s')
  {
    hide *;
    assert Creates(s, step, s') || Deletes(s, step, s') || Spawns(s, step, s') || Happens(s, step, s') by {
      DoesOne(s, step, s');
    }
    if Creates(s, step, s') {
      UidsKeptByCreate(s, step, s');
    } else if Deletes(s, step, s') {
      UidsKeptByDelete(s, step, s');
    } else {
      UidsKeptBySpawn(s, step, s');
    }
  }

  lemma DoesOne(s: State, step: Step, s': State)
    requires Does(s, step, s')
    ensures Creates(s, step, s') || Deletes(s, step, s') || Spawns(s, step, s') || Happens(s, step, s')
  {
    hide Creates;
    hide Deletes;
    hide Spawns;
    hide Happens;
  }

  lemma UidsUntouched(s: State, s': State)
    requires UidsConserved(s) && s'.pool == s.pool && s'.boxes == s.boxes
    ensures UidsConserved(s')
  {
  }

  lemma UidsKept(s: State, step: Step, s': State)
    requires StagesAgree(s) && UidsConserved(s) && Does(s, step, s')
    ensures UidsConserved(s')
  {
    hide UidsConserved;
    hide StagesAgree;
    if step.TakeUid? {
      UidsKeptByTake(s, step, s');
    } else if step.ReleaseUnused? || step.SettleUid? {
      UidsKeptBySettling(s, step, s');
    } else {
      UidsKeptByOthers(s, step, s');
    }
  }

  // ---- capacity --------------------------------------------------------------------------

  /** How the set of slot holders changes when one sandbox moves on. */
  lemma SlotsAfterMove(boxes: map<Sbx, Box>, x: Sbx, b: Box)
    ensures SlotBoxes(boxes[x := b]) == if HoldsSlot(b.phase) then SlotBoxes(boxes) + {x} else SlotBoxes(boxes) - {x}
    ensures |SlotBoxes(boxes[x := b])| == |SlotBoxes(boxes)|
            + (if HoldsSlot(b.phase) && x !in SlotBoxes(boxes) then 1 else 0)
            - (if !HoldsSlot(b.phase) && x in SlotBoxes(boxes) then 1 else 0)
  {
    assert SlotBoxes(boxes[x := b]) == if HoldsSlot(b.phase) then SlotBoxes(boxes) + {x} else SlotBoxes(boxes) - {x};
  }

  lemma AttemptPut(attempts: map<Thread, Attempt>, t: Thread, a: Attempt)
    ensures SlotAttempts(attempts[t := a]) == (SlotAttempts(attempts) - {t}) + if a.BackingOut? then {} else {t}
    ensures Backers(attempts[t := a]) == (Backers(attempts) - {t}) + if a.BackingOut? then {t} else {}
  {
  }

  lemma AttemptsAfterPut(attempts: map<Thread, Attempt>, t: Thread, a: Attempt)
    ensures var after := attempts[t := a];
      && |SlotAttempts(after)| == |SlotAttempts(attempts) - {t}| + (if a.BackingOut? then 0 else 1)
      && |Backers(after)| == |Backers(attempts) - {t}| + (if a.BackingOut? then 1 else 0)
  {
    hide SlotAttempts;
    hide Backers;
    AttemptPut(attempts, t, a);
  }

  lemma AttemptsAfterEnd(attempts: map<Thread, Attempt>, t: Thread)
    ensures SlotAttempts(attempts - {t}) == SlotAttempts(attempts) - {t}
    ensures Backers(attempts - {t}) == Backers(attempts) - {t}
  {
  }

  /** Which of the two sets a thread is in. */
  lemma AttemptIsCounted(attempts: map<Thread, Attempt>, t: Thread)
    ensures |SlotAttempts(attempts) - {t}| == |SlotAttempts(attempts)| - (if t in attempts && !attempts[t].BackingOut? then 1 else 0)
    ensures |Backers(attempts) - {t}| == |Backers(attempts)| - (if t in attempts && attempts[t].BackingOut? then 1 else 0)
  {
  }

  lemma CapacityKeptByCreate(s: State, step: Step, s': State)
    requires CapacityKept(s) && Creates(s, step, s') && step.Create?
    ensures CapacityKept(s')
  {
    AttemptIsCounted(s.attempts, step.t);
    AttemptsAfterPut(s.attempts, step.t, s'.attempts[step.t]);
  }

  lemma CapacityKeptByBackOut(s: State, step: Step, s': State)
    requires CapacityKept(s) && Creates(s, step, s') && step.BackOut?
    ensures CapacityKept(s')
  {
    AttemptIsCounted(s.attempts, step.t);
    AttemptsAfterEnd(s.attempts, step.t);
  }

  lemma SlotBecomesBox(s: State, s': State, t: Thread, x: Sbx, b: Box)
    requires CapacityKept(s) && t in s.attempts && s.attempts[t].Reserved? && x !in s.boxes && HoldsSlot(b.phase)
    requires s'.attempts == s.attempts - {t} && s'.boxes == s.boxes[x := b]
    requires s'.capacity == s.capacity && s'.reserved == s.reserved
    ensures CapacityKept(s')
  {
    AttemptIsCounted(s.attempts, t);
    AttemptsAfterEnd(s.attempts, t);
    SlotsAfterMove(s.boxes, x, b);
  }

  lemma SlotIsStillHeld(s: State, s': State, t: Thread)
    requires CapacityKept(s) && t in s.attempts && s.attempts[t].Reserved? && s'.attempts == s.attempts[t := NoUid]
    requires s'.boxes == s.boxes && s'.capacity == s.capacity && s'.reserved == s.reserved
    ensures CapacityKept(s')
  {
    AttemptIsCounted(s.attempts, t);
    AttemptsAfterPut(s.attempts, t, NoUid);
  }

  lemma CapacityKeptByTake(s: State, step: Step, s': State)
    requires CapacityKept(s) && Creates(s, step, s') && step.TakeUid?
    ensures CapacityKept(s')
  {
    hide CapacityKept;
    hide TakeFrom;
    hide PidsOf;
    var r := TakeFrom(s.pool, step.busy).1;
    if r.None? {
      SlotIsStillHeld(s, s', step.t);
    } else {
      SlotBecomesBox(s, s', step.t, step.x, Box(r.value, Building, false, Open, false, false));
    }
  }

  /** One sandbox moves on; it may give its slot back, and then the count goes down with it. */
  lemma CapacityKeptByMove(s: State, s': State, x: Sbx, b: Box)
    requires CapacityKept(s) && x in s.boxes && s'.boxes == s.boxes[x := b]
    requires s'.attempts == s.attempts && s'.capacity == s.capacity
    requires HoldsSlot(b.phase) ==> HoldsSlot(s.boxes[x].phase)
    requires s'.reserved == s.reserved - (if HoldsSlot(s.boxes[x].phase) && !HoldsSlot(b.phase) then 1 else 0)
    ensures CapacityKept(s')
  {
    SlotsAfterMove(s.boxes, x, b);
  }

  lemma CapacityUntouched(s: State, s': State)
    requires CapacityKept(s) && s'.boxes == s.boxes && s'.attempts == s.attempts && s'.capacity == s.capacity
    requires s'.reserved == s.reserved
    ensures CapacityKept(s')
  {
  }

  lemma CapacityKeptByBuild(s: State, step: Step, s': State)
    requires CapacityKept(s) && Creates(s, step, s') && !(step.Create? || step.BackOut? || step.TakeUid?)
    ensures CapacityKept(s')
  {
    hide CapacityKept;
    CapacityKeptByMove(s, s', step.x, s'.boxes[step.x]);
  }

  lemma CapacityKeptByDelete(s: State, step: Step, s': State)
    requires StagesAgree(s) && CapacityKept(s) && Deletes(s, step, s')
    ensures CapacityKept(s')
  {
    hide CapacityKept;
    hide StagesAgree;
    hide PidsOf;
    AgreesAt(s, step.x);
    CapacityKeptByMove(s, s', step.x, s'.boxes[step.x]);
  }

  lemma CapacityKeptBySpawn(s: State, step: Step, s': State)
    requires CapacityKept(s) && (Spawns(s, step, s') || Happens(s, step, s'))
    ensures CapacityKept(s')
  {
    hide CapacityKept;
    if step.TryLock? && !s.boxes[s.asking[step.t]].deleted {
      CapacityKeptByMove(s, s', s.asking[step.t], s'.boxes[s.asking[step.t]]);
    } else if step.Start? || step.Unlock? {
      CapacityKeptByMove(s, s', step.x, s'.boxes[step.x]);
    } else {
      CapacityUntouched(s, s');
    }
  }

  // ---- every run -------------------------------------------------------------------------

  lemma InvKept(s: State, step: Step, s': State)
    requires Inv(s) && Does(s, step, s')
    ensures Inv(s')
  {
    hide StagesAgree;
    hide UidsConserved;
    hide ProcessesOwned;
    hide HomesGuarded;
    hide CapacityKept;
    forall u | u in s.pool.quarantined ensures u in s'.pool.quarantined {
      QuarantineIsForGood(s, step, s', u);
    }
    UidsKept(s, step, s');
    HomesKept(s, step, s');
    if Creates(s, step, s') {
      CreateKeepsInv(s, step, s');
    } else if Deletes(s, step, s') {
      StagesKeptByDelete(s, step, s');
      ProcessesKeptByDelete(s, step, s');
      CapacityKeptByDelete(s, step, s');
    } else {
      StagesKeptBySpawn(s, step, s');
      ProcessesKeptBySpawn(s, step, s');
      CapacityKeptBySpawn(s, step, s');
    }
  }

  lemma CreateKeepsInv(s: State, step: Step, s': State)
    requires StagesAgree(s) && ProcessesOwned(s) && CapacityKept(s) && Creates(s, step, s') && QuarantineGrows(s, s')
    ensures StagesAgree(s') && ProcessesOwned(s') && CapacityKept(s')
  {
    StagesKeptByCreate(s, step, s');
    ProcessesKeptByCreate(s, step, s');
    hide *;
    if step.Create? {
      CapacityKeptByCreate(s, step, s');
    } else if step.BackOut? {
      CapacityKeptByBackOut(s, step, s');
    } else if step.TakeUid? {
      CapacityKeptByTake(s, step, s');
    } else {
      CapacityKeptByBuild(s, step, s');
    }
  }

  lemma InvAtStart(s: State)
    requires Init(s)
    ensures Inv(s)
  {
    assert HeldUids(s.boxes) == {};
    assert SlotBoxes(s.boxes) == {};
    assert SlotAttempts(s.attempts) == {};
    assert Backers(s.attempts) == {};
  }

  lemma {:induction false} InvAlways(states: seq<State>, steps: seq<Step>, i: nat)
    requires Run(states, steps) && i < |states|
    ensures Inv(states[i])
  {
    if i == 0 {
      InvAtStart(states[0]);
    } else {
      InvAlways(states, steps, i - 1);
      assert Does(states[i - 1], steps[i - 1], states[i]);
      InvKept(states[i - 1], steps[i - 1], states[i]);
    }
  }

  /** Uid reuse is clean, in every reachable state: no process runs under a free uid; none runs
      under the uid of a sandbox that is still being created; and every process under the uid
      of a live sandbox was started by that sandbox, or forked within it. */
  lemma UidReuseIsClean(states: seq<State>, steps: seq<Step>, i: nat)
    requires Run(states, steps) && i < |states|
    ensures var s := states[i];
      && (forall u :: u in s.pool.free ==> PidsOf(s.procs, u) == {})
      && (forall x :: x in s.boxes && s.boxes[x].phase.Building? ==> PidsOf(s.procs, s.boxes[x].uid) == {})
      && (forall x, p :: x in s.registry && x in s.boxes && p in PidsOf(s.procs, s.boxes[x].uid) ==>
            s.procs[p].owner == Some(x))
  {
    InvAlways(states, steps, i);
    var s := states[i];
    forall x | x in s.boxes && HoldsUid(s.boxes[x])
      ensures InRange(s.boxes[x].uid) && s.boxes[x].uid !in s.pool.quarantined
    {
      assert s.boxes[x].uid in HeldUids(s.boxes);
    }
    forall u | u in s.pool.free
      ensures PidsOf(s.procs, u) == {}
    {
      if p :| p in PidsOf(s.procs, u) {
        assert false;
      }
    }
  }

  /** Uid conservation, in every reachable state. */
  lemma UidsAreConserved(states: seq<State>, steps: seq<Step>, i: nat)
    requires Run(states, steps) && i < |states|
    ensures UidsConserved(states[i])
  {
    InvAlways(states, steps, i);
  }

  /** A uid that was ever set aside is never free and never held again. */
  lemma {:induction false} QuarantinedNeverReturns(states: seq<State>, steps: seq<Step>, i: nat, j: nat, u: Uid)
    requires Run(states, steps) && i <= j < |states|
    requires u in states[i].pool.quarantined
    ensures u in states[j].pool.quarantined && u !in states[j].pool.free && u !in HeldUids(states[j].boxes)
    decreases j - i
  {
    hide Does;
    hide Inv;
    hide HeldUids;
    InvAlways(states, steps, j);
    if i < j {
      assert Does(states[j - 1], steps[j - 1], states[j]);
      hide Run;
      QuarantinedNeverReturns(states, steps, i, j - 1, u);
      InvAlways(states, steps, j - 1);
      QuarantineIsForGood(states[j - 1], steps[j - 1], states[j], u);
    }
    OutOfUse(states[j], u);
  }

  lemma OutOfUse(s: State, u: Uid)
    requires Inv(s) && u in s.pool.quarantined
    ensures u !in s.pool.free && u !in HeldUids(s.boxes)
  {
  }

  /** `create` reports the range exhausted only when every uid of it is in use or set aside. */
  lemma ExhaustedMeansExhausted(states: seq<State>, steps: seq<Step>, i: nat, u: Uid)
    requires Run(states, steps) && i < |steps| && steps[i].TakeUid?
    requires steps[i].t in states[i + 1].attempts
    requires InRange(u)
    ensures u in HeldUids(states[i + 1].boxes) || u in states[i + 1].pool.quarantined
  {
    InvAlways(states, steps, i);
    assert Does(states[i], steps[i], states[i + 1]);
    TakeKeepsPartition(states[i].pool, steps[i].busy, HeldUids(states[i].boxes));
  }

  /** Capacity safety: the registry never outgrows the host, and no step takes from `reserved`
      unless it is at least one, so the counter never wraps. */
  lemma CapacityIsSafe(states: seq<State>, steps: seq<Step>, i: nat)
    requires Run(states, steps) && i < |states|
    ensures |states[i].registry| <= SlotHolders(states[i]) <= states[i].capacity
    ensures states[i].reserved >= 0
    ensures i < |steps| && states[i + 1].reserved < states[i].reserved ==> states[i].reserved >= 1
  {
    InvAlways(states, steps, i);
    var s := states[i];
    assert s.registry <= SlotBoxes(s.boxes);
    CardinalityOfSubset(s.registry, SlotBoxes(s.boxes));
    if i < |steps| {
      InvAlways(states, steps, i + 1);
    }
  }

  lemma {:induction false} CardinalityOfSubset(a: set<nat>, b: set<nat>)
    requires a <= b
    ensures |a| <= |b|
  {
    if a != {} {
      var e :| e in a;
      CardinalityOfSubset(a - {e}, b - {e});
    }
  }

  /** No files are inherited either: once a published sandbox is gone, its home is gone or its
      uid is never handed out again. */
  lemma LeftoverHomesAreNotInherited(states: seq<State>, steps: seq<Step>, i: nat, x: Sbx, y: Sbx)
    requires Run(states, steps) && i < |states|
    requires x in states[i].boxes && y in states[i].boxes && x != y
    requires states[i].boxes[x].phase.Gone? && states[i].boxes[x].published && states[i].boxes[x].home
    requires HoldsUid(states[i].boxes[y])
    ensures states[i].boxes[x].uid != states[i].boxes[y].uid
    ensures states[i].boxes[x].uid !in states[i].pool.free
  {
    InvAlways(states, steps, i);
    assert states[i].boxes[y].uid in HeldUids(states[i].boxes);
  }

  /** x ends in this step. */
  ghost predicate Ends(s: State, s': State, x: Sbx) {
    && x in s'.boxes && s'.boxes[x].phase.Gone? && (x in s.boxes ==> !s.boxes[x].phase.Gone? && BoxAgrees(s.boxes[x]))
  }

  lemma EndsUnused(s: State, step: Step, s': State, x: Sbx)
    requires Creates(s, step, s') && Ends(s, s', x)
    ensures step.ReleaseUnused? && !s'.boxes[x].published && s'.pool == Returned(s.pool, s'.boxes[x].uid)
  {
    hide TakeFrom;
    hide PidsOf;
    hide Returned;
  }

  lemma EndsDeleted(s: State, step: Step, s': State, x: Sbx)
    requires Deletes(s, step, s') && Ends(s, s', x) && s'.boxes[x].home
    ensures step.SettleUid? && s'.boxes[x].published && s'.pool == SetAside(s.pool, s'.boxes[x].uid)
  {
    hide PidsOf;
    hide SetAside;
    hide Returned;
  }

  lemma PhasesStay(s: State, step: Step, s': State, x: Sbx)
    requires (Spawns(s, step, s') || Happens(s, step, s')) && x in s'.boxes
    ensures x in s.boxes && s'.boxes[x].phase == s.boxes[x].phase
  {
  }

  /** How a sandbox ends with its home left behind. */
  lemma LeftoverHomeSteps(s: State, step: Step, s': State, x: Sbx)
    requires Does(s, step, s') && Ends(s, s', x) && s'.boxes[x].home
    ensures s'.pool == if s'.boxes[x].published then SetAside(s.pool, s'.boxes[x].uid) else Returned(s.pool, s'.boxes[x].uid)
  {
    DoesOne(s, step, s');
    hide Does;
    hide Creates;
    hide Deletes;
    hide Spawns;
    hide Happens;
    if Creates(s, step, s') {
      EndsUnused(s, step, s', x);
    } else if Deletes(s, step, s') {
      EndsDeleted(s, step, s', x);
    } else {
      PhasesStay(s, step, s', x);
    }
  }

  /** A sandbox that ends with its home left behind: its uid is quarantined if it had been
      published, and goes back on the free list if it had not. */
  lemma LeftoverHome(s: State, step: Step, s': State, x: Sbx)
    requires Inv(s) && Does(s, step, s') && x in s'.boxes && s'.boxes[x].phase.Gone? && s'.boxes[x].home
    requires x in s.boxes ==> !s.boxes[x].phase.Gone?
    ensures s'.boxes[x].uid in s'.pool.quarantined <==> s'.boxes[x].published
    ensures s'.boxes[x].uid in s'.pool.free <==> !s'.boxes[x].published
  {
    var u := s'.boxes[x].uid;
    if x in s.boxes {
      AgreesAt(s, x);
    }
    LeftoverHomeSteps(s, step, s', x);
    UidsKept(s, step, s');
    hide Does;
    hide StagesAgree;
    if s'.boxes[x].published {
      assert s'.pool.quarantined[|s.pool.quarantined|] == u;
    } else {
      assert s'.pool.free[|s.pool.free|] == u;
    }
  }

  /** When a uid goes back into circulation although its home is still there: in every run, at the
      step that ends a sandbox without its home being removed, exactly if the sandbox was never
      published; and from then on the uid of a published one stays quarantined. */
  lemma LeftoverHomesFreeTheUidUnlessPublished(states: seq<State>, steps: seq<Step>, i: nat, j: nat, x: Sbx)
    requires Run(states, steps) && i < |steps| && i + 1 <= j < |states|
    requires x in states[i + 1].boxes && states[i + 1].boxes[x].phase.Gone? && states[i + 1].boxes[x].home
    requires x in states[i].boxes ==> !states[i].boxes[x].phase.Gone?
    ensures var b := states[i + 1].boxes[x];
      && (b.uid in states[i + 1].pool.quarantined <==> b.published)
      && (b.uid in states[i + 1].pool.free <==> !b.published)
      && (b.published ==> b.uid !in states[j].pool.free && b.uid !in HeldUids(states[j].boxes))
  {
    hide Inv;
    hide Does;
    InvAlways(states, steps, i);
    LeftoverHome(states[i], steps[i], states[i + 1], x);
    if states[i + 1].boxes[x].published {
      QuarantinedNeverReturns(states, steps, i + 1, j, states[i + 1].boxes[x].uid);
    }
  }

  /** Up to the point where the home is there and the create has failed. */
  lemma CreateThatFails(s0: State) returns (s1: State, s2: State, s3: State, s4: State)
    requires Init(s0) && s0.capacity >= 1 && s0.pool.quarantined == [] && s0.procs == map[]
    ensures Creates(s0, Create(0), s1) && Creates(s1, TakeUid(0, {}, 0), s2)
    ensures Creates(s2, MakeHome(0), s3) && Creates(s3, BuildFails(0, false), s4)
    ensures s4 == s0.(reserved := 1, pool := Pool(1, [], []), boxes := map[0 := Box(UID_BASE, Failed, false, Open, true, false)])
  {
    s1 := s0.(reserved := 1, attempts := map[0 := Reserved]);
    s2 := s1.(pool := Pool(1, [], []), attempts := map[], boxes := map[0 := Box(UID_BASE, Building, false, Open, false, false)]);
    s3 := s2.(boxes := map[0 := Box(UID_BASE, Building, false, Open, true, false)]);
    s4 := s3.(boxes := map[0 := Box(UID_BASE, Failed, false, Open, true, false)]);
    assert TakeFrom(s1.pool, {}) == (Pool(1, [], []), Some(UID_BASE));
    assert s1.attempts - {0} == map[];
  }

  lemma CreateBacksOut(s4: State) returns (s5: State, s6: State)
    requires s4.reserved == 1 && s4.pool == Pool(1, [], [])
    requires s4.boxes == map[0 := Box(UID_BASE, Failed, false, Open, true, false)]
    ensures Creates(s4, ReturnSlot(0), s5) && Creates(s5, ReleaseUnused(0), s6)
    ensures 0 in s6.boxes && s6.boxes[0] == Box(UID_BASE, Gone, false, Open, true, false) && UID_BASE in s6.pool.free
  {
    s5 := s4.(reserved := 0, boxes := map[0 := Box(UID_BASE, Unslotted, false, Open, true, false)]);
    s6 := s5.(pool := Pool(1, [UID_BASE], []), boxes := map[0 := Box(UID_BASE, Gone, false, Open, true, false)]);
  }

  /** The exception is real: a create that fails after making its home may leave it behind, and
      its uid goes straight back on the free list. */
  lemma FailedCreateMayLeaveItsHome(s0: State) returns (states: seq<State>, steps: seq<Step>)
    requires Init(s0) && s0.capacity >= 1 && s0.pool.quarantined == [] && s0.procs == map[]
    ensures Run(states, steps) && states[0] == s0
    ensures var s := states[|steps|];
      0 in s.boxes && s.boxes[0].home && s.boxes[0].phase.Gone? && s.boxes[0].uid in s.pool.free
  {
    var s1, s2, s3, s4 := CreateThatFails(s0);
    var s5, s6 := CreateBacksOut(s4);
    hide Creates;
    hide Deletes;
    hide Spawns;
    hide Happens;
    states := [s0, s1, s2, s3, s4, s5, s6];
    steps := [Create(0), TakeUid(0, {}, 0), MakeHome(0), BuildFails(0, false), ReturnSlot(0), ReleaseUnused(0)];
    assert Run(states, steps);
  }
}
