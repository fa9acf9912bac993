/** How a sandbox ends, in every run of `Lifecycle`, and that the host can always go on: a sandbox
    can be created while there is room, and every sandbox can be deleted. */
module LifecycleEnds {
  import opened Wrappers
  import opened Uids
  import opened Lifecycle
  import opened LifecycleProofs

  // ---- what happens to the uid -----------------------------------------------------------

  predicate IsSwept(ph: Phase) {
    ph.Swept? || ph.Wiped?
  }

  /** How many looks for the sandbox's processes the first n steps hold. */
  function Looks(steps: seq<Step>, x: Sbx, n: nat): nat
    requires n <= |steps|
  {
    if n == 0 then 0 else Looks(steps, x, n - 1) + if steps[n - 1] == Look(x) then 1 else 0
  }

  /** What a step may do to the sweep of a sandbox. */
  ghost predicate SweepGoesOn(s: State, step: Step, s': State, x: Sbx)
    requires x in s.boxes && x in s'.boxes
  {
    var before, after := s.boxes[x].phase, s'.boxes[x].phase;
    var none := PidsOf(s.procs, s.boxes[x].uid) == {};
    && s'.boxes[x].uid == s.boxes[x].uid
    && (step == Look(x) ==> before.Sweeping?)
    && (IsSwept(after) ==>
          if step == Look(x) then
            after.Swept? && (after.converged <==> none) && (!none ==> before.looks >= SWEEPS)
          else IsSwept(before) && before.converged == after.converged)
    && (after.Sweeping? ==>
          if before.Sweeping? then
            && after.looks == before.looks + (if step == Look(x) then 1 else 0)
            && (step == Look(x) ==> before.looks < SWEEPS && !none)
          else before.Flagged? && after.looks == 0)
    && (before.Sweeping? || IsSwept(before) || before.Gone? ==> after.Sweeping? || IsSwept(after) || after.Gone?)
  }

  lemma SweepInCreate(s: State, step: Step, s': State, x: Sbx)
    requires Creates(s, step, s') && x in s.boxes
    ensures x in s'.boxes && SweepGoesOn(s, step, s', x)
  {
    hide PidsOf;
    hide TakeFrom;
    hide Returned;
  }

  lemma SweepInDelete(s: State, step: Step, s': State, x: Sbx)
    requires Deletes(s, step, s') && x in s.boxes && (x in s.registry <==> s.boxes[x].phase.Live?)
    ensures x in s'.boxes && SweepGoesOn(s, step, s', x)
  {
    hide PidsOf;
    hide SetAside;
    hide Returned;
  }

  lemma SweepInOthers(s: State, step: Step, s': State, x: Sbx)
    requires (Spawns(s, step, s') || Happens(s, step, s')) && x in s.boxes
    ensures x in s'.boxes && SweepGoesOn(s, step, s', x)
  {
    hide PidsOf;
  }

  lemma SweepInAny(s: State, step: Step, s': State, x: Sbx)
    requires Does(s, step, s') && StagesAgree(s) && x in s.boxes
    ensures x in s'.boxes && SweepGoesOn(s, step, s', x)
  {
    AgreesAt(s, x);
    DoesOne(s, step, s');
    hide *;
    if Creates(s, step, s') {
      SweepInCreate(s, step, s', x);
    } else if Deletes(s, step, s') {
      SweepInDelete(s, step, s', x);
    } else {
      SweepInOthers(s, step, s', x);
    }
  }

  lemma NewInCreate(s: State, step: Step, s': State, x: Sbx)
    requires Creates(s, step, s') && x !in s.boxes && x in s'.boxes
    ensures s'.boxes[x].phase.Building? && !s'.boxes[x].published
  {
    hide PidsOf;
    hide TakeFrom;
    hide Returned;
  }

  lemma NotNewInDelete(s: State, step: Step, s': State, x: Sbx)
    requires Deletes(s, step, s') && x !in s.boxes
    ensures x !in s'.boxes
  {
    hide PidsOf;
    hide SetAside;
    hide Returned;
  }

  lemma NewIsBuilding(s: State, step: Step, s': State, x: Sbx)
    requires Does(s, step, s') && x !in s.boxes && x in s'.boxes
    ensures s'.boxes[x].phase.Building? && !s'.boxes[x].published
  {
    DoesOne(s, step, s');
    hide *;
    if Creates(s, step, s') {
      NewInCreate(s, step, s', x);
    } else if Deletes(s, step, s') {
      NotNewInDelete(s, step, s', x);
    } else {
      PhasesStay(s, step, s', x);
    }
  }

  lemma StagesAlways(states: seq<State>, steps: seq<Step>, i: nat)
    requires Run(states, steps) && i < |states|
    ensures StagesAgree(states[i])
  {
    InvAlways(states, steps, i);
  }

  /** Before a sandbox is swept it was not looked at; while it is, each look is counted. */
  lemma {:induction false} LooksAreCounted(states: seq<State>, steps: seq<Step>, i: nat, x: Sbx)
    requires Run(states, steps) && i < |states|
    ensures x !in states[i].boxes ==> Looks(steps, x, i) == 0
    ensures x in states[i].boxes ==>
              match states[i].boxes[x].phase
              case Sweeping(looks, _) => Looks(steps, x, i) == looks <= SWEEPS
              case Swept(_) => true
              case Wiped(_, _) => true
              case Gone => true
              case _ => Looks(steps, x, i) == 0
  {
    if i == 0 {
      assert states[0].boxes == map[];
    } else {
      hide StagesAgree;
      LooksAreCounted(states, steps, i - 1, x);
      var s, step, s' := states[i - 1], steps[i - 1], states[i];
      assert Does(s, step, s');
      if x in s.boxes {
        StagesAlways(states, steps, i - 1);
        SweepInAny(s, step, s', x);
      } else if x in s'.boxes {
        NewIsBuilding(s, step, s', x);
        NoLookAtNothing(s, step, s', x);
      } else {
        NoLookAtNothing(s, step, s', x);
      }
    }
  }

  lemma NoLookAtNothing(s: State, step: Step, s': State, x: Sbx)
    requires Does(s, step, s') && x !in s.boxes
    ensures step != Look(x)
  {
    hide PidsOf;
    hide TakeFrom;
  }

  // ---- the last look, and what it settles ------------------------------------------------

  /** Look k was the last one before step i. */
  ghost predicate IsLastLook(steps: seq<Step>, x: Sbx, k: nat, i: nat) {
    && k < i <= |steps| && steps[k] == Look(x)
    && forall m :: k < m < i ==> steps[m] != Look(x)
  }

  /** A sweep that is over converged if and only if its last look found no process; otherwise it
      is the hundred and first look that has found some. */
  lemma {:induction false} SweptAtLastLook(states: seq<State>, steps: seq<Step>, i: nat, x: Sbx) returns (k: nat)
    requires Run(states, steps) && i < |states| && x in states[i].boxes && IsSwept(states[i].boxes[x].phase)
    ensures IsLastLook(steps, x, k, i) && x in states[k].boxes && states[k].boxes[x].uid == states[i].boxes[x].uid
    ensures states[i].boxes[x].phase.converged <==> PidsOf(states[k].procs, states[i].boxes[x].uid) == {}
    ensures states[i].boxes[x].phase.converged || Looks(steps, x, i) == 101
  {
    assert i > 0 by {
      assert states[0].boxes == map[];
    }
    hide PidsOf;
    hide StagesAgree;
    var s, step, s' := states[i - 1], steps[i - 1], states[i];
    assert Does(s, step, s');
    if x !in s.boxes {
      NewIsBuilding(s, step, s', x);
    }
    StagesAlways(states, steps, i - 1);
    SweepInAny(s, step, s', x);
    if step == Look(x) {
      k := i - 1;
      LooksAreCounted(states, steps, i - 1, x);
    } else {
      k := SweptAtLastLook(states, steps, i - 1, x);
    }
  }

  lemma PublishedEnds(s: State, step: Step, s': State, x: Sbx)
    requires Inv(s) && Does(s, step, s') && x in s.boxes && !s.boxes[x].phase.Gone?
    requires x in s'.boxes && s'.boxes[x].phase.Gone? && s'.boxes[x].published
    ensures Deletes(s, step, s') && step == SettleUid(x)
    ensures s.boxes[x].phase.Wiped? && s'.boxes[x].home == s.boxes[x].home && s'.boxes[x].uid == s.boxes[x].uid
  {
    AgreesAt(s, x);
    DoesOne(s, step, s');
    hide Inv;
    hide Does;
    if Creates(s, step, s') {
      hide Deletes;
      hide Spawns;
      hide Happens;
      EndsUnused(s, step, s', x);
    } else if Deletes(s, step, s') {
      hide Creates;
      hide Spawns;
      hide Happens;
      hide PidsOf;
      hide SetAside;
      hide Returned;
    } else {
      hide Creates;
      hide Deletes;
      PhasesStay(s, step, s', x);
    }
  }

  /** In every run, at the step that ends a published sandbox: its uid is free afterwards if and only
      if the last look for its processes found none and its home is gone; and it is quarantined if
      and only if not. The last look found some only if a hundred before it did. */
  lemma DeleteSettlesTheUid(states: seq<State>, steps: seq<Step>, i: nat, x: Sbx) returns (k: nat)
    requires Run(states, steps) && i < |steps| && x in states[i + 1].boxes
    requires states[i + 1].boxes[x].phase.Gone? && states[i + 1].boxes[x].published
    requires x in states[i].boxes && !states[i].boxes[x].phase.Gone?
    ensures IsLastLook(steps, x, k, i)
    ensures var b, after := states[i + 1].boxes[x], states[i + 1].pool;
      var clean := PidsOf(states[k].procs, b.uid) == {} && !b.home;
      && (b.uid in after.free <==> clean)
      && (b.uid in after.quarantined <==> !clean)
    ensures PidsOf(states[k].procs, states[i + 1].boxes[x].uid) != {} ==> Looks(steps, x, i) == 101
  {
    var s, step, s' := states[i], steps[i], states[i + 1];
    assert Does(s, step, s');
    InvAlways(states, steps, i);
    InvAlways(states, steps, i + 1);
    AgreesAt(s, x);
    PublishedEnds(s, step, s', x);
    k := SweptAtLastLook(states, steps, i, x);
    UidIsSettled(s, step, s', x);
  }

  lemma UidIsSettled(s: State, step: Step, s': State, x: Sbx)
    requires Deletes(s, step, s') && step == SettleUid(x) && UidsConserved(s') && x in s.boxes && BoxAgrees(s.boxes[x])
    ensures s.boxes[x].phase.Wiped?
    ensures var clean, u := s.boxes[x].phase.converged && !s.boxes[x].home, s.boxes[x].uid;
      (u in s'.pool.free <==> clean) && (u in s'.pool.quarantined <==> !clean)
  {
    hide PidsOf;
    var u := s.boxes[x].uid;
    if s.boxes[x].phase.converged && !s.boxes[x].home {
      assert s'.pool.free[|s.pool.free|] == u;
    } else {
      assert s'.pool.quarantined[|s.pool.quarantined|] == u;
    }
  }
}
