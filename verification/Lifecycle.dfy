/** The life of pooled sandboxes as a protocol (src/sandboxes.rs, and `spawn` in src/exec.rs).

    Every atomic operation and every section under a lock is one step; any number of threads
    create, delete and spawn, and the sandboxes' processes fork and exit, in any order. From the
    moment a sandbox has a uid until its uid is settled exactly one thread carries its creation
    or its teardown, so the sandbox itself says how far that thread has come (`phase`).
    `owner` and `published` are bookkeeping of the model: which sandbox a process was started or
    forked in, and whether a sandbox ever was in the registry.

    Assumed of the kernel: a process does not change its uid, a scan for the processes of a uid
    sees them all, and processes under a pool uid come only from `spawn` or from a fork. */
module Lifecycle {
  import opened Wrappers
  import opened Uids

  type Sbx = nat
  type Thread = nat
  type Pid = nat

  datatype Process = Process(uid: Uid, owner: Option<Sbx>)

  /** A `create` that has no uid yet. */
  datatype Attempt =
    | BackingOut                  // found the host full; the count is still to be undone
    | Reserved                    // holds a slot
    | NoUid                       // the uid range is exhausted; the slot is still to be undone

  datatype Phase =
    | Building                    // inside create_inner
    | Failed                      // create_inner failed
    | Unslotted                   // failed, and the slot was given back
    | Live                        // in the registry
    | Unmapped                    // delete: taken out of the registry
    | Flagged                     // delete: `deleted` is set
    | Sweeping(looks: nat, pending: set<Pid>)
    | Swept(converged: bool)
    | Wiped(converged: bool, removed: bool)
    | Gone                        // the uid is released or quarantined

  /** The lock of an entry (`deleted: Mutex<bool>`), as `spawn` uses it. */
  datatype Lock = Open | Held(holder: Thread, started: bool)

  datatype Box = Box(uid: Uid, phase: Phase, deleted: bool, lock: Lock, home: bool, published: bool)

  datatype State = State(
    capacity: nat,
    reserved: int,
    pool: Pool,
    registry: set<Sbx>,
    boxes: map<Sbx, Box>,
    attempts: map<Thread, Attempt>,
    asking: map<Thread, Sbx>,     // requests that hold an entry and are about to spawn in it
    procs: map<Pid, Process>)

  datatype Step =
    | Create(t: Thread)
    | BackOut(t: Thread)
    | TakeUid(t: Thread, busy: set<Uid>, x: Sbx)
    | MakeHome(x: Sbx)
    | Publish(x: Sbx)
    | BuildFails(x: Sbx, wiped: bool)
    | ReturnSlot(x: Sbx)
    | ReleaseUnused(x: Sbx)
    | Unmap(x: Sbx)
    | SetDeleted(x: Sbx)
    | FreeSlot(x: Sbx)
    | Look(x: Sbx)
    | Kill(x: Sbx, p: Pid, dies: bool)
    | WipeHome(x: Sbx, ok: bool)
    | SettleUid(x: Sbx)
    | Ask(t: Thread, x: Sbx)
    | TryLock(t: Thread)
    | Start(x: Sbx, p: Pid)
    | Unlock(x: Sbx)
    | Fork(p: Pid, child: Pid)
    | Exit(p: Pid)
    | Foreign(p: Pid, u: Uid)

  const SWEEPS: nat := 100

  function PidsOf(procs: map<Pid, Process>, u: Uid): set<Pid> {
    set p | p in procs && procs[p].uid == u
  }

  predicate In(s: State, x: Sbx, ph: Phase) {
    x in s.boxes && s.boxes[x].phase == ph
  }

  function To(s: State, x: Sbx, ph: Phase): map<Sbx, Box>
    requires x in s.boxes
  {
    s.boxes[x := s.boxes[x].(phase := ph)]
  }

  /** `create` and `create_inner`. */
  ghost predicate Creates(s: State, step: Step, s': State) {
    match step
    case Create(t) =>
      && t !in s.attempts
      && s' == s.(reserved := s.reserved + 1,
                  attempts := s.attempts[t := if s.reserved >= s.capacity then BackingOut else Reserved])
    case BackOut(t) =>
      && t in s.attempts && !s.attempts[t].Reserved?
      && s' == s.(reserved := s.reserved - 1, attempts := s.attempts - {t})
    case TakeUid(t, busy, x) =>
      && t in s.attempts && s.attempts[t].Reserved? && x !in s.boxes
      && (forall u :: u in s.pool.free && PidsOf(s.procs, u) != {} ==> u in busy)
      && var (q, r) := TakeFrom(s.pool, busy);
      s' == (match r
             case None => s.(pool := q, attempts := s.attempts[t := NoUid])
             case Some(u) => s.(pool := q, attempts := s.attempts - {t},
                                boxes := s.boxes[x := Box(u, Building, false, Open, false, false)]))
    case MakeHome(x) =>
      && In(s, x, Building)
      && s' == s.(boxes := s.boxes[x := s.boxes[x].(home := true)])
    case Publish(x) =>
      && In(s, x, Building) && s.boxes[x].home
      && s' == s.(registry := s.registry + {x}, boxes := s.boxes[x := s.boxes[x].(phase := Live, published := true)])
    case BuildFails(x, wiped) =>
      && In(s, x, Building)
      && s' == s.(boxes := s.boxes[x := s.boxes[x].(phase := Failed, home := s.boxes[x].home && !wiped)])
    case ReturnSlot(x) =>
      && In(s, x, Failed)
      && s' == s.(reserved := s.reserved - 1, boxes := To(s, x, Unslotted))
    case ReleaseUnused(x) =>
      && In(s, x, Unslotted)
      && s' == s.(pool := Returned(s.pool, s.boxes[x].uid), boxes := To(s, x, Gone))
    case _ => false
  }

  /** `delete` and `kill_uid`. */
  ghost predicate Deletes(s: State, step: Step, s': State) {
    match step
    case Unmap(x) =>
      && x in s.registry && x in s.boxes
      && s' == s.(registry := s.registry - {x}, boxes := To(s, x, Unmapped))
    case SetDeleted(x) =>
      && In(s, x, Unmapped) && s.boxes[x].lock.Open?
      && s' == s.(boxes := s.boxes[x := s.boxes[x].(deleted := true, phase := Flagged)])
    case FreeSlot(x) =>
      && In(s, x, Flagged)
      && s' == s.(reserved := s.reserved - 1, boxes := To(s, x, Sweeping(0, {})))
    case Look(x) =>
      && x in s.boxes && s.boxes[x].phase.Sweeping? && s.boxes[x].phase.pending == {}
      && var found := PidsOf(s.procs, s.boxes[x].uid);
      && var looks := s.boxes[x].phase.looks;
      s' == s.(boxes := To(s, x,
        if found == {} then Swept(true)
        else if looks < SWEEPS then Sweeping(looks + 1, found)
        else Swept(false)))
    case Kill(x, p, dies) =>
      && x in s.boxes && s.boxes[x].phase.Sweeping? && p in s.boxes[x].phase.pending
      && s' == s.(procs := if dies then s.procs - {p} else s.procs,
                  boxes := To(s, x, s.boxes[x].phase.(pending := s.boxes[x].phase.pending - {p})))
    case WipeHome(x, ok) =>
      && x in s.boxes && s.boxes[x].phase.Swept?
      && s' == s.(boxes := s.boxes[x := s.boxes[x].(home := s.boxes[x].home && !ok,
                                                    phase := Wiped(s.boxes[x].phase.converged, ok))])
    case SettleUid(x) =>
      && x in s.boxes && s.boxes[x].phase.Wiped?
      && var ph := s.boxes[x].phase;
      s' == s.(pool := if ph.converged && ph.removed then Returned(s.pool, s.boxes[x].uid)
                       else SetAside(s.pool, s.boxes[x].uid),
               boxes := To(s, x, Gone))
    case _ => false
  }

  /** `spawn`, by a request that got hold of the entry while it was in the registry. */
  ghost predicate Spawns(s: State, step: Step, s': State) {
    match step
    case Ask(t, x) =>
      && t !in s.asking && x in s.registry
      && s' == s.(asking := s.asking[t := x])
    case TryLock(t) =>
      && t in s.asking && s.asking[t] in s.boxes
      && var x := s.asking[t];
      && s.boxes[x].lock.Open?
      && s' == s.(asking := s.asking - {t},
                  boxes := if s.boxes[x].deleted then s.boxes else s.boxes[x := s.boxes[x].(lock := Held(t, false))])
    case Start(x, p) =>
      && x in s.boxes && s.boxes[x].lock.Held? && !s.boxes[x].lock.started && p !in s.procs
      && s' == s.(procs := s.procs[p := Process(s.boxes[x].uid, Some(x))],
                  boxes := s.boxes[x := s.boxes[x].(lock := s.boxes[x].lock.(started := true))])
    case Unlock(x) =>
      && x in s.boxes && s.boxes[x].lock.Held?
      && s' == s.(boxes := s.boxes[x := s.boxes[x].(lock := Open)])
    case _ => false
  }

  /** What processes do by themselves; `Foreign` is any process outside the pool's range. */
  ghost predicate Happens(s: State, step: Step, s': State) {
    match step
    case Fork(p, child) =>
      && p in s.procs && child !in s.procs
      && s' == s.(procs := s.procs[child := s.procs[p]])
    case Exit(p) =>
      && p in s.procs
      && s' == s.(procs := s.procs - {p})
    case Foreign(p, u) =>
      && p !in s.procs && !InRange(u)
      && s' == s.(procs := s.procs[p := Process(u, None)])
    case _ => false
  }

  ghost predicate Does(s: State, step: Step, s': State) {
    Creates(s, step, s') || Deletes(s, step, s') || Spawns(s, step, s') || Happens(s, step, s')
  }

  /** A host that has just started: every uid of the range that already owns a process, or is
      named in the image, was set aside before the first request. */
  ghost predicate Init(s: State) {
    && s.reserved == 0 && s.pool.next == 0 && s.pool.free == []
    && s.registry == {} && s.boxes == map[] && s.attempts == map[] && s.asking == map[]
    && (forall p :: p in s.procs && InRange(s.procs[p].uid) ==> s.procs[p].uid in s.pool.quarantined)
  }

  /** A run: a first state and the states its steps lead to. */
  ghost predicate Run(states: seq<State>, steps: seq<Step>) {
    && |states| == |steps| + 1 && Init(states[0])
    && forall i :: 0 <= i < |steps| ==> Does(states[i], steps[i], states[i + 1])
  }

  // ---- what every step keeps -------------------------------------------------------------

  /** `deleted` is set from the flagging step on, and whoever holds the lock of an entry holds
      it before that step: no process is being started in a flagged sandbox. */
  predicate BoxAgrees(b: Box) {
    && (b.deleted <==> !(b.phase.Building? || b.phase.Failed? || b.phase.Unslotted? || b.phase.Live? || b.phase.Unmapped?)
                       && (b.phase.Gone? ==> b.published))
    && (b.lock.Held? ==> b.phase.Live? || b.phase.Unmapped?)
    && (b.phase.Live? || b.phase.Unmapped? || b.deleted ==> b.published)
    && (b.published ==> !b.phase.Building? && !b.phase.Failed? && !b.phase.Unslotted?)
    && (b.published && !b.phase.Wiped? && !b.phase.Gone? ==> b.home)
    && (b.phase.Wiped? ==> (b.phase.removed <==> !b.home))
  }

  ghost predicate StagesAgree(s: State) {
    && (forall x :: x in s.boxes ==> BoxAgrees(s.boxes[x]))
    && (forall x :: x in s.registry ==> x in s.boxes)
    && (forall x :: x in s.boxes ==> (x in s.registry <==> s.boxes[x].phase.Live?))
    && (forall t :: t in s.asking ==> s.asking[t] in s.boxes && s.boxes[s.asking[t]].published)
  }

  predicate HoldsUid(b: Box) {
    !b.phase.Gone?
  }

  function HeldUids(boxes: map<Sbx, Box>): set<Uid> {
    set x | x in boxes && HoldsUid(boxes[x]) :: boxes[x].uid
  }

  /** Uid conservation: held by exactly one sandbox, free once, or quarantined. */
  ghost predicate UidsConserved(s: State) {
    && Partitioned(s.pool, HeldUids(s.boxes))
    && (forall x, y :: x in s.boxes && y in s.boxes && x != y && HoldsUid(s.boxes[x]) && HoldsUid(s.boxes[y]) ==>
          s.boxes[x].uid != s.boxes[y].uid)
  }

  /** Whether a sandbox in this phase may have processes while its uid is not quarantined. */
  predicate MayRun(ph: Phase) {
    || ph.Live? || ph.Unmapped? || ph.Flagged? || ph.Sweeping?
    || (ph.Swept? && !ph.converged)
    || (ph.Wiped? && !ph.converged)
  }

  /** A process under a pool uid that is not quarantined belongs to the sandbox holding it. */
  ghost predicate ProcessesOwned(s: State) {
    forall p :: p in s.procs && InRange(s.procs[p].uid) && s.procs[p].uid !in s.pool.quarantined ==>
      && s.procs[p].owner.Some? && s.procs[p].owner.value in s.boxes
      && s.boxes[s.procs[p].owner.value].uid == s.procs[p].uid
      && MayRun(s.boxes[s.procs[p].owner.value].phase)
  }

  /** A home that outlives its sandbox keeps its uid out of circulation, unless the sandbox
      was never published. */
  ghost predicate HomesGuarded(s: State) {
    forall x :: x in s.boxes && s.boxes[x].home && s.boxes[x].phase.Gone? && s.boxes[x].published ==>
      s.boxes[x].uid in s.pool.quarantined
  }

  predicate HoldsSlot(ph: Phase) {
    ph.Building? || ph.Failed? || ph.Live? || ph.Unmapped? || ph.Flagged?
  }

  function SlotBoxes(boxes: map<Sbx, Box>): set<Sbx> {
    set x | x in boxes && HoldsSlot(boxes[x].phase)
  }

  function SlotAttempts(attempts: map<Thread, Attempt>): set<Thread> {
    set t | t in attempts && !attempts[t].BackingOut?
  }

  function Backers(attempts: map<Thread, Attempt>): set<Thread> {
    set t | t in attempts && attempts[t].BackingOut?
  }

  /** Creates that reserved a slot and sandboxes that have not given theirs back. */
  function SlotHolders(s: State): nat {
    |SlotBoxes(s.boxes)| + |SlotAttempts(s.attempts)|
  }

  ghost predicate CapacityKept(s: State) {
    && s.reserved == SlotHolders(s) + |Backers(s.attempts)|
    && SlotHolders(s) <= s.capacity
  }

  ghost predicate Inv(s: State) {
    && StagesAgree(s)
    && UidsConserved(s)
    && ProcessesOwned(s)
    && HomesGuarded(s)
    && CapacityKept(s)
  }
}
