/** Nothing in `Supervision` gets stuck: from every state of every run a command can be started,
    killed, timed out and reported, and an orphan can be reaped. And a run that the kernel must rule
    out. */
module SupervisionProgress {
  import opened Wrappers
  import opened Supervision
  import opened SupervisionProofs
  import opened SupervisionKill

  datatype Trace = Trace(states: seq<State>, steps: seq<Step>)

  /** A run in which the kernel hands out pids as it should, unless `early`. */
  ghost predicate IsRun(trace: Trace, early: bool) {
    Run(trace.states, trace.steps) && trace.states[0].reissueEarly == early
  }

  function Now(trace: Trace): State
    requires |trace.states| > 0
  {
    trace.states[|trace.states| - 1]
  }

  /** b goes on from where a stands. */
  ghost predicate GoesOn(a: Trace, b: Trace) {
    && 0 < |a.states| <= |b.states| && a.states <= b.states && a.steps <= b.steps
  }

  lemma Further(a: Trace, b: Trace, c: Trace)
    requires GoesOn(a, b) && GoesOn(b, c)
    ensures GoesOn(a, c)
  {
  }

  lemma Stays(a: Trace)
    requires |a.states| > 0
    ensures GoesOn(a, a)
  {
  }

  lemma InvNow(a: Trace)
    requires IsRun(a, false) && |a.states| > 0
    ensures Inv(Now(a)) && !Now(a).reissueEarly
  {
    InvAlways(a.states, a.steps, |a.states| - 1);
  }

  lemma Grow(a: Trace, early: bool, step: Step, s': State) returns (b: Trace)
    requires IsRun(a, early) && |a.states| > 0 && Does(Now(a), step, s')
    ensures IsRun(b, early) && GoesOn(a, b) && |b.states| > 0 && Now(b) == s'
  {
    hide Does;
    b := Trace(a.states + [s'], a.steps + [step]);
    forall i | 0 <= i < |b.steps| ensures Does(b.states[i], b.steps[i], b.states[i + 1]) {
      if i < |a.steps| {
        assert Does(a.states[i], a.steps[i], a.states[i + 1]);
      }
    }
  }

  lemma SpawnNext(a: Trace, early: bool, step: Step, s': State) returns (b: Trace)
    requires IsRun(a, early) && |a.states| > 0 && SpawnDoes(Now(a), step, s')
    ensures IsRun(b, early) && GoesOn(a, b) && |b.states| > 0 && Now(b) == s'
  {
    hide KernelDoes;
    hide SpawnDoes;
    hide WaitDoes;
    hide KillDoes;
    hide ReaperDoes;
    b := Grow(a, early, step, s');
  }

  lemma KernelNext(a: Trace, early: bool, step: Step, s': State) returns (b: Trace)
    requires IsRun(a, early) && |a.states| > 0 && KernelDoes(Now(a), step, s')
    ensures IsRun(b, early) && GoesOn(a, b) && |b.states| > 0 && Now(b) == s'
  {
    hide KernelDoes;
    hide SpawnDoes;
    hide WaitDoes;
    hide KillDoes;
    hide ReaperDoes;
    b := Grow(a, early, step, s');
  }

  lemma WaitNext(a: Trace, early: bool, step: Step, s': State) returns (b: Trace)
    requires IsRun(a, early) && |a.states| > 0 && WaitDoes(Now(a), step, s')
    ensures IsRun(b, early) && GoesOn(a, b) && |b.states| > 0 && Now(b) == s'
  {
    hide KernelDoes;
    hide SpawnDoes;
    hide WaitDoes;
    hide KillDoes;
    hide ReaperDoes;
    b := Grow(a, early, step, s');
  }

  lemma KillNext(a: Trace, early: bool, step: Step, s': State) returns (b: Trace)
    requires IsRun(a, early) && |a.states| > 0 && KillDoes(Now(a), step, s')
    ensures IsRun(b, early) && GoesOn(a, b) && |b.states| > 0 && Now(b) == s'
  {
    hide KernelDoes;
    hide SpawnDoes;
    hide WaitDoes;
    hide KillDoes;
    hide ReaperDoes;
    b := Grow(a, early, step, s');
  }

  lemma ReaperNext(a: Trace, early: bool, step: Step, s': State) returns (b: Trace)
    requires IsRun(a, early) && |a.states| > 0 && ReaperDoes(Now(a), step, s')
    ensures IsRun(b, early) && GoesOn(a, b) && |b.states| > 0 && Now(b) == s'
  {
    hide KernelDoes;
    hide SpawnDoes;
    hide WaitDoes;
    hide KillDoes;
    hide ReaperDoes;
    b := Grow(a, early, step, s');
  }

  // ---- a kill can be finished ------------------------------------------------------------

  /** How many steps of `kill_tree` are left. */
  function KillLeft(h: Handle): nat {
    match h
    case Checked(_) => 4
    case Marked(_) => 3
    case GroupSent(_) => 2
    case LeaderSent(_) => 1
    case _ => 0
  }

  function KillStepOf(c: Cmd, h: Handle): Step {
    match h
    case Checked(_) => KillMark(c)
    case Marked(_) => KillGroup(c)
    case GroupSent(_) => KillLeader(c)
    case _ => KillEnd(c)
  }

  lemma KillIsEnabled(s: State, c: Cmd) returns (s': State)
    requires c in s.cmds && KillLeft(s.cmds[c].handle) > 0
    ensures KillDoes(s, KillStepOf(c, s.cmds[c].handle), s')
  {
    hide GroupOf;
    hide LeaderOf;
    var cmd := s.cmds[c];
    match cmd.handle {
      case Checked(w) =>
        s' := s.(cmds := s.cmds[c := cmd.(handle := Marked(w), timedOut := cmd.timedOut || w)]);
      case Marked(w) =>
        s' := s.(cmds := s.cmds[c := cmd.(handle := GroupSent(w))],
                 signals := s.signals + {Signal(c, GroupOf(s, cmd.pid), cmd.inc !in s.collected)});
      case GroupSent(w) =>
        s' := s.(cmds := s.cmds[c := cmd.(handle := LeaderSent(w))],
                 signals := s.signals + {Signal(c, LeaderOf(s, cmd), cmd.inc !in s.collected)});
      case LeaderSent(_) =>
        s' := s.(cmds := s.cmds[c := cmd.(handle := Open)]);
    }
  }

  lemma KillGetsOn(s: State, c: Cmd, s': State)
    requires c in s.cmds && KillLeft(s.cmds[c].handle) > 0 && KillDoes(s, KillStepOf(c, s.cmds[c].handle), s')
    ensures c in s'.cmds && KillLeft(s'.cmds[c].handle) < KillLeft(s.cmds[c].handle) && !s'.cmds[c].handle.ByWaiter?
    ensures s'.cmds[c].waiter == s.cmds[c].waiter
  {
    hide GroupOf;
    hide LeaderOf;
  }

  lemma KillMoves(a: Trace, c: Cmd) returns (b: Trace)
    requires IsRun(a, false) && |a.states| > 0 && c in Now(a).cmds && KillLeft(Now(a).cmds[c].handle) > 0
    ensures IsRun(b, false) && GoesOn(a, b) && |b.states| > 0 && c in Now(b).cmds
    ensures KillLeft(Now(b).cmds[c].handle) < KillLeft(Now(a).cmds[c].handle) && !Now(b).cmds[c].handle.ByWaiter?
    ensures Now(b).cmds[c].waiter == Now(a).cmds[c].waiter
  {
    hide IsRun;
    hide GoesOn;
    hide KillDoes;
    hide KillStepOf;
    var s := Now(a);
    var s' := KillIsEnabled(s, c);
    KillGetsOn(s, c, s');
    b := KillNext(a, false, KillStepOf(c, s.cmds[c].handle), s');
  }

  /** Whoever kills a command lets go of it again. */
  lemma {:induction false} CanLetGo(a: Trace, c: Cmd) returns (b: Trace)
    requires IsRun(a, false) && |a.states| > 0 && c in Now(a).cmds && !Now(a).cmds[c].handle.ByWaiter?
    ensures IsRun(b, false) && GoesOn(a, b) && |b.states| > 0 && c in Now(b).cmds
    ensures Now(b).cmds[c].handle.Open? && Now(b).cmds[c].waiter == Now(a).cmds[c].waiter
    decreases KillLeft(Now(a).cmds[c].handle)
  {
    hide IsRun;
    hide GoesOn;
    if KillLeft(Now(a).cmds[c].handle) == 0 {
      b := a;
      Stays(a);
    } else {
      var a1 := KillMoves(a, c);
      b := CanLetGo(a1, c);
      Further(a, a1, b);
    }
  }

  /** From every state of every run: a command that is not reaped and that nobody else is killing can
      be killed, by a DELETE request or by its timeout. Its leader and its group get the signal, and
      it counts as timed out if it was the timeout. */
  lemma CanKill(a: Trace, c: Cmd, watcher: bool) returns (b: Trace)
    requires IsRun(a, false) && |a.states| > 0 && c in Now(a).cmds
    requires Now(a).cmds[c].inc !in Now(a).collected && Now(a).cmds[c].handle.Open?
    requires watcher ==> Now(a).cmds[c].watcher.Armed?
    ensures IsRun(b, false) && GoesOn(a, b) && |b.states| > 0 && c in Now(b).cmds
    ensures Now(b).cmds[c].handle.Open? && Signal(c, {Now(b).cmds[c].inc}, true) in Now(b).signals
    ensures watcher ==> Now(b).cmds[c].timedOut
  {
    InvNow(a);
    var s1 := KillCanBegin(Now(a), c, watcher);
    hide Inv;
    hide IsRun;
    hide KillDoes;
    var a1, i := Began(a, c, watcher, s1);
    b := CanLetGo(a1, c);
    Further(a, a1, b);
    StepsStay(a1, b, i);
    hide GoesOn;
    KillHasReached(b, i, c, watcher);
  }

  lemma KillCanBegin(s: State, c: Cmd, watcher: bool) returns (s': State)
    requires Inv(s) && c in s.cmds && s.cmds[c].inc !in s.collected && s.cmds[c].handle.Open?
    requires watcher ==> s.cmds[c].watcher.Armed?
    ensures KillDoes(s, KillBegin(c, watcher), s') && c in s'.cmds && !s'.cmds[c].handle.ByWaiter?
  {
    var cmd := s.cmds[c];
    InvGives(s);
    hide Inv;
    NotCollectedIsRunning(s, c);
    hide FlagsRight;
    hide PidsRight;
    hide GapsRight;
    hide CommandsDistinct;
    hide CollectedRightly;
    hide ProcessesAgree;
    s' := s.(cmds := s.cmds[c := cmd.(handle := Checked(watcher), watcher := if watcher then Fired else cmd.watcher)]);
  }

  lemma NotCollectedIsRunning(s: State, c: Cmd)
    requires FlagsRight(s) && CollectedRightly(s) && c in s.cmds && s.cmds[c].inc !in s.collected
    ensures s.cmds[c].running && Unreaped(s.cmds[c])
  {
    assert FlagsAgree(s.cmds[c]);
  }

  lemma StepsStay(a: Trace, b: Trace, i: nat)
    requires GoesOn(a, b) && i < |a.steps| && i < |a.states|
    ensures i < |b.steps| && i < |b.states| && b.steps[i] == a.steps[i] && b.states[i] == a.states[i]
    ensures |b.states| >= |a.states|
  {
  }

  lemma KillHasReached(b: Trace, i: nat, c: Cmd, watcher: bool)
    requires IsRun(b, false) && i + 1 < |b.states| && i < |b.steps| && b.steps[i] == KillBegin(c, watcher)
    requires c in b.states[i].cmds && b.states[i].cmds[c].inc !in b.states[i].collected
    requires c in Now(b).cmds && Now(b).cmds[c].handle.Open?
    ensures Signal(c, {Now(b).cmds[c].inc}, true) in Now(b).signals && (watcher ==> Now(b).cmds[c].timedOut)
  {
    var k := KillReachesItsCommand(b.states, b.steps, i, |b.states| - 1, c, watcher);
  }

  lemma Began(a: Trace, c: Cmd, watcher: bool, s1: State) returns (b: Trace, i: nat)
    requires IsRun(a, false) && |a.states| > 0 && KillDoes(Now(a), KillBegin(c, watcher), s1)
    ensures IsRun(b, false) && GoesOn(a, b) && |b.states| > 0 && Now(b) == s1
    ensures i < |b.steps| && i + 2 == |b.states| && b.steps[i] == KillBegin(c, watcher) && b.states[i] == Now(a)
  {
    hide KillDoes;
    hide KernelDoes;
    hide SpawnDoes;
    hide WaitDoes;
    hide ReaperDoes;
    i := |a.steps|;
    b := Trace(a.states + [s1], a.steps + [KillBegin(c, watcher)]);
    forall j | 0 <= j < |b.steps| ensures Does(b.states[j], b.steps[j], b.states[j + 1]) {
      if j < |a.steps| {
        assert Does(a.states[j], a.steps[j], a.states[j + 1]);
      }
    }
  }

  // ---- a command can be reported ---------------------------------------------------------

  /** Whoever has OWNED_PIDS lets go of it; the commands stay as they are. */
  lemma CanUnlock(a: Trace) returns (b: Trace)
    requires IsRun(a, false) && |a.states| > 0
    ensures IsRun(b, false) && GoesOn(a, b) && |b.states| > 0 && Now(b).lock.Free?
    ensures forall c :: c in Now(a).cmds ==> c in Now(b).cmds && Now(b).cmds[c] == Now(a).cmds[c]
  {
    hide IsRun;
    hide GoesOn;
    var s := Now(a);
    match s.lock {
      case Free =>
        b := a;
        Stays(a);
      case Spawning =>
        b := SpawnNext(a, false, SpawnFail, s.(lock := Free));
      case Forked(_, _) =>
        b := CanInsert(a, NewCommand(s.cmds.Keys), true, false);
      case Peeking =>
        b := ReaperNext(a, false, ReaperNothing, s.(lock := Free));
      case Found(p) =>
        var s' := if p in s.owned || !Waitable(s, p) then s.(lock := Free)
                  else s.(lock := Free, procs := s.procs - {p}, collected := s.collected[s.procs[p].inc := Orphans]);
        b := ReaperNext(a, false, ReaperTake, s');
    }
  }

  ghost function NewCommand(s: set<Cmd>): (c: Cmd)
    ensures c !in s
  {
    Above(s)
  }

  lemma CanInsert(a: Trace, c: Cmd, pidfd: bool, timeout: bool) returns (b: Trace)
    requires IsRun(a, false) && |a.states| > 0 && Now(a).lock.Forked? && c !in Now(a).cmds
    ensures IsRun(b, false) && GoesOn(a, b) && |b.states| > 0 && Now(b).lock.Free?
    ensures Now(b).cmds.Keys == Now(a).cmds.Keys + {c} && Now(b).procs == Now(a).procs
    ensures forall d :: d in Now(a).cmds ==> d in Now(b).cmds && Now(b).cmds[d] == Now(a).cmds[d]
    ensures Now(b).cmds[c] == Command(Now(a).lock.pid, Now(a).lock.inc, pidfd, true, Open, Waiting,
                                      if timeout then Armed else NoTimeout, false, None, None, None)
  {
    hide IsRun;
    hide GoesOn;
    var s := Now(a);
    var cmd := Command(s.lock.pid, s.lock.inc, pidfd, true, Open, Waiting,
                       if timeout then Armed else NoTimeout, false, None, None, None);
    b := SpawnNext(a, false, SpawnInsert(c, pidfd, timeout),
                   s.(owned := s.owned + {s.lock.pid}, lock := Free, cmds := s.cmds[c := cmd]));
  }

  /** The stages of a wait thread in order. */
  function Stage(w: Waiter): nat {
    match w
    case Waiting => 0
    case Seen => 1
    case Locked => 2
    case Reaped => 3
    case Cleared => 4
    case Unlocked => 5
    case Untracked => 6
    case Reported => 7
  }

  /** A command's process can exit, and its wait thread then sees that. */
  lemma CanSee(a: Trace, c: Cmd) returns (b: Trace)
    requires IsRun(a, false) && |a.states| > 0 && c in Now(a).cmds && Now(a).cmds[c].waiter.Waiting?
    ensures IsRun(b, false) && GoesOn(a, b) && |b.states| > 0
    ensures c in Now(b).cmds && Now(b).cmds[c] == Now(a).cmds[c].(waiter := Seen)
  {
    InvNow(a);
    var s := Now(a);
    var p := s.cmds[c].pid;
    assert p in s.procs && s.procs[p].child;
    hide Inv;
    hide IsRun;
    hide GoesOn;
    var s1 := s.(procs := s.procs[p := s.procs[p].(zombie := true)]);
    var a1 := KernelNext(a, false, Exit(p), s1);
    b := WaitNext(a1, false, WaitSee(c), s1.(cmds := s.cmds[c := s.cmds[c].(waiter := Seen)]));
    Further(a, a1, b);
  }

  lemma CanLockOwn(a: Trace, c: Cmd) returns (b: Trace)
    requires IsRun(a, false) && |a.states| > 0 && c in Now(a).cmds && Now(a).cmds[c].waiter.Seen?
    ensures IsRun(b, false) && GoesOn(a, b) && |b.states| > 0 && c in Now(b).cmds && Now(b).cmds[c].waiter.Locked?
  {
    InvNow(a);
    assert FlagsAgree(Now(a).cmds[c]);
    hide Inv;
    hide IsRun;
    hide GoesOn;
    var a1 := CanLetGo(a, c);
    var s := Now(a1);
    b := WaitNext(a1, false, WaitLock(c), s.(cmds := s.cmds[c := s.cmds[c].(waiter := Locked, handle := ByWaiter)]));
    Further(a, a1, b);
  }

  lemma CanReap(a: Trace, c: Cmd) returns (b: Trace)
    requires IsRun(a, false) && |a.states| > 0 && c in Now(a).cmds && Now(a).cmds[c].waiter.Locked?
    ensures IsRun(b, false) && GoesOn(a, b) && |b.states| > 0 && c in Now(b).cmds && Now(b).cmds[c].waiter.Reaped?
  {
    InvNow(a);
    var s := Now(a);
    var p := s.cmds[c].pid;
    assert Waitable(s, p);
    hide Inv;
    hide IsRun;
    hide GoesOn;
    b := WaitNext(a, false, WaitReap(c),
                  s.(procs := s.procs - {p}, collected := s.collected[s.procs[p].inc := WaitOf(c)],
                     cmds := s.cmds[c := s.cmds[c].(waiter := Reaped, status := Some(s.procs[p].inc), atReap := Some(s.cmds[c].timedOut))]));
  }

  lemma CanClear(a: Trace, c: Cmd) returns (b: Trace)
    requires IsRun(a, false) && |a.states| > 0 && c in Now(a).cmds && Now(a).cmds[c].waiter.Reaped?
    ensures IsRun(b, false) && GoesOn(a, b) && |b.states| > 0 && c in Now(b).cmds && Now(b).cmds[c].waiter.Unlocked?
  {
    hide IsRun;
    hide GoesOn;
    var s := Now(a);
    var s1 := s.(cmds := s.cmds[c := s.cmds[c].(waiter := Cleared, running := false)]);
    var a1 := WaitNext(a, false, WaitClear(c), s1);
    b := CanUnlockOwn(a1, c);
    Further(a, a1, b);
  }

  lemma CanUnlockOwn(a: Trace, c: Cmd) returns (b: Trace)
    requires IsRun(a, false) && |a.states| > 0 && c in Now(a).cmds && Now(a).cmds[c].waiter.Cleared?
    ensures IsRun(b, false) && GoesOn(a, b) && |b.states| > 0 && c in Now(b).cmds && Now(b).cmds[c].waiter.Unlocked?
  {
    hide IsRun;
    hide GoesOn;
    var s := Now(a);
    b := WaitNext(a, false, WaitUnlock(c), s.(cmds := s.cmds[c := s.cmds[c].(waiter := Unlocked, handle := Open)]));
  }

  lemma CanUntrack(a: Trace, c: Cmd) returns (b: Trace)
    requires IsRun(a, false) && |a.states| > 0 && c in Now(a).cmds && Now(a).cmds[c].waiter.Unlocked?
    ensures IsRun(b, false) && GoesOn(a, b) && |b.states| > 0 && c in Now(b).cmds && Now(b).cmds[c].waiter.Untracked?
  {
    hide IsRun;
    hide GoesOn;
    var a1 := CanUnlock(a);
    var s := Now(a1);
    b := WaitNext(a1, false, WaitUntrack(c), s.(owned := s.owned - {s.cmds[c].pid}, cmds := s.cmds[c := s.cmds[c].(waiter := Untracked)]));
    Further(a, a1, b);
  }

  lemma CanSay(a: Trace, c: Cmd) returns (b: Trace)
    requires IsRun(a, false) && |a.states| > 0 && c in Now(a).cmds && Now(a).cmds[c].waiter.Untracked?
    ensures IsRun(b, false) && GoesOn(a, b) && |b.states| > 0 && c in Now(b).cmds && Now(b).cmds[c].waiter.Reported?
  {
    hide IsRun;
    hide GoesOn;
    var s := Now(a);
    var report := Report(s.cmds[c].status, s.cmds[c].status.Some? && s.cmds[c].timedOut);
    b := WaitNext(a, false, WaitReport(c), s.(cmds := s.cmds[c := s.cmds[c].(waiter := Reported, report := Some(report))]));
  }

  lemma CanMoveOn(a: Trace, c: Cmd) returns (b: Trace)
    requires IsRun(a, false) && |a.states| > 0 && c in Now(a).cmds && !Now(a).cmds[c].waiter.Reported?
    ensures IsRun(b, false) && GoesOn(a, b) && |b.states| > 0 && c in Now(b).cmds
    ensures Stage(Now(b).cmds[c].waiter) > Stage(Now(a).cmds[c].waiter)
  {
    hide IsRun;
    hide GoesOn;
    match Now(a).cmds[c].waiter {
      case Waiting => b := CanSee(a, c);
      case Seen => b := CanLockOwn(a, c);
      case Locked => b := CanReap(a, c);
      case Reaped => b := CanClear(a, c);
      case Cleared => b := CanUnlockOwn(a, c);
      case Unlocked => b := CanUntrack(a, c);
      case Untracked => b := CanSay(a, c);
    }
  }

  lemma {:induction false} CanBeReported(a: Trace, c: Cmd) returns (b: Trace)
    requires IsRun(a, false) && |a.states| > 0 && c in Now(a).cmds
    ensures IsRun(b, false) && GoesOn(a, b) && |b.states| > 0 && c in Now(b).cmds && Now(b).cmds[c].waiter.Reported?
    decreases 7 - Stage(Now(a).cmds[c].waiter)
  {
    hide IsRun;
    hide GoesOn;
    if Now(a).cmds[c].waiter.Reported? {
      b := a;
      Stays(a);
    } else {
      var a1 := CanMoveOn(a, c);
      b := CanBeReported(a1, c);
      Further(a, a1, b);
    }
  }

  /** From every state of every run, whoever holds a lock and however far a kill has come: every
      command can come to an end, and its own exit status is reported. */
  lemma CanReport(a: Trace, c: Cmd) returns (b: Trace)
    requires IsRun(a, false) && |a.states| > 0 && c in Now(a).cmds
    ensures IsRun(b, false) && GoesOn(a, b) && |b.states| > 0 && c in Now(b).cmds
    ensures Now(b).cmds[c].report == Some(Report(Some(Now(b).cmds[c].inc), Now(b).cmds[c].timedOut))
  {
    b := CanBeReported(a, c);
    StatusesAreNotStolen(b.states, b.steps, |b.states| - 1, c);
  }

  // ---- a command can be started, and an orphan reaped ------------------------------------

  ghost function Numbers(s: State): set<nat> {
    s.procs.Keys + (set p | p in s.procs :: s.procs[p].pgid) + (set c | c in s.cmds :: s.cmds[c].pid)
  }

  lemma NewPidIsFree(s: State)
    ensures PidIsFree(s, Above(Numbers(s)))
  {
    var q := Above(Numbers(s));
    forall p | p in s.procs ensures s.procs[p].pgid != q {
      assert s.procs[p].pgid in Numbers(s);
    }
    forall c | c in s.cmds ensures s.cmds[c].pid != q {
      assert s.cmds[c].pid in Numbers(s);
    }
  }

  lemma CanFork(a: Trace) returns (b: Trace)
    requires IsRun(a, false) && |a.states| > 0 && Now(a).lock.Free?
    ensures IsRun(b, false) && GoesOn(a, b) && |b.states| > 0 && Now(b).lock.Forked? && Now(b).cmds == Now(a).cmds
  {
    hide IsRun;
    hide GoesOn;
    var s := Now(a);
    var q := Above(Numbers(s));
    NewPidIsFree(s);
    hide Numbers;
    var s1 := s.(lock := Spawning);
    var a1 := SpawnNext(a, false, SpawnLock, s1);
    assert PidIsFree(s1, q);
    hide PidIsFree;
    b := SpawnNext(a1, false, SpawnFork(q),
                   s.(procs := s.procs[q := Process(s.nextInc, false, true, q, s.nextInc)],
                      nextInc := s.nextInc + 1, lock := Forked(q, s.nextInc)));
    Further(a, a1, b);
  }

  /** From every state of every run a command can be started. It runs, nobody has collected it, it is
      tracked, and its timeout is armed if and only if it has one. */
  lemma CanSpawn(a: Trace, pidfd: bool, timeout: bool) returns (b: Trace, c: Cmd)
    requires IsRun(a, false) && |a.states| > 0
    ensures IsRun(b, false) && GoesOn(a, b) && |b.states| > 0 && c !in Now(a).cmds && c in Now(b).cmds
    ensures var s, cmd := Now(b), Now(b).cmds[c];
      && cmd.running && cmd.handle.Open? && (cmd.watcher.Armed? <==> timeout) && cmd.pid in s.owned
      && cmd.inc !in s.collected && cmd.pid in s.procs && s.procs[cmd.pid].inc == cmd.inc
  {
    var a1 := CanUnlock(a);
    var a2 := CanFork(a1);
    c := NewCommand(Now(a2).cmds.Keys);
    b := CanInsert(a2, c, pidfd, timeout);
    Further(a, a1, a2);
    Further(a, a2, b);
    InvNow(b);
    hide GoesOn;
    hide IsRun;
    assert Unreaped(Now(b).cmds[c]);
  }

  /** A zombie that is the server's child and that no `spawn` owns can be reaped whenever the reaper
      gets the lock. */
  lemma CanReapOrphan(a: Trace, p: Pid) returns (b: Trace)
    requires IsRun(a, false) && |a.states| > 0 && Now(a).lock.Free? && Waitable(Now(a), p) && p !in Now(a).owned
    ensures IsRun(b, false) && GoesOn(a, b) && |b.states| > 0 && Now(b).lock.Free?
    ensures Now(b).procs == Now(a).procs - {p} && Now(b).collected == Now(a).collected[Now(a).procs[p].inc := Orphans]
  {
    hide IsRun;
    hide GoesOn;
    var s := Now(a);
    var a1 := ReaperNext(a, false, ReaperLock, s.(lock := Peeking));
    var a2 := ReaperNext(a1, false, ReaperPeek(p), s.(lock := Found(p)));
    b := ReaperNext(a2, false, ReaperTake, s.(procs := s.procs - {p}, collected := s.collected[s.procs[p].inc := Orphans]));
    Further(a, a1, a2);
    Further(a, a2, b);
  }

  // ---- the assumption on the kernel is needed --------------------------------------------

  lemma SpawnMore(s0: State, a: Trace, step: Step, s': State) returns (b: Trace)
    requires IsRun(a, true) && GoesOn(Trace([s0], []), a) && |a.states| > 0 && SpawnDoes(Now(a), step, s')
    ensures IsRun(b, true) && GoesOn(Trace([s0], []), b) && |b.states| > 0 && Now(b) == s'
  {
    hide SpawnDoes;
    hide IsRun;
    hide GoesOn;
    b := SpawnNext(a, true, step, s');
    Further(Trace([s0], []), a, b);
  }

  lemma KernelMore(s0: State, a: Trace, step: Step, s': State) returns (b: Trace)
    requires IsRun(a, true) && GoesOn(Trace([s0], []), a) && |a.states| > 0 && KernelDoes(Now(a), step, s')
    ensures IsRun(b, true) && GoesOn(Trace([s0], []), b) && |b.states| > 0 && Now(b) == s'
  {
    hide KernelDoes;
    hide IsRun;
    hide GoesOn;
    b := KernelNext(a, true, step, s');
    Further(Trace([s0], []), a, b);
  }

  lemma WaitMore(s0: State, a: Trace, step: Step, s': State) returns (b: Trace)
    requires IsRun(a, true) && GoesOn(Trace([s0], []), a) && |a.states| > 0 && WaitDoes(Now(a), step, s')
    ensures IsRun(b, true) && GoesOn(Trace([s0], []), b) && |b.states| > 0 && Now(b) == s'
  {
    hide WaitDoes;
    hide IsRun;
    hide GoesOn;
    b := WaitNext(a, true, step, s');
    Further(Trace([s0], []), a, b);
  }

  lemma ReaperMore(s0: State, a: Trace, step: Step, s': State) returns (b: Trace)
    requires IsRun(a, true) && GoesOn(Trace([s0], []), a) && |a.states| > 0 && ReaperDoes(Now(a), step, s')
    ensures IsRun(b, true) && GoesOn(Trace([s0], []), b) && |b.states| > 0 && Now(b) == s'
  {
    hide ReaperDoes;
    hide IsRun;
    hide GoesOn;
    b := ReaperNext(a, true, step, s');
    Further(Trace([s0], []), a, b);
  }

  function Starting(inc: Inc): Command {
    Command(7, inc, true, true, Open, Waiting, NoTimeout, false, None, None, None)
  }

  /** Command 0, with pid 7, was reaped by its wait thread, which has not untracked it yet. */
  function InTheGap(): Command {
    Starting(0).(waiter := Unlocked, running := false, status := Some(0), atReap := Some(false))
  }

  lemma FirstCommandInTheGap(s0: State) returns (trace: Trace)
    requires Init(s0) && s0.reissueEarly && s0.procs == map[] && s0.nextInc == 0 && s0.collected == map[]
    ensures IsRun(trace, true) && GoesOn(Trace([s0], []), trace) && |trace.states| > 0
    ensures Now(trace) ==
            s0.(owned := {7}, nextInc := 1, cmds := map[0 := InTheGap()], collected := map[0 := WaitOf(0)])
  {
    trace := FirstCommandExited(s0);
    var s := Now(trace);
    hide IsRun;
    hide GoesOn;
    hide Init;
    s := s.(cmds := map[0 := Starting(0).(waiter := Seen)]);
    trace := WaitMore(s0, trace, WaitSee(0), s);
    s := s.(cmds := map[0 := Starting(0).(waiter := Locked, handle := ByWaiter)]);
    trace := WaitMore(s0, trace, WaitLock(0), s);
    trace := FirstCommandReaped(s0, trace);
    s := Now(trace);
    s := s.(cmds := map[0 := InTheGap().(waiter := Cleared, handle := ByWaiter)]);
    trace := WaitMore(s0, trace, WaitClear(0), s);
    s := s.(cmds := map[0 := InTheGap()]);
    trace := WaitMore(s0, trace, WaitUnlock(0), s);
  }

  lemma FirstCommandReaped(s0: State, a: Trace) returns (trace: Trace)
    requires IsRun(a, true) && GoesOn(Trace([s0], []), a) && |a.states| > 0
    requires Now(a).cmds == map[0 := Starting(0).(waiter := Locked, handle := ByWaiter)]
    requires Now(a).procs == map[7 := Process(0, true, true, 7, 0)] && Now(a).collected == map[]
    ensures IsRun(trace, true) && GoesOn(Trace([s0], []), trace) && |trace.states| > 0
    ensures Now(trace) == Now(a).(procs := map[], collected := map[0 := WaitOf(0)],
                                  cmds := map[0 := InTheGap().(waiter := Reaped, running := true, handle := ByWaiter)])
  {
    hide IsRun;
    hide GoesOn;
    var s := Now(a);
    assert s.procs - {7} == map[];
    trace := WaitMore(s0, a, WaitReap(0),
                      s.(procs := map[], collected := map[0 := WaitOf(0)],
                         cmds := map[0 := InTheGap().(waiter := Reaped, running := true, handle := ByWaiter)]));
  }

  lemma FirstCommandExited(s0: State) returns (trace: Trace)
    requires Init(s0) && s0.reissueEarly && s0.procs == map[] && s0.nextInc == 0 && s0.collected == map[]
    ensures IsRun(trace, true) && GoesOn(Trace([s0], []), trace) && |trace.states| > 0
    ensures Now(trace) ==
            s0.(owned := {7}, nextInc := 1, cmds := map[0 := Starting(0)], procs := map[7 := Process(0, true, true, 7, 0)])
  {
    trace := Trace([s0], []);
    Stays(trace);
    hide IsRun;
    hide GoesOn;
    hide Init;
    var s := s0.(lock := Spawning);
    trace := SpawnMore(s0, trace, SpawnLock, s);
    s := s.(procs := map[7 := Process(0, false, true, 7, 0)], nextInc := 1, lock := Forked(7, 0));
    trace := SpawnMore(s0, trace, SpawnFork(7), s);
    s := s.(owned := {7}, lock := Free, cmds := map[0 := Starting(0)]);
    trace := SpawnMore(s0, trace, SpawnInsert(0, true, false), s);
    s := s.(procs := map[7 := Process(0, true, true, 7, 0)]);
    trace := KernelMore(s0, trace, Exit(7), s);
  }

  lemma SecondCommandStarted(s0: State) returns (trace: Trace)
    requires Init(s0) && s0.reissueEarly && s0.procs == map[] && s0.nextInc == 0 && s0.collected == map[]
    ensures IsRun(trace, true) && GoesOn(Trace([s0], []), trace) && |trace.states| > 0
    ensures Now(trace) ==
            s0.(owned := {7}, nextInc := 2, procs := map[7 := Process(1, false, true, 7, 1)], collected := map[0 := WaitOf(0)],
                cmds := map[0 := InTheGap(), 1 := Starting(1)])
  {
    trace := FirstCommandInTheGap(s0);
    var s := Now(trace);
    hide IsRun;
    hide GoesOn;
    s := s.(lock := Spawning);
    trace := SpawnMore(s0, trace, SpawnLock, s);
    s := s.(procs := map[7 := Process(1, false, true, 7, 1)], nextInc := 2, lock := Forked(7, 1));
    trace := SpawnMore(s0, trace, SpawnFork(7), s);
    s := s.(lock := Free, cmds := map[0 := InTheGap(), 1 := Starting(1)]);
    trace := SpawnMore(s0, trace, SpawnInsert(1, true, false), s);
  }

  /** The second command gets the pid of the first one, and is taken out of OWNED_PIDS by it. */
  lemma SecondCommandUntracked(s0: State) returns (trace: Trace)
    requires Init(s0) && s0.reissueEarly && s0.procs == map[] && s0.nextInc == 0 && s0.collected == map[]
    ensures IsRun(trace, true) && GoesOn(Trace([s0], []), trace) && |trace.states| > 0
    ensures Now(trace) ==
            s0.(nextInc := 2, procs := map[7 := Process(1, false, true, 7, 1)], collected := map[0 := WaitOf(0)],
                cmds := map[0 := InTheGap().(waiter := Untracked), 1 := Starting(1)])
  {
    trace := SecondCommandStarted(s0);
    var s := Now(trace);
    hide IsRun;
    hide GoesOn;
    assert s.owned - {7} == {} == s0.owned && s0.lock.Free?;
    hide Init;
    s := s.(owned := {}, cmds := map[0 := InTheGap().(waiter := Untracked), 1 := Starting(1)]);
    trace := WaitMore(s0, trace, WaitUntrack(0), s);
  }

  /** Were a pid handed out again before it was untracked, the reaper could collect a command:
      the second command of this run is collected by the reaper, and its status is lost. */
  lemma EarlyReissueLosesAStatus(s0: State) returns (trace: Trace)
    requires Init(s0) && s0.reissueEarly && s0.procs == map[] && s0.nextInc == 0 && s0.collected == map[]
    ensures IsRun(trace, true) && GoesOn(Trace([s0], []), trace) && |trace.states| > 0
    ensures var s := Now(trace);
      1 in s.cmds && s.cmds[1].inc in s.collected && s.collected[s.cmds[1].inc] == Orphans
  {
    trace := SecondCommandUntracked(s0);
    var s := Now(trace);
    hide IsRun;
    hide GoesOn;
    hide Init;
    s := s.(procs := map[7 := Process(1, true, true, 7, 1)]);
    trace := KernelMore(s0, trace, Exit(7), s);
    s := s.(lock := Peeking);
    trace := ReaperMore(s0, trace, ReaperLock, s);
    s := s.(lock := Found(7));
    trace := ReaperMore(s0, trace, ReaperPeek(7), s);
    trace := SecondCommandTaken(s0, trace);
  }

  lemma SecondCommandTaken(s0: State, a: Trace) returns (trace: Trace)
    requires IsRun(a, true) && GoesOn(Trace([s0], []), a) && |a.states| > 0 && Now(a).lock == Found(7) && 7 !in Now(a).owned
    requires Now(a).procs == map[7 := Process(1, true, true, 7, 1)]
    ensures IsRun(trace, true) && GoesOn(Trace([s0], []), trace) && |trace.states| > 0
    ensures Now(trace).cmds == Now(a).cmds && Now(trace).collected == Now(a).collected[1 := Orphans]
  {
    hide IsRun;
    hide GoesOn;
    var s := Now(a);
    trace := ReaperMore(s0, a, ReaperTake, s.(lock := Free, procs := s.procs - {7}, collected := s.collected[1 := Orphans]));
  }
}
