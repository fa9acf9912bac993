/** Spawning, waiting for, signalling and reaping commands (src/exec.rs).

    A step is one system call, one atomic store or one section under a lock. The threads are the
    wait thread of each command, its timeout watcher, any number of DELETE requests, the threads
    that spawn, and the orphan reaper. The kernel hands out pids again once they are free.

    A pid says which process it is only as long as that process is not reaped. The model gives
    every process that ever starts its own number (`inc`), so it can say whom a pid means. Which
    process founded a group is `ginc`; `signals` and `collected` record what was done to whom.

    Assumed of the kernel: a pid is not given to a new process while a process with that pid or
    in a group of that number exists, nor between the reaping of a command and the moment its
    wait thread has taken it out of OWNED_PIDS (`reissueEarly` is false). */
module Supervision {
  import opened Wrappers

  type Pid = nat
  type Inc = nat
  type Cmd = nat

  datatype Process = Process(inc: Inc, zombie: bool, child: bool, pgid: Pid, ginc: Inc)

  /** How far the wait thread of a command has come. */
  datatype Waiter =
    | Waiting                    // in waitid(WNOWAIT)
    | Seen                       // waitid returned
    | Locked                     // holds `running`
    | Reaped                     // child.wait() returned
    | Cleared                    // `running` is false
    | Unlocked
    | Untracked                  // the pid is out of OWNED_PIDS
    | Reported

  /** Who holds a command's `running` lock, and how far `kill_tree` has come. */
  datatype Handle =
    | Open
    | ByWaiter
    | Checked(watcher: bool)     // kill_tree: saw running == true
    | Marked(watcher: bool)      // kill_tree: `timed_out` is stored, if the watcher asked
    | GroupSent(watcher: bool)   // kill_tree: the group was signalled
    | LeaderSent(watcher: bool)  // kill_tree: the leader was signalled

  datatype Watcher = NoTimeout | Armed | Fired

  datatype Report = Report(status: Option<Inc>, timedOut: bool)

  /** `status` names the process whose exit status `child.wait()` returned; `atReap` is what
      `timed_out` was when the command was reaped. */
  datatype Command = Command(
    pid: Pid, inc: Inc, pidfd: bool,
    running: bool, handle: Handle, waiter: Waiter, watcher: Watcher,
    timedOut: bool, status: Option<Inc>, atReap: Option<bool>, report: Option<Report>)

  /** Who holds OWNED_PIDS. */
  datatype OwnedLock =
    | Free
    | Spawning                   // spawn: about to create the process
    | Forked(pid: Pid, inc: Inc) // spawn: created, not yet registered
    | Peeking                    // reaper: about to peek
    | Found(found: Pid)          // reaper: something exited

  datatype Collector = Orphans | WaitOf(c: Cmd) | Elsewhere

  datatype Signal = Signal(c: Cmd, reached: set<Inc>, leaderUnreaped: bool)

  datatype State = State(
    reissueEarly: bool,
    procs: map<Pid, Process>,
    nextInc: Inc,
    owned: set<Pid>,
    lock: OwnedLock,
    cmds: map<Cmd, Command>,
    collected: map<Inc, Collector>,
    signals: set<Signal>)

  datatype Step =
    | Exit(p: Pid)
    | ReapElsewhere(p: Pid)
    | Fork(p: Pid, q: Pid)
    | FoundGroup(p: Pid)
    | Join(p: Pid, r: Pid)
    | Reparent(p: Pid)
    | SpawnLock
    | SpawnFork(q: Pid)
    | SpawnFail
    | SpawnInsert(c: Cmd, pidfd: bool, timeout: bool)
    | WaitSee(c: Cmd)
    | WaitLock(c: Cmd)
    | WaitReap(c: Cmd)
    | WaitClear(c: Cmd)
    | WaitUnlock(c: Cmd)
    | WaitUntrack(c: Cmd)
    | WaitReport(c: Cmd)
    | KillBegin(c: Cmd, watcher: bool)
    | KillMark(c: Cmd)
    | KillGroup(c: Cmd)
    | KillLeader(c: Cmd)
    | KillEnd(c: Cmd)
    | ReaperLock
    | ReaperPeek(p: Pid)
    | ReaperNothing
    | ReaperTake

  /** The commands reaped but not yet taken out of OWNED_PIDS. */
  predicate InGap(cmd: Command) {
    cmd.waiter.Reaped? || cmd.waiter.Cleared? || cmd.waiter.Unlocked?
  }

  /** Whether the kernel may give pid q to a new process. */
  ghost predicate PidIsFree(s: State, q: Pid) {
    && q !in s.procs
    && (forall p :: p in s.procs ==> s.procs[p].pgid != q)
    && (s.reissueEarly || forall c :: c in s.cmds && InGap(s.cmds[c]) ==> s.cmds[c].pid != q)
  }

  /** A child of the server with this pid has exited and was not reaped. */
  predicate Waitable(s: State, p: Pid) {
    p in s.procs && s.procs[p].child && s.procs[p].zombie
  }

  /** What processes and the kernel do. */
  ghost predicate KernelDoes(s: State, step: Step, s': State) {
    match step
    case Exit(p) =>
      && p in s.procs
      && s' == s.(procs := s.procs[p := s.procs[p].(zombie := true)])
    case ReapElsewhere(p) =>
      && p in s.procs && !s.procs[p].child && s.procs[p].zombie
      && s' == s.(procs := s.procs - {p}, collected := s.collected[s.procs[p].inc := Elsewhere])
    case Fork(p, q) =>
      && p in s.procs && !s.procs[p].zombie && PidIsFree(s, q)
      && s' == s.(procs := s.procs[q := Process(s.nextInc, false, false, s.procs[p].pgid, s.procs[p].ginc)],
                  nextInc := s.nextInc + 1)
    case FoundGroup(p) =>
      && p in s.procs && !s.procs[p].zombie
      && s' == s.(procs := s.procs[p := s.procs[p].(pgid := p, ginc := s.procs[p].inc)])
    case Join(p, r) =>
      && p in s.procs && !s.procs[p].zombie && r in s.procs
      && s' == s.(procs := s.procs[p := s.procs[p].(pgid := s.procs[r].pgid, ginc := s.procs[r].ginc)])
    case Reparent(p) =>
      && p in s.procs
      && s' == s.(procs := s.procs[p := s.procs[p].(child := true)])
    case _ => false
  }

  ghost predicate SpawnDoes(s: State, step: Step, s': State) {
    match step
    case SpawnLock =>
      && s.lock.Free?
      && s' == s.(lock := Spawning)
    case SpawnFork(q) =>
      && s.lock.Spawning? && PidIsFree(s, q)
      && s' == s.(procs := s.procs[q := Process(s.nextInc, false, true, q, s.nextInc)],
                  nextInc := s.nextInc + 1, lock := Forked(q, s.nextInc))
    case SpawnFail =>
      && s.lock.Spawning?
      && s' == s.(lock := Free)
    case SpawnInsert(c, pidfd, timeout) =>
      && s.lock.Forked? && c !in s.cmds
      && s' == s.(owned := s.owned + {s.lock.pid}, lock := Free,
                  cmds := s.cmds[c := Command(s.lock.pid, s.lock.inc, pidfd, true, Open, Waiting,
                                              if timeout then Armed else NoTimeout,
                                              false, None, None, None)])
    case _ => false
  }

  /** `wait_and_report`. */
  ghost predicate WaitDoes(s: State, step: Step, s': State) {
    match step
    case WaitSee(c) =>
      // waitid returns when the child has exited, or fails when there is no such child
      && c in s.cmds && s.cmds[c].waiter.Waiting?
      && (Waitable(s, s.cmds[c].pid) || s.cmds[c].pid !in s.procs || !s.procs[s.cmds[c].pid].child)
      && s' == s.(cmds := s.cmds[c := s.cmds[c].(waiter := Seen)])
    case WaitLock(c) =>
      && c in s.cmds && s.cmds[c].waiter.Seen? && s.cmds[c].handle.Open?
      && s' == s.(cmds := s.cmds[c := s.cmds[c].(waiter := Locked, handle := ByWaiter)])
    case WaitReap(c) =>
      && c in s.cmds && s.cmds[c].waiter.Locked?
      && var p := s.cmds[c].pid;
      if Waitable(s, p) then
        s' == s.(procs := s.procs - {p}, collected := s.collected[s.procs[p].inc := WaitOf(c)],
                 cmds := s.cmds[c := s.cmds[c].(waiter := Reaped, status := Some(s.procs[p].inc), atReap := Some(s.cmds[c].timedOut))])
      else
        && (p !in s.procs || !s.procs[p].child)
        && s' == s.(cmds := s.cmds[c := s.cmds[c].(waiter := Reaped, status := None, atReap := Some(s.cmds[c].timedOut))])
    case WaitClear(c) =>
      && c in s.cmds && s.cmds[c].waiter.Reaped?
      && s' == s.(cmds := s.cmds[c := s.cmds[c].(waiter := Cleared, running := false)])
    case WaitUnlock(c) =>
      && c in s.cmds && s.cmds[c].waiter.Cleared?
      && s' == s.(cmds := s.cmds[c := s.cmds[c].(waiter := Unlocked, handle := Open)])
    case WaitUntrack(c) =>
      && c in s.cmds && s.cmds[c].waiter.Unlocked? && s.lock.Free?
      && s' == s.(owned := s.owned - {s.cmds[c].pid}, cmds := s.cmds[c := s.cmds[c].(waiter := Untracked)])
    case WaitReport(c) =>
      && c in s.cmds && s.cmds[c].waiter.Untracked?
      && s' == s.(cmds := s.cmds[c := s.cmds[c].(waiter := Reported,
                  report := Some(Report(s.cmds[c].status, s.cmds[c].status.Some? && s.cmds[c].timedOut)))])
    case _ => false
  }

  function GroupOf(s: State, g: Pid): set<Inc> {
    set p | p in s.procs && s.procs[p].pgid == g :: s.procs[p].ginc
  }

  /** Whom the leader signal reaches: through the pidfd the process itself, else the pid. */
  function LeaderOf(s: State, cmd: Command): set<Inc> {
    if cmd.pidfd then (set p | p in s.procs && s.procs[p].inc == cmd.inc :: cmd.inc)
    else if cmd.pid in s.procs then {s.procs[cmd.pid].inc}
    else {}
  }

  /** `kill_tree`, called by the timeout watcher or by a DELETE request. */
  ghost predicate KillDoes(s: State, step: Step, s': State) {
    match step
    case KillBegin(c, watcher) =>
      && c in s.cmds && s.cmds[c].handle.Open? && (watcher ==> s.cmds[c].watcher.Armed?)
      && s' == s.(cmds := s.cmds[c := s.cmds[c].(
                    handle := if s.cmds[c].running then Checked(watcher) else Open,
                    watcher := if watcher then Fired else s.cmds[c].watcher)])
    case KillMark(c) =>
      && c in s.cmds && s.cmds[c].handle.Checked?
      && s' == s.(cmds := s.cmds[c := s.cmds[c].(handle := Marked(s.cmds[c].handle.watcher),
                                                 timedOut := s.cmds[c].timedOut || s.cmds[c].handle.watcher)])
    case KillGroup(c) =>
      && c in s.cmds && s.cmds[c].handle.Marked?
      && s' == s.(cmds := s.cmds[c := s.cmds[c].(handle := GroupSent(s.cmds[c].handle.watcher))],
                  signals := s.signals + {Signal(c, GroupOf(s, s.cmds[c].pid), s.cmds[c].inc !in s.collected)})
    case KillLeader(c) =>
      && c in s.cmds && s.cmds[c].handle.GroupSent?
      && s' == s.(cmds := s.cmds[c := s.cmds[c].(handle := LeaderSent(s.cmds[c].handle.watcher))],
                  signals := s.signals + {Signal(c, LeaderOf(s, s.cmds[c]), s.cmds[c].inc !in s.collected)})
    case KillEnd(c) =>
      && c in s.cmds && s.cmds[c].handle.LeaderSent?
      && s' == s.(cmds := s.cmds[c := s.cmds[c].(handle := Open)])
    case _ => false
  }

  /** One round of `spawn_orphan_reaper`, all of it under the OWNED_PIDS lock. */
  ghost predicate ReaperDoes(s: State, step: Step, s': State) {
    match step
    case ReaperLock =>
      && s.lock.Free?
      && s' == s.(lock := Peeking)
    case ReaperPeek(p) =>
      && s.lock.Peeking? && Waitable(s, p)
      && s' == s.(lock := Found(p))
    case ReaperNothing =>
      && s.lock.Peeking?
      && s' == s.(lock := Free)
    case ReaperTake =>
      && s.lock.Found?
      && var p := s.lock.found;
      s' == (if p in s.owned || !Waitable(s, p) then s.(lock := Free)
             else s.(lock := Free, procs := s.procs - {p}, collected := s.collected[s.procs[p].inc := Orphans]))
    case _ => false
  }

  ghost predicate Does(s: State, step: Step, s': State) {
    || KernelDoes(s, step, s') || SpawnDoes(s, step, s') || WaitDoes(s, step, s')
    || KillDoes(s, step, s') || ReaperDoes(s, step, s')
  }

  ghost predicate Init(s: State) {
    && ProcessesAgree(s)
    && s.owned == {} && s.lock.Free? && s.cmds == map[] && s.signals == {}
  }

  ghost predicate Run(states: seq<State>, steps: seq<Step>) {
    && |states| == |steps| + 1 && Init(states[0])
    && forall i :: 0 <= i < |steps| ==> Does(states[i], steps[i], states[i + 1])
  }

  // ---- what every step keeps -------------------------------------------------------------

  /** Processes are numbered apart, and none of them was collected. */
  ghost predicate Numbered(s: State) {
    && (forall p :: p in s.procs ==> s.procs[p].inc < s.nextInc && s.procs[p].inc !in s.collected)
    && (forall i :: i in s.collected ==> i < s.nextInc)
    && (forall p, q :: p in s.procs && q in s.procs && p != q ==> s.procs[p].inc != s.procs[q].inc)
  }

  /** A group has one founder; and while a pid is not reaped, the group of that number is the
      one its process founded. */
  ghost predicate Grouped(s: State) {
    && (forall p, g :: p in s.procs && g in s.procs && s.procs[p].pgid == g ==> s.procs[p].ginc == s.procs[g].inc)
    && (forall p, q :: p in s.procs && q in s.procs && s.procs[p].pgid == s.procs[q].pgid ==> s.procs[p].ginc == s.procs[q].ginc)
  }

  /** The group that a process founded has the number of its pid. */
  ghost predicate Founded(s: State) {
    && (forall p :: p in s.procs ==> s.procs[p].ginc < s.nextInc)
    && (forall p, g :: p in s.procs && g in s.procs && s.procs[p].ginc == s.procs[g].inc ==> s.procs[p].pgid == g)
  }

  ghost predicate ProcessesAgree(s: State) {
    Numbered(s) && Grouped(s) && Founded(s)
  }

  predicate Unreaped(cmd: Command) {
    cmd.waiter.Waiting? || cmd.waiter.Seen? || cmd.waiter.Locked?
  }

  /** The flags of one command and the progress of its threads agree. */
  predicate FlagsAgree(cmd: Command) {
    && (cmd.running <==> Unreaped(cmd) || cmd.waiter.Reaped?)
    && (cmd.handle.ByWaiter? <==> cmd.waiter.Locked? || cmd.waiter.Reaped? || cmd.waiter.Cleared?)
    && (!cmd.handle.Open? && !cmd.handle.ByWaiter? ==> cmd.waiter.Waiting? || cmd.waiter.Seen?)
    && (if Unreaped(cmd) then cmd.atReap == None && cmd.status == None
        else cmd.atReap == Some(cmd.timedOut) && cmd.status == Some(cmd.inc))
    && (cmd.report == if cmd.waiter.Reported? then Some(Report(Some(cmd.inc), cmd.timedOut)) else None)
  }

  ghost predicate FlagsRight(s: State) {
    forall c :: c in s.cmds ==> FlagsAgree(s.cmds[c]) && s.cmds[c].inc < s.nextInc
  }

  /** Until its wait thread reaps it, a command's process is there under the command's pid. */
  ghost predicate PidsRight(s: State) {
    && (forall c :: c in s.cmds && Unreaped(s.cmds[c]) ==>
          && s.cmds[c].pid in s.procs && s.procs[s.cmds[c].pid].inc == s.cmds[c].inc
          && s.procs[s.cmds[c].pid].child
          && (!s.cmds[c].waiter.Waiting? ==> s.procs[s.cmds[c].pid].zombie))
    && (s.lock.Forked? ==>
          s.lock.pid in s.procs && s.procs[s.lock.pid].inc == s.lock.inc && s.procs[s.lock.pid].child)
  }

  /** From its reaping until it is untracked, a command's pid means no process at all; and all
      that time and before it is in OWNED_PIDS. */
  ghost predicate GapsRight(s: State) {
    && (forall c :: c in s.cmds && InGap(s.cmds[c]) ==> s.cmds[c].pid !in s.procs)
    && (forall c :: c in s.cmds && (Unreaped(s.cmds[c]) || InGap(s.cmds[c])) ==> s.cmds[c].pid in s.owned)
  }

  /** No two commands are the same process, nor share a pid while both are unreaped or in the gap. */
  ghost predicate CommandsDistinct(s: State) {
    && (forall c, d :: c in s.cmds && d in s.cmds && c != d ==> s.cmds[c].inc != s.cmds[d].inc)
    && (forall c, d :: c in s.cmds && d in s.cmds && c != d && InGap(s.cmds[c]) && InGap(s.cmds[d]) ==>
          s.cmds[c].pid != s.cmds[d].pid)
    && (s.lock.Forked? ==> s.lock.inc < s.nextInc && forall c :: c in s.cmds ==> s.cmds[c].inc != s.lock.inc)
  }

  /** A command is collected by its own wait thread or not at all. */
  ghost predicate CollectedRightly(s: State) {
    forall c :: c in s.cmds ==>
      if Unreaped(s.cmds[c]) then s.cmds[c].inc !in s.collected
      else s.cmds[c].inc in s.collected && s.collected[s.cmds[c].inc] == WaitOf(c)
  }

  ghost predicate SignalsRight(s: State) {
    forall g :: g in s.signals ==>
      g.c in s.cmds && g.leaderUnreaped && g.reached <= {s.cmds[g.c].inc}
  }

  ghost predicate Inv(s: State) {
    && ProcessesAgree(s)
    && FlagsRight(s)
    && PidsRight(s)
    && GapsRight(s)
    && CommandsDistinct(s)
    && CollectedRightly(s)
    && SignalsRight(s)
  }
}
