/** Every step keeps the invariant of `Supervision`, and what follows for every run. */
module SupervisionProofs {
  import opened Wrappers
  import opened Supervision

  lemma FlagsKeptByKernel(s: State, step: Step, s': State)
    requires !s.reissueEarly && Inv(s) && KernelDoes(s, step, s')
    ensures FlagsRight(s') && CommandsDistinct(s')
  {
    hide CollectedRightly;
    hide SignalsRight;
    hide Numbered;
    hide Grouped;
    hide Founded;
  }

  lemma PidsKeptByKernel(s: State, step: Step, s': State)
    requires PidsRight(s) && KernelDoes(s, step, s')
    ensures PidsRight(s')
  {
    hide InGap;
  }

  lemma GapsKeptByKernel(s: State, step: Step, s': State)
    requires !s.reissueEarly && GapsRight(s) && KernelDoes(s, step, s')
    ensures GapsRight(s')
  {
    hide Unreaped;
    hide InGap;
  }

  lemma RecordsKeptByKernel(s: State, step: Step, s': State)
    requires PidsRight(s) && CollectedRightly(s) && SignalsRight(s) && Numbered(s) && KernelDoes(s, step, s')
    ensures CollectedRightly(s') && SignalsRight(s')
  {
    hide PidIsFree;
  }

  lemma FlagsKeptBySpawn(s: State, step: Step, s': State)
    requires !s.reissueEarly && Inv(s) && SpawnDoes(s, step, s')
    ensures FlagsRight(s') && CommandsDistinct(s')
  {
    hide CollectedRightly;
    hide SignalsRight;
    hide Numbered;
    hide Grouped;
    hide Founded;
  }

  lemma PidsKeptBySpawn(s: State, step: Step, s': State)
    requires PidsRight(s) && SpawnDoes(s, step, s')
    ensures PidsRight(s')
  {
  }

  lemma GapsKeptBySpawn(s: State, step: Step, s': State)
    requires !s.reissueEarly && GapsRight(s) && SpawnDoes(s, step, s')
    ensures GapsRight(s')
  {
  }

  lemma RecordsKeptBySpawn(s: State, step: Step, s': State)
    requires PidsRight(s) && CollectedRightly(s) && SignalsRight(s) && Numbered(s) && SpawnDoes(s, step, s')
    ensures CollectedRightly(s') && SignalsRight(s')
  {
    hide PidIsFree;
  }

  lemma SignalsKeptByWait(s: State, step: Step, s': State)
    requires SignalsRight(s) && WaitDoes(s, step, s')
    ensures SignalsRight(s')
  {
  }

  lemma CollectedRightKeptByWait(s: State, step: Step, s': State)
    requires PidsRight(s) && CommandsDistinct(s) && CollectedRightly(s) && WaitDoes(s, step, s')
    ensures CollectedRightly(s')
  {
    var c := step.c;
    WaitTouchesOne(s, step, s');
    if step.WaitReap? {
      ReapIsRight(s, step, s');
    } else {
      OtherWait(s, step, s', c);
    }
    hide WaitDoes;
    hide PidsRight;
  }

  lemma RecordsKeptByWait(s: State, step: Step, s': State)
    requires !s.reissueEarly && Inv(s) && WaitDoes(s, step, s')
    ensures CollectedRightly(s') && SignalsRight(s')
  {
    hide SignalsRight;
    hide CollectedRightly;
    hide WaitDoes;
    SignalsKeptByWait(s, step, s');
    CollectedRightKeptByWait(s, step, s');
  }

  lemma PidsKeptByKill(s: State, step: Step, s': State)
    requires PidsRight(s) && KillDoes(s, step, s')
    ensures PidsRight(s')
  {
    KillTouchesOne(s, step, s');
    hide KillDoes;
  }

  lemma GapsKeptByKill(s: State, step: Step, s': State)
    requires GapsRight(s) && KillDoes(s, step, s')
    ensures GapsRight(s')
  {
    KillTouchesOne(s, step, s');
    hide KillDoes;
  }

  lemma CollectedRightKeptByKill(s: State, step: Step, s': State)
    requires CollectedRightly(s) && KillDoes(s, step, s')
    ensures CollectedRightly(s')
  {
    KillTouchesOne(s, step, s');
    hide KillDoes;
  }

  /** While its lock is held by `kill_tree`, a command is unreaped: nobody but it has its pid, and
      nobody but its own descendants is in the group of that number. */
  lemma SignalReachesItsCommand(s: State, c: Cmd)
    requires FlagsRight(s) && PidsRight(s) && CollectedRightly(s) && Grouped(s) && Numbered(s)
    requires c in s.cmds && (s.cmds[c].handle.Marked? || s.cmds[c].handle.GroupSent?)
    ensures s.cmds[c].inc !in s.collected
    ensures GroupOf(s, s.cmds[c].pid) <= {s.cmds[c].inc} && LeaderOf(s, s.cmds[c]) <= {s.cmds[c].inc}
  {
    assert FlagsAgree(s.cmds[c]);
  }

  lemma SignalsKeptByKill(s: State, step: Step, s': State)
    requires FlagsRight(s) && PidsRight(s) && CollectedRightly(s) && Grouped(s) && Numbered(s) && SignalsRight(s)
    requires KillDoes(s, step, s')
    ensures SignalsRight(s')
  {
    hide FlagsRight;
    hide PidsRight;
    hide CollectedRightly;
    hide Grouped;
    hide Founded;
    hide Numbered;
    hide GroupOf;
    hide LeaderOf;
    if step.KillGroup? || step.KillLeader? {
      SignalReachesItsCommand(s, step.c);
    }
  }

  lemma RecordsKeptByKill(s: State, step: Step, s': State)
    requires !s.reissueEarly && Inv(s) && KillDoes(s, step, s')
    ensures CollectedRightly(s') && SignalsRight(s')
  {
    hide CollectedRightly;
    CollectedRightKeptByKill(s, step, s');
    SignalsKeptByKill(s, step, s');
  }

  lemma FlagsKeptByReaper(s: State, step: Step, s': State)
    requires !s.reissueEarly && Inv(s) && ReaperDoes(s, step, s')
    ensures FlagsRight(s') && CommandsDistinct(s')
  {
    hide CollectedRightly;
    hide SignalsRight;
    hide Numbered;
    hide Grouped;
    hide Founded;
  }

  lemma PidsKeptByReaper(s: State, step: Step, s': State)
    requires !s.reissueEarly && Inv(s) && ReaperDoes(s, step, s')
    ensures PidsRight(s') && GapsRight(s')
  {
    hide CollectedRightly;
    hide SignalsRight;
  }

  lemma RecordsKeptByReaper(s: State, step: Step, s': State)
    requires !s.reissueEarly && Inv(s) && ReaperDoes(s, step, s')
    ensures CollectedRightly(s') && SignalsRight(s')
  {
  }

  // ---- a step of a wait thread or of `kill_tree` is about one command ---------------------

  ghost predicate OneCommand(s: State, s': State, c: Cmd) {
    && c in s.cmds && c in s'.cmds && s'.cmds == s.cmds[c := s'.cmds[c]]
    && s'.cmds[c].pid == s.cmds[c].pid && s'.cmds[c].inc == s.cmds[c].inc
    && s'.lock == s.lock && s'.nextInc == s.nextInc
  }

  lemma WaitTouchesOne(s: State, step: Step, s': State)
    requires WaitDoes(s, step, s')
    ensures OneCommand(s, s', step.c)
  {
  }

  lemma KillTouchesOne(s: State, step: Step, s': State)
    requires KillDoes(s, step, s')
    ensures OneCommand(s, s', step.c) && s'.cmds[step.c].waiter == s.cmds[step.c].waiter
    ensures s'.procs == s.procs && s'.owned == s.owned && s'.collected == s.collected
  {
  }

  /** The reap takes the command's own process. */
  lemma ReapIsRight(s: State, step: Step, s': State)
    requires PidsRight(s) && WaitDoes(s, step, s') && step.WaitReap?
    ensures step.c in s.cmds && step.c in s'.cmds
    ensures var cmd := s.cmds[step.c];
      && cmd.waiter.Locked? && cmd.pid in s.procs && s.procs[cmd.pid].inc == cmd.inc
      && s'.procs == s.procs - {cmd.pid} && s'.owned == s.owned && s'.collected == s.collected[cmd.inc := WaitOf(step.c)]
      && s'.cmds[step.c] == cmd.(waiter := Reaped, status := Some(cmd.inc), atReap := Some(cmd.timedOut))
  {
  }

  lemma OtherWait(s: State, step: Step, s': State, c: Cmd)
    requires WaitDoes(s, step, s') && !step.WaitReap? && c == step.c && OneCommand(s, s', c)
    ensures s'.procs == s.procs && s'.collected == s.collected
    ensures Unreaped(s'.cmds[c]) == Unreaped(s.cmds[c])
    ensures InGap(s'.cmds[c]) ==> InGap(s.cmds[c])
    ensures s'.owned == s.owned || (s'.owned == s.owned - {s.cmds[c].pid} && InGap(s.cmds[c]) && s'.cmds[c].waiter.Untracked?)
    ensures Unreaped(s.cmds[c]) && !s'.cmds[c].waiter.Waiting? ==>
              !s.cmds[c].waiter.Waiting? || Waitable(s, s.cmds[c].pid) || s.cmds[c].pid !in s.procs || !s.procs[s.cmds[c].pid].child
  {
  }

  lemma FlagsAfter(s: State, s': State, c: Cmd)
    requires FlagsRight(s) && OneCommand(s, s', c) && FlagsAgree(s'.cmds[c])
    ensures FlagsRight(s')
  {
    hide FlagsAgree;
  }

  lemma FlagsKeptByWait(s: State, step: Step, s': State)
    requires FlagsRight(s) && PidsRight(s) && WaitDoes(s, step, s')
    ensures FlagsRight(s')
  {
    var c := step.c;
    WaitTouchesOne(s, step, s');
    assert FlagsAgree(s.cmds[c]);
    if step.WaitReap? {
      ReapIsRight(s, step, s');
      hide WaitDoes;
      assert FlagsAgree(s'.cmds[c]);
    } else {
      assert FlagsAgree(s'.cmds[c]) by {
        hide FlagsRight;
        hide PidsRight;
      }
    }
    hide *;
    FlagsAfter(s, s', c);
  }

  lemma FlagsKeptByKill(s: State, step: Step, s': State)
    requires FlagsRight(s) && KillDoes(s, step, s')
    ensures FlagsRight(s')
  {
    var c := step.c;
    KillTouchesOne(s, step, s');
    assert FlagsAgree(s.cmds[c]);
    assert FlagsAgree(s'.cmds[c]) by {
      hide FlagsRight;
      hide GroupOf;
      hide LeaderOf;
    }
    hide *;
    FlagsAfter(s, s', c);
  }

  lemma DistinctAfter(s: State, s': State, c: Cmd)
    requires CommandsDistinct(s) && OneCommand(s, s', c)
    requires InGap(s'.cmds[c]) ==>
               forall d :: d in s.cmds && d != c && InGap(s.cmds[d]) ==> s.cmds[d].pid != s.cmds[c].pid
    ensures CommandsDistinct(s')
  {
    hide InGap;
  }

  lemma DistinctKeptByWait(s: State, step: Step, s': State)
    requires PidsRight(s) && GapsRight(s) && CommandsDistinct(s) && WaitDoes(s, step, s')
    ensures CommandsDistinct(s')
  {
    var c := step.c;
    WaitTouchesOne(s, step, s');
    if step.WaitReap? {
      ReapIsRight(s, step, s');
    } else {
      OtherWait(s, step, s', c);
    }
    hide WaitDoes;
    hide PidsRight;
    DistinctAfter(s, s', c);
  }

  lemma DistinctKeptByKill(s: State, step: Step, s': State)
    requires CommandsDistinct(s) && KillDoes(s, step, s')
    ensures CommandsDistinct(s')
  {
    var c := step.c;
    KillTouchesOne(s, step, s');
    hide KillDoes;
    DistinctAfter(s, s', c);
  }

  lemma PidsKeptByWait(s: State, step: Step, s': State)
    requires PidsRight(s) && CommandsDistinct(s) && WaitDoes(s, step, s')
    ensures PidsRight(s')
  {
    var c := step.c;
    WaitTouchesOne(s, step, s');
    if step.WaitReap? {
      ReapIsRight(s, step, s');
    } else {
      OtherWait(s, step, s', c);
    }
    hide WaitDoes;
  }

  lemma GapsKeptByWait(s: State, step: Step, s': State)
    requires PidsRight(s) && GapsRight(s) && CommandsDistinct(s) && WaitDoes(s, step, s')
    ensures GapsRight(s')
  {
    var c := step.c;
    WaitTouchesOne(s, step, s');
    if step.WaitReap? {
      ReapIsRight(s, step, s');
    } else {
      OtherWait(s, step, s', c);
    }
    hide WaitDoes;
  }

  // ---- processes come, change and go -----------------------------------------------------

  lemma AgreeAfterReap(s: State, p: Pid, who: Collector, s': State)
    requires ProcessesAgree(s) && p in s.procs
    requires s'.procs == s.procs - {p} && s'.nextInc == s.nextInc
    requires s'.collected == s.collected[s.procs[p].inc := who]
    ensures ProcessesAgree(s')
  {
  }

  /** A group of its own, or one that a process is in. */
  ghost predicate IsGroup(s: State, q: Pid, proc: Process) {
    || (proc.pgid == q && proc.ginc == proc.inc)
    || exists p :: p in s.procs && proc.pgid == s.procs[p].pgid && proc.ginc == s.procs[p].ginc
  }

  lemma AgreeAfterStart(s: State, q: Pid, proc: Process, s': State)
    requires ProcessesAgree(s) && PidIsFree(s, q) && proc.inc == s.nextInc && IsGroup(s, q, proc)
    requires s'.procs == s.procs[q := proc] && s'.nextInc == s.nextInc + 1 && s'.collected == s.collected
    ensures ProcessesAgree(s')
  {
    NumberedAfterStart(s, q, proc, s');
    GroupedAfterStart(s, q, proc, s');
    FoundedAfterStart(s, q, proc, s');
    hide Numbered;
    hide Grouped;
    hide Founded;
  }

  lemma GroupedAfterStart(s: State, q: Pid, proc: Process, s': State)
    requires Grouped(s) && q !in s.procs && (forall p :: p in s.procs ==> s.procs[p].pgid != q) && IsGroup(s, q, proc)
    requires s'.procs == s.procs[q := proc]
    ensures Grouped(s')
  {
  }

  lemma FoundedAfterStart(s: State, q: Pid, proc: Process, s': State)
    requires Numbered(s) && Founded(s) && q !in s.procs && proc.inc == s.nextInc && IsGroup(s, q, proc)
    requires s'.procs == s.procs[q := proc] && s'.nextInc == s.nextInc + 1
    ensures Founded(s')
  {
  }

  lemma NumberedAfterStart(s: State, q: Pid, proc: Process, s': State)
    requires Numbered(s) && q !in s.procs && proc.inc == s.nextInc
    requires s'.procs == s.procs[q := proc] && s'.nextInc == s.nextInc + 1 && s'.collected == s.collected
    ensures Numbered(s')
  {
  }

  lemma AgreeAfterChange(s: State, p: Pid, proc: Process, s': State)
    requires ProcessesAgree(s) && p in s.procs && proc.inc == s.procs[p].inc && IsGroup(s, p, proc)
    requires s'.procs == s.procs[p := proc] && s'.nextInc == s.nextInc && s'.collected == s.collected
    ensures ProcessesAgree(s')
  {
    GroupedAfterChange(s, p, proc, s');
    FoundedAfterChange(s, p, proc, s');
    NumberedAfterChange(s, p, proc, s');
    hide Numbered;
    hide Grouped;
    hide Founded;
  }

  lemma NumberedAfterChange(s: State, p: Pid, proc: Process, s': State)
    requires Numbered(s) && p in s.procs && proc.inc == s.procs[p].inc
    requires s'.procs == s.procs[p := proc] && s'.nextInc == s.nextInc && s'.collected == s.collected
    ensures Numbered(s')
  {
  }

  lemma GroupedAfterChange(s: State, p: Pid, proc: Process, s': State)
    requires Grouped(s) && p in s.procs && proc.inc == s.procs[p].inc && IsGroup(s, p, proc)
    requires s'.procs == s.procs[p := proc]
    ensures Grouped(s')
  {
  }

  lemma FoundedAfterChange(s: State, p: Pid, proc: Process, s': State)
    requires Numbered(s) && Founded(s) && p in s.procs && proc.inc == s.procs[p].inc && IsGroup(s, p, proc)
    requires s'.procs == s.procs[p := proc] && s'.nextInc == s.nextInc
    ensures Founded(s')
  {
  }

  lemma ProcessesKeptByKernel(s: State, step: Step, s': State)
    requires ProcessesAgree(s) && KernelDoes(s, step, s')
    ensures ProcessesAgree(s')
  {
    if step.ReapElsewhere? {
      AgreeAfterReap(s, step.p, Elsewhere, s');
    } else if step.Fork? {
      AgreeAfterStart(s, step.q, s'.procs[step.q], s');
    } else {
      AgreeAfterChange(s, step.p, s'.procs[step.p], s');
    }
  }

  lemma ProcessesKeptBySpawn(s: State, step: Step, s': State)
    requires ProcessesAgree(s) && SpawnDoes(s, step, s')
    ensures ProcessesAgree(s')
  {
    hide ProcessesAgree;
    if step.SpawnFork? {
      AgreeAfterStart(s, step.q, s'.procs[step.q], s');
    } else {
      AgreeUnchanged(s, s');
    }
  }

  lemma ProcessesKeptByWait(s: State, step: Step, s': State)
    requires ProcessesAgree(s) && WaitDoes(s, step, s')
    ensures ProcessesAgree(s')
  {
    hide ProcessesAgree;
    if step.WaitReap? && s'.procs != s.procs {
      AgreeAfterReap(s, s.cmds[step.c].pid, WaitOf(step.c), s');
    } else {
      AgreeUnchanged(s, s');
    }
  }

  lemma ProcessesKeptByReaper(s: State, step: Step, s': State)
    requires ProcessesAgree(s) && ReaperDoes(s, step, s')
    ensures ProcessesAgree(s')
  {
    hide ProcessesAgree;
    if s'.procs != s.procs {
      AgreeAfterReap(s, s.lock.found, Orphans, s');
    } else {
      AgreeUnchanged(s, s');
    }
  }

  lemma ProcessesKeptByKill(s: State, step: Step, s': State)
    requires ProcessesAgree(s) && KillDoes(s, step, s')
    ensures ProcessesAgree(s')
  {
    hide ProcessesAgree;
    AgreeUnchanged(s, s');
  }

  lemma AgreeUnchanged(s: State, s': State)
    requires ProcessesAgree(s) && s'.procs == s.procs && s'.nextInc == s.nextInc && s'.collected == s.collected
    ensures ProcessesAgree(s')
  {
  }

  lemma ProcessesKept(s: State, step: Step, s': State)
    requires ProcessesAgree(s) && Does(s, step, s')
    ensures ProcessesAgree(s')
  {
    hide ProcessesAgree;
    hide KernelDoes;
    hide SpawnDoes;
    hide WaitDoes;
    hide KillDoes;
    hide ReaperDoes;
    if KernelDoes(s, step, s') {
      ProcessesKeptByKernel(s, step, s');
    } else if SpawnDoes(s, step, s') {
      ProcessesKeptBySpawn(s, step, s');
    } else if WaitDoes(s, step, s') {
      ProcessesKeptByWait(s, step, s');
    } else if KillDoes(s, step, s') {
      ProcessesKeptByKill(s, step, s');
    } else {
      ProcessesKeptByReaper(s, step, s');
    }
  }

  // ---- every run -------------------------------------------------------------------------

  lemma InvKept(s: State, step: Step, s': State)
    requires !s.reissueEarly && Inv(s) && Does(s, step, s')
    ensures Inv(s') && !s'.reissueEarly
  {
    hide FlagsRight;
    hide PidsRight;
    hide GapsRight;
    hide CommandsDistinct;
    hide CollectedRightly;
    hide SignalsRight;
    hide Numbered;
    hide Grouped;
    hide Founded;
    ProcessesKept(s, step, s');
    if KernelDoes(s, step, s') {
      FlagsKeptByKernel(s, step, s');
      PidsKeptByKernel(s, step, s');
      GapsKeptByKernel(s, step, s');
      RecordsKeptByKernel(s, step, s');
    } else if SpawnDoes(s, step, s') {
      FlagsKeptBySpawn(s, step, s');
      PidsKeptBySpawn(s, step, s');
      GapsKeptBySpawn(s, step, s');
      RecordsKeptBySpawn(s, step, s');
    } else if WaitDoes(s, step, s') {
      FlagsKeptByWait(s, step, s');
      DistinctKeptByWait(s, step, s');
      PidsKeptByWait(s, step, s');
      GapsKeptByWait(s, step, s');
      RecordsKeptByWait(s, step, s');
    } else if KillDoes(s, step, s') {
      FlagsKeptByKill(s, step, s');
      DistinctKeptByKill(s, step, s');
      PidsKeptByKill(s, step, s');
      GapsKeptByKill(s, step, s');
      RecordsKeptByKill(s, step, s');
    } else {
      FlagsKeptByReaper(s, step, s');
      PidsKeptByReaper(s, step, s');
      RecordsKeptByReaper(s, step, s');
    }
  }

  lemma {:induction false} InvAlways(states: seq<State>, steps: seq<Step>, i: nat)
    requires Run(states, steps) && i < |states| && !states[0].reissueEarly
    ensures Inv(states[i]) && !states[i].reissueEarly
  {
    if i == 0 {
      FirstIsInv(states[0]);
    } else {
      assert Does(states[i - 1], steps[i - 1], states[i]);
      hide Does;
      hide Inv;
      InvAlways(states, steps, i - 1);
      InvKept(states[i - 1], steps[i - 1], states[i]);
    }
  }

  lemma FirstIsInv(s: State)
    requires Init(s)
    ensures Inv(s)
  {
    hide ProcessesAgree;
  }

  /** Every signal `kill_tree` ever sent, to the group or to the leader, was sent while that
      command's leader was unreaped, and reached nobody but that leader or the group it founded. */
  lemma SignalsStayHome(states: seq<State>, steps: seq<Step>, i: nat, g: Signal)
    requires Run(states, steps) && i < |states| && !states[0].reissueEarly
    requires g in states[i].signals
    ensures g.leaderUnreaped
    ensures g.c in states[i].cmds && g.reached <= {states[i].cmds[g.c].inc}
  {
    InvAlways(states, steps, i);
  }

  /** Nobody but its own wait thread ever collects a command; a command that was waited for got
      its own exit status; and the orphan reaper only ever collects what no `spawn` owns. */
  lemma StatusesAreNotStolen(states: seq<State>, steps: seq<Step>, i: nat, c: Cmd)
    requires Run(states, steps) && i < |states| && !states[0].reissueEarly
    requires c in states[i].cmds
    ensures var s := states[i]; var cmd := s.cmds[c];
      && (cmd.inc in s.collected ==> s.collected[cmd.inc] == WaitOf(c))
      && (cmd.inc in s.collected <==> cmd.status == Some(cmd.inc))
      && (cmd.waiter.Reported? ==> cmd.report == Some(Report(Some(cmd.inc), cmd.timedOut)))
  {
    InvAlways(states, steps, i);
  }

  lemma {:induction false} NumberedAlways(states: seq<State>, steps: seq<Step>, i: nat)
    requires Run(states, steps) && i < |states|
    ensures ProcessesAgree(states[i])
  {
    if i > 0 {
      NumberedAlways(states, steps, i - 1);
      assert Does(states[i - 1], steps[i - 1], states[i]);
      ProcessesKept(states[i - 1], steps[i - 1], states[i]);
    }
  }

  /** Each process is collected at most once: what was collected is gone for good. */
  lemma {:induction false} CollectedOnce(states: seq<State>, steps: seq<Step>, i: nat, j: nat, n: Inc)
    requires Run(states, steps) && i <= j < |states|
    requires n in states[i].collected
    ensures n in states[j].collected && states[j].collected[n] == states[i].collected[n]
    ensures forall p :: p in states[j].procs ==> states[j].procs[p].inc != n
    decreases j - i
  {
    NumberedAlways(states, steps, j);
    if i < j {
      CollectedOnce(states, steps, i, j - 1, n);
      assert Does(states[j - 1], steps[j - 1], states[j]);
      CollectedKept(states[j - 1], steps[j - 1], states[j], n);
    }
  }

  lemma CollectedKeptByWait(s: State, step: Step, s': State, n: Inc)
    requires WaitDoes(s, step, s') && n in s.collected
    requires forall p :: p in s.procs ==> s.procs[p].inc != n
    ensures n in s'.collected && s'.collected[n] == s.collected[n]
  {
  }

  lemma CollectedKeptByOthers(s: State, step: Step, s': State, n: Inc)
    requires SpawnDoes(s, step, s') || KillDoes(s, step, s')
    ensures s'.collected == s.collected
  {
    hide PidIsFree;
    hide GroupOf;
    hide LeaderOf;
  }

  lemma CollectedKept(s: State, step: Step, s': State, n: Inc)
    requires Does(s, step, s') && n in s.collected
    requires forall p :: p in s.procs ==> s.procs[p].inc != n
    ensures n in s'.collected && s'.collected[n] == s.collected[n]
  {
    hide PidIsFree;
    hide WaitDoes;
    hide SpawnDoes;
    hide KillDoes;
    if WaitDoes(s, step, s') {
      CollectedKeptByWait(s, step, s', n);
    } else if SpawnDoes(s, step, s') || KillDoes(s, step, s') {
      CollectedKeptByOthers(s, step, s', n);
    }
  }

  lemma FlagsAlways(states: seq<State>, steps: seq<Step>, i: nat)
    requires Run(states, steps) && i < |states| && !states[0].reissueEarly
    ensures FlagsRight(states[i])
  {
    InvAlways(states, steps, i);
  }

  /** Once a command is reaped, whether it counts as timed out is settled: `timed_out` keeps
      the value it had at the reap, and that value is the one reported. */
  lemma {:induction false} TimeoutIsSettledAtTheReap(states: seq<State>, steps: seq<Step>, i: nat, j: nat, c: Cmd)
    requires Run(states, steps) && i <= j < |states| && !states[0].reissueEarly
    requires c in states[i].cmds && states[i].cmds[c].atReap.Some?
    ensures c in states[j].cmds
    ensures states[j].cmds[c].atReap == states[i].cmds[c].atReap == Some(states[j].cmds[c].timedOut)
    ensures states[j].cmds[c].report.Some? ==> states[j].cmds[c].report.value.timedOut == states[i].cmds[c].atReap.value
    decreases j - i
  {
    if i < j {
      TimeoutIsSettledAtTheReap(states, steps, i, j - 1, c);
      FlagsAlways(states, steps, j - 1);
      assert Does(states[j - 1], steps[j - 1], states[j]);
      if WaitDoes(states[j - 1], steps[j - 1], states[j]) {
        ReapIsFinalForWait(states[j - 1], steps[j - 1], states[j], c);
      } else if KillDoes(states[j - 1], steps[j - 1], states[j]) {
        ReapIsFinalForKill(states[j - 1], steps[j - 1], states[j], c);
      } else {
        CommandUntouched(states[j - 1], steps[j - 1], states[j], c);
      }
    }
    FlagsAlways(states, steps, j);
  }

  lemma ReapIsFinalForWait(s: State, step: Step, s': State, c: Cmd)
    requires FlagsRight(s) && WaitDoes(s, step, s') && c in s.cmds && s.cmds[c].atReap.Some?
    ensures c in s'.cmds && s'.cmds[c].atReap == s.cmds[c].atReap && s'.cmds[c].timedOut == s.cmds[c].timedOut
  {
    assert FlagsAgree(s.cmds[c]);
    hide FlagsRight;
    assert !Unreaped(s.cmds[c]);
    hide FlagsAgree;
  }

  lemma ReapIsFinalForKill(s: State, step: Step, s': State, c: Cmd)
    requires FlagsRight(s) && KillDoes(s, step, s') && c in s.cmds && s.cmds[c].atReap.Some?
    ensures c in s'.cmds && s'.cmds[c].atReap == s.cmds[c].atReap && s'.cmds[c].timedOut == s.cmds[c].timedOut
  {
  }

  lemma CommandUntouched(s: State, step: Step, s': State, c: Cmd)
    requires KernelDoes(s, step, s') || SpawnDoes(s, step, s') || ReaperDoes(s, step, s')
    requires c in s.cmds
    ensures c in s'.cmds && s'.cmds[c] == s.cmds[c]
  {
  }

  /** Everything the orphan reaper takes is a child no `spawn` owns. */
  lemma ReaperTakesOrphansOnly(states: seq<State>, steps: seq<Step>, i: nat, c: Cmd)
    requires Run(states, steps) && i < |steps| && !states[0].reissueEarly
    requires steps[i].ReaperTake? && states[i + 1].collected != states[i].collected
    requires c in states[i + 1].cmds
    ensures var s := states[i];
      && s.lock.Found? && Waitable(s, s.lock.found) && s.lock.found !in s.owned
      && s.procs[s.lock.found].inc != states[i + 1].cmds[c].inc
      && states[i + 1].collected == s.collected[s.procs[s.lock.found].inc := Orphans]
  {
    InvAlways(states, steps, i);
    assert Does(states[i], steps[i], states[i + 1]);
    hide Run;
    hide FlagsRight;
    hide GapsRight;
    hide CommandsDistinct;
    hide CollectedRightly;
    hide SignalsRight;
    hide Grouped;
    hide Founded;
    TakesNoCommand(states[i], steps[i], states[i + 1], c);
  }

  lemma TakesNoCommand(s: State, step: Step, s': State, c: Cmd)
    requires Inv(s) && ReaperDoes(s, step, s') && step.ReaperTake? && s'.collected != s.collected && c in s'.cmds
    ensures s.lock.Found? && Waitable(s, s.lock.found) && s.lock.found !in s.owned
    ensures s.procs[s.lock.found].inc != s'.cmds[c].inc
    ensures s'.collected == s.collected[s.procs[s.lock.found].inc := Orphans]
  {
    hide FlagsRight;
    hide CommandsDistinct;
    hide SignalsRight;
    hide Grouped;
    hide Founded;
  }
}
