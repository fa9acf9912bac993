/** Parallel ranged uploads of one file (src/files.rs, `handle_write`): several requests write
    their part at their offset, each write on its own, and may set the final size once done. */
module Uploads {
  import opened Wrappers

  const ZERO: char := 0 as char

  /** A write behind the end leaves a hole of zeros. */
  function WriteAt(content: string, pos: nat, data: string): (r: string)
    ensures |r| == if pos + |data| > |content| && data != "" then pos + |data| else |content|
    ensures forall p :: 0 <= p < |r| ==>
              r[p] == if pos <= p < pos + |data| then data[p - pos] else if p < |content| then content[p] else ZERO
  {
    if data == "" then content
    else
      var padded := if pos > |content| then content + seq(pos - |content|, _ => ZERO) else content;
      var end := pos + |data|;
      padded[..pos] + data + if end < |padded| then padded[end..] else ""
  }

  function SetLen(content: string, n: nat): (r: string)
    ensures |r| == n && forall p :: 0 <= p < n ==> r[p] == if p < |content| then content[p] else ZERO
  {
    if n <= |content| then content[..n] else content + seq(n - |content|, _ => ZERO)
  }

  datatype Upload = Upload(offset: nat, data: string, truncateTo: Option<nat>)

  datatype Progress = Writing(written: nat) | Finished

  datatype State = State(content: string, progress: seq<Progress>)

  /** One write of what the socket gave, or the end of a request: `set_len`, if it was asked for. */
  datatype Step = Write(i: nat, k: nat) | Finish(i: nat)

  predicate Enabled(uploads: seq<Upload>, s: State, step: Step) {
    && step.i < |uploads| == |s.progress|
    && s.progress[step.i].Writing?
    && match step
       case Write(i, k) => 0 < k && s.progress[i].written + k <= |uploads[i].data|
       case Finish(i) => s.progress[i].written == |uploads[i].data|
  }

  function Next(uploads: seq<Upload>, s: State, step: Step): State
    requires Enabled(uploads, s, step)
  {
    var u, written := uploads[step.i], s.progress[step.i].written;
    match step
    case Write(i, k) =>
      State(WriteAt(s.content, u.offset + written, u.data[written..written + k]), s.progress[i := Writing(written + k)])
    case Finish(i) =>
      State(match u.truncateTo case Some(n) => SetLen(s.content, n) case None => s.content, s.progress[i := Finished])
  }

  // ---- uploads of one target -------------------------------------------------------------

  ghost predicate Covered(u: Upload, p: nat) {
    u.offset <= p < u.offset + |u.data|
  }

  /** Each upload carries its slice of the target, together they cover it, and whoever sets a size
      sets the target's. */
  ghost predicate Tiles(uploads: seq<Upload>, target: string) {
    && (forall u :: u in uploads ==>
          && u.offset + |u.data| <= |target| && u.data == target[u.offset..u.offset + |u.data|]
          && (u.truncateTo.Some? ==> u.truncateTo.value == |target|))
    && (forall p: nat :: p < |target| ==> CoveredBySome(uploads, p))
  }

  ghost predicate CoveredBySome(uploads: seq<Upload>, p: nat) {
    exists i :: 0 <= i < |uploads| && Covered(uploads[i], p)
  }

  ghost predicate Truncates(uploads: seq<Upload>) {
    exists i :: 0 <= i < |uploads| && uploads[i].truncateTo.Some?
  }

  /** Position p was written by upload i already. */
  ghost predicate WrittenBy(uploads: seq<Upload>, s: State, i: nat, p: nat)
    requires i < |uploads| == |s.progress|
  {
    Covered(uploads[i], p) && (s.progress[i].Finished? || p < uploads[i].offset + s.progress[i].written)
  }

  ghost predicate HasTruncated(uploads: seq<Upload>, s: State)
    requires |uploads| == |s.progress|
  {
    exists i :: 0 <= i < |uploads| && uploads[i].truncateTo.Some? && s.progress[i].Finished?
  }

  /** What every interleaving keeps: what was written is there; the rest of the target's length is
      the old content or zeros; behind it is the old tail until the first one sets the size, and
      then nothing. */
  ghost predicate Inv(uploads: seq<Upload>, target: string, before: string, s: State) {
    && |s.progress| == |uploads|
    && (forall i, p :: 0 <= i < |uploads| && 0 <= p && WrittenBy(uploads, s, i, p) ==>
          p < |s.content| && p < |target| && s.content[p] == target[p])
    && (if HasTruncated(uploads, s) then |s.content| == |target|
        else |s.content| >= |before| && (|s.content| > |before| ==> |s.content| <= |target|)
             && forall p :: |target| <= p < |before| ==> s.content[p] == before[p])
  }

  function Start(uploads: seq<Upload>, before: string): State {
    State(before, seq(|uploads|, _ => Writing(0)))
  }

  lemma InvAtStart(uploads: seq<Upload>, target: string, before: string)
    ensures Inv(uploads, target, before, Start(uploads, before))
  {
  }

  lemma SameTruncation(uploads: seq<Upload>, s: State, t: State, i: nat)
    requires i < |uploads| == |s.progress| == |t.progress| && t.progress == s.progress[i := t.progress[i]]
    requires uploads[i].truncateTo.None? || (s.progress[i].Writing? && t.progress[i].Writing?)
    ensures HasTruncated(uploads, t) <==> HasTruncated(uploads, s)
  {
    forall j | 0 <= j < |uploads| && uploads[j].truncateTo.Some?
      ensures s.progress[j].Finished? <==> t.progress[j].Finished? {
    }
  }

  lemma WriteKeepsInv(uploads: seq<Upload>, target: string, before: string, s: State, step: Step)
    requires Tiles(uploads, target) && Inv(uploads, target, before, s) && Enabled(uploads, s, step) && step.Write?
    ensures Inv(uploads, target, before, Next(uploads, s, step))
  {
    var t, i := Next(uploads, s, step), step.i;
    var u := uploads[i];
    assert u in uploads;
    var from, k := u.offset + s.progress[i].written, step.k;
    var data := u.data[from - u.offset..from - u.offset + k];
    assert |data| == k && from + k <= |target|;
    forall j, p | 0 <= j < |uploads| && 0 <= p && WrittenBy(uploads, t, j, p)
      ensures p < |t.content| && p < |target| && t.content[p] == target[p]
    {
      if from <= p < from + k {
        assert t.content[p] == data[p - from] == u.data[p - u.offset] == target[p];
      } else {
        assert WrittenBy(uploads, s, j, p);
      }
    }
    SameTruncation(uploads, s, t, i);
  }

  lemma FinishKeepsInv(uploads: seq<Upload>, target: string, before: string, s: State, step: Step)
    requires Tiles(uploads, target) && Inv(uploads, target, before, s) && Enabled(uploads, s, step) && step.Finish?
    ensures Inv(uploads, target, before, Next(uploads, s, step))
  {
    var t, i := Next(uploads, s, step), step.i;
    assert uploads[i] in uploads;
    forall j, p | 0 <= j < |uploads| && 0 <= p && WrittenBy(uploads, t, j, p)
      ensures p < |t.content| && p < |target| && t.content[p] == target[p]
    {
      assert uploads[j] in uploads;
      assert WrittenBy(uploads, s, j, p);
    }
    if uploads[i].truncateTo.None? {
      SameTruncation(uploads, s, t, i);
    } else {
      assert t.progress[i].Finished?;
    }
  }

  lemma InvKept(uploads: seq<Upload>, target: string, before: string, s: State, step: Step)
    requires Tiles(uploads, target) && Inv(uploads, target, before, s) && Enabled(uploads, s, step)
    ensures Inv(uploads, target, before, Next(uploads, s, step))
  {
    if step.Write? {
      WriteKeepsInv(uploads, target, before, s, step);
    } else {
      FinishKeepsInv(uploads, target, before, s, step);
    }
  }

  ghost predicate AllFinished(s: State) {
    forall i :: 0 <= i < |s.progress| ==> s.progress[i].Finished?
  }

  lemma IsWritten(uploads: seq<Upload>, target: string, before: string, s: State, p: nat)
    requires Tiles(uploads, target) && Inv(uploads, target, before, s) && AllFinished(s) && p < |target|
    ensures p < |s.content| && s.content[p] == target[p]
  {
    assert CoveredBySome(uploads, p);
    var i :| 0 <= i < |uploads| && Covered(uploads[i], p);
    assert WrittenBy(uploads, s, i, p);
  }

  /** Once all are through: the target, and behind it the old tail if nobody set the size. */
  lemma Outcome(uploads: seq<Upload>, target: string, before: string, s: State)
    requires Tiles(uploads, target) && Inv(uploads, target, before, s) && AllFinished(s)
    ensures s.content == target + if !Truncates(uploads) && |before| > |target| then before[|target|..] else ""
  {
    forall p: nat | p < |target| ensures p < |s.content| && s.content[p] == target[p] {
      IsWritten(uploads, target, before, s, p);
    }
    if target != "" {
      IsWritten(uploads, target, before, s, |target| - 1);
    }
    if Truncates(uploads) {
      var i :| 0 <= i < |uploads| && uploads[i].truncateTo.Some?;
      assert s.progress[i].Finished?;
    }
    assert HasTruncated(uploads, s) <==> Truncates(uploads);
    assert s.content[..|target|] == target;
    if |s.content| == |target| {
      assert s.content == target;
    }
  }

  // ---- all interleavings -----------------------------------------------------------------

  ghost predicate Possible(uploads: seq<Upload>, s: State, steps: seq<Step>)
    decreases |steps|
  {
    steps == [] || (Enabled(uploads, s, steps[0]) && Possible(uploads, Next(uploads, s, steps[0]), steps[1..]))
  }

  function Run(uploads: seq<Upload>, s: State, steps: seq<Step>): State
    requires Possible(uploads, s, steps)
    decreases |steps|
  {
    if steps == [] then s else Run(uploads, Next(uploads, s, steps[0]), steps[1..])
  }

  lemma {:induction false} InvAlways(uploads: seq<Upload>, target: string, before: string, s: State, steps: seq<Step>)
    requires Tiles(uploads, target) && Inv(uploads, target, before, s) && Possible(uploads, s, steps)
    ensures Inv(uploads, target, before, Run(uploads, s, steps))
    decreases |steps|
  {
    if steps != [] {
      InvKept(uploads, target, before, s, steps[0]);
      InvAlways(uploads, target, before, Next(uploads, s, steps[0]), steps[1..]);
    }
  }

  /** Whatever the order of the single writes and of the `set_len`s, and whatever the file was
      before: when all uploads are through, the file is exactly the target if and only if one of
      them set the size, or the old file was no longer than the target. No stale tail, no hole. */
  lemma UploadsAreOrderIndependent(uploads: seq<Upload>, target: string, before: string, steps: seq<Step>)
    requires Tiles(uploads, target) && Possible(uploads, Start(uploads, before), steps)
    requires AllFinished(Run(uploads, Start(uploads, before), steps))
    ensures Run(uploads, Start(uploads, before), steps).content == target <==> Truncates(uploads) || |before| <= |target|
  {
    InvAtStart(uploads, target, before);
    InvAlways(uploads, target, before, Start(uploads, before), steps);
    Outcome(uploads, target, before, Run(uploads, Start(uploads, before), steps));
  }

  // ---- the code -------------------------------------------------------------------------

  /** The file, and how far each request has got; the others go on at any time. */
  class SharedFile {
    const uploads: seq<Upload>
    var state: State

    constructor (uploads: seq<Upload>, before: string)
      ensures this.uploads == uploads && state == Start(uploads, before)
    {
      this.uploads := uploads;
      state := Start(uploads, before);
    }

    method Do(step: Step, ghost target: string, ghost before: string)
      requires Tiles(uploads, target) && Inv(uploads, target, before, state) && Enabled(uploads, state, step)
      modifies this
      ensures Inv(uploads, target, before, state) && state == Next(uploads, old(state), step)
    {
      InvKept(uploads, target, before, state, step);
      state := Next(uploads, state, step);
    }

    /** Any number of steps of the other requests. */
    method Others(me: nat, ghost target: string, ghost before: string)
      requires Tiles(uploads, target) && Inv(uploads, target, before, state) && me < |uploads|
      modifies this
      ensures Inv(uploads, target, before, state) && state.progress[me] == old(state.progress[me])
      ensures forall j :: 0 <= j < |uploads| && old(state.progress[j]).Finished? ==> state.progress[j].Finished?
    {
      var rounds: nat :| rounds >= 0;
      for r := 0 to rounds
        invariant Inv(uploads, target, before, state) && state.progress[me] == old(state.progress[me])
        invariant forall j :: 0 <= j < |uploads| && old(state.progress[j]).Finished? ==> state.progress[j].Finished?
      {
        var step: Step := *;
        if step.i != me && Enabled(uploads, state, step) {
          Do(step, target, before);
        }
      }
    }

    /** The body of one request, piece by piece as it arrives, and its `set_len`. */
    method HandleWrite(me: nat, ghost target: string, ghost before: string)
      requires Tiles(uploads, target) && Inv(uploads, target, before, state) && me < |uploads|
      requires state.progress[me] == Writing(0)
      modifies this
      ensures Inv(uploads, target, before, state) && state.progress[me].Finished?
      ensures forall j :: 0 <= j < |uploads| && old(state.progress[j]).Finished? ==> state.progress[j].Finished?
    {
      var written := 0;
      while written < |uploads[me].data|
        invariant 0 <= written <= |uploads[me].data|
        invariant Inv(uploads, target, before, state) && state.progress[me] == Writing(written)
        invariant forall j :: 0 <= j < |uploads| && old(state.progress[j]).Finished? ==> state.progress[j].Finished?
      {
        Others(me, target, before);
        var k: nat :| 0 < k && written + k <= |uploads[me].data|;
        Do(Write(me, k), target, before);
        written := written + k;
      }
      Others(me, target, before);
      Do(Finish(me), target, before);
    }
  }
}
