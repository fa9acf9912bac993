/** A request for several sandboxes (src/sandboxes.rs, `handle_create`): how many are made, and
    what the client is told. */
module Placement {
  import opened Wrappers

  const MOST_AT_ONCE: nat := 4096

  /** What one `create` comes back with. */
  datatype Attempt = Made(sandbox: nat) | Full | Failed

  datatype Answer = Placed(sandboxes: seq<nat>, rejected: nat) | ServerError

  function RemainingCapacity(capacity: nat, reserved: nat): nat {
    var left := if reserved <= capacity then capacity - reserved else 0;
    if left < MOST_AT_ONCE then left else MOST_AT_ONCE
  }

  function Requested(count: Option<nat>): nat {
    match count
    case Some(n) => if n < 1 then 1 else n
    case None => 1
  }

  /** How many attempts are made at most. */
  function Clamped(count: Option<nat>, remaining: nat): nat {
    if Requested(count) < remaining then Requested(count) else remaining
  }

  /** As many attempts as the client asks for, as there are free slots, and as 4096 allow: the
      largest number that is within all three. */
  lemma ClampedIsTheLargest(count: Option<nat>, capacity: nat, reserved: nat, m: nat)
    ensures var n := Clamped(count, RemainingCapacity(capacity, reserved));
      m <= n <==> m <= 4096 && (m == 0 || reserved + m <= capacity) && (m <= 1 || (count.Some? && m <= count.value))
  {
  }

  /** The sandboxes made before the first attempt that did not succeed. */
  function MadeFirst(attempts: seq<Attempt>): (made: seq<nat>)
    ensures |made| <= |attempts| && (|made| < |attempts| ==> !attempts[|made|].Made?)
    ensures forall k :: 0 <= k < |made| ==> attempts[k] == Made(made[k])
  {
    if attempts == [] || !attempts[0].Made? then [] else [attempts[0].sandbox] + MadeFirst(attempts[1..])
  }

  lemma NextAttempt(attempts: seq<Attempt>, i: nat, n: nat)
    requires i < n <= |attempts|
    ensures MadeFirst(attempts[i..n]) == if attempts[i].Made? then [attempts[i].sandbox] + MadeFirst(attempts[i + 1..n]) else []
  {
    assert attempts[i..n][1..] == attempts[i + 1..n];
  }

  lemma NoAttempt(attempts: seq<Attempt>, n: nat)
    requires n <= |attempts|
    ensures MadeFirst(attempts[n..n]) == [] && attempts[0..n] == attempts[..n]
  {
  }

  /** What the client is told after up to n attempts: an error if the first that did not succeed
      failed, or else what was made and how many of the n were not. */
  function AnswerTo(n: nat, attempts: seq<Attempt>): Answer
    requires n <= |attempts|
  {
    var made := MadeFirst(attempts[..n]);
    if |made| < n && attempts[|made|].Failed? then ServerError else Placed(made, n - |made|)
  }

  /** The loop: up to n attempts, until one does not succeed. */
  method Place(n: nat, attempts: seq<Attempt>) returns (answer: Answer, made: seq<nat>)
    requires n <= |attempts|
    ensures made == MadeFirst(attempts[..n]) && |made| <= n
    ensures answer == AnswerTo(n, attempts)
  {
    hide MadeFirst;
    made := [];
    NoAttempt(attempts, n);
    assert [] + MadeFirst(attempts[..n]) == MadeFirst(attempts[..n]);
    for i := 0 to n
      invariant |made| == i
      invariant made + MadeFirst(attempts[i..n]) == MadeFirst(attempts[..n])
    {
      NextAttempt(attempts, i, n);
      match attempts[i] {
        case Made(s) =>
          Shift(made, s, MadeFirst(attempts[i + 1..n]));
          made := made + [s];
        case Full =>
          assert made + [] == made;
          return Placed(made, n - |made|), made;
        case Failed =>
          assert made + [] == made;
          return ServerError, made;
      }
    }
    assert made + [] == made;
    answer := Placed(made, 0);
  }

  lemma Shift(a: seq<nat>, x: nat, b: seq<nat>)
    ensures (a + [x]) + b == a + ([x] + b)
  {
  }

  /** `attempts` is what the registry would answer, one attempt after another. */
  method HandleCreate(count: Option<nat>, capacity: nat, reserved: nat, attempts: seq<Attempt>)
    returns (answer: Answer, made: seq<nat>)
    requires |attempts| >= Clamped(count, RemainingCapacity(capacity, reserved))
    ensures var n := Clamped(count, RemainingCapacity(capacity, reserved));
      && made == MadeFirst(attempts[..n]) && |made| <= n
      && answer == AnswerTo(n, attempts)
      && (answer.ServerError? <==> |made| < n && attempts[|made|].Failed?)
      && (answer.Placed? ==> answer.sandboxes == made && |made| + answer.rejected == n)
  {
    answer, made := Place(Clamped(count, RemainingCapacity(capacity, reserved)), attempts);
  }

  /** What is left of the request is `rejected` if and only if the request was no larger than what
      the host could still hold when it came in: a larger one is cut down first, and that cut is
      not reported. */
  lemma RejectedIsTheRestUnlessClamped(count: Option<nat>, remaining: nat, made: seq<nat>, rejected: nat)
    requires |made| + rejected == Clamped(count, remaining)
    ensures |made| + rejected == Requested(count) <==> Requested(count) <= remaining
  {
  }

  lemma {:induction false} MadeUpTo(attempts: seq<Attempt>, k: nat)
    requires k < |attempts| && !attempts[k].Made? && forall j :: 0 <= j < k ==> attempts[j].Made?
    ensures |MadeFirst(attempts)| == k
    decreases k
  {
    if k > 0 {
      MadeUpTo(attempts[1..], k - 1);
    }
  }

  /** An I/O failure within the clamped count: the client gets an error and is told of none of the
      sandboxes, although all attempts before it made one. */
  lemma FailureHidesTheOthers(n: nat, attempts: seq<Attempt>, k: nat)
    requires k < n <= |attempts| && attempts[k].Failed? && forall j :: 0 <= j < k ==> attempts[j].Made?
    ensures AnswerTo(n, attempts) == ServerError
    ensures |MadeFirst(attempts[..n])| == k && forall j :: 0 <= j < k ==> attempts[j] == Made(MadeFirst(attempts[..n])[j])
  {
    MadeUpTo(attempts[..n], k);
  }
}
