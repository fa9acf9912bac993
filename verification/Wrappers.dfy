/** Values that may be absent, outcomes that may be an error, and a number not yet used. */
module Wrappers {

  datatype Option<+T> = None | Some(value: T)

  datatype Result<+T, +E> = Ok(value: T) | Err(error: E)

  /** A number above all of these. */
  ghost function Above(s: set<nat>): (b: nat)
    ensures forall i :: i in s ==> i < b
  {
    if s == {} then 0
    else
      var x :| x in s;
      var b := Above(s - {x});
      assert forall i :: i in s ==> i == x || i in s - {x};
      if x < b then b else x + 1
  }
}
