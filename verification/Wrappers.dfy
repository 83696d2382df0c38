/** What the other modules share: the two result shapes, and fresh numbers. */
module Wrappers {
  datatype Option<+T> = None | Some(value: T)

  /** A value, or the error that was thrown instead. */
  datatype Result<+T> = Ok(value: T) | Err(error: string)

  /** A number no element of the set is as large as. */
  lemma {:induction false} Above(s: set<nat>) returns (n: nat)
    ensures forall x :: x in s ==> x < n
    decreases |s|
  {
    if s == {} {
      n := 0;
    } else {
      var x :| x in s;
      n := Above(s - {x});
      assert forall y :: y in s ==> y in s - {x} || y == x;
      n := if x < n then n else x + 1;
    }
  }
}
