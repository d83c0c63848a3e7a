/** The result types the other modules return in place of exceptions and error values. */
module Wrappers {

  datatype Option<+T> = None | Some(value: T)

  datatype Result<+T, +E> = Success(value: T) | Failure(error: E)

  /**
   What holds at first, and is kept by each step that does not break it and by no other, holds
   all the way if and only if no step breaks it.
   */
  lemma {:induction false} AllTheWay(n: nat, kept: nat -> bool, broken: nat -> bool)
    requires kept(0)
    requires forall i: nat :: i < n && kept(i) ==> (kept(i + 1) <==> !broken(i))
    ensures (forall i: nat :: i <= n ==> kept(i)) <==> (forall i: nat :: i < n ==> !broken(i))
  {
    if n > 0 {
      AllTheWay(n - 1, kept, broken);
      assert kept(n - 1) ==> (kept(n - 1 + 1) <==> !broken(n - 1));
    }
  }
}
