/** Stock types and facts shared by the models. */
module Wrappers {
  datatype Option<+T> = None | Some(value: T)

  datatype Result<+T, +E> = Ok(value: T) | Err(error: E)

  lemma {:induction false} SubsetCount<T>(a: set<T>, b: set<T>)
    requires a <= b
    ensures |a| <= |b|
  {
    if a != {} {
      var x :| x in a;
      SubsetCount(a - {x}, b - {x});
    }
  }

  /** An invariant written as `forall k: nat :: Opened(k) ==> I` says the same as `I`, but proofs that
      only hand it on do not look inside; asserting `Opened(0)` opens it. */
  ghost predicate Opened(k: nat) {
    true
  }
}
