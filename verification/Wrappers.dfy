/** Results of operations that may fail or find nothing, bytes, and the measure of searches that never look twice. */
module Wrappers {
  datatype Option<+T> = None | Some(value: T)

  datatype Result<+T, +E> = Ok(value: T) | Err(error: E)

  type Byte = b: nat | b < 256

  lemma {:induction false} FewerLeft<T>(all: set<T>, seen: set<T>, x: T)
    requires x in all && x !in seen
    ensures |all - (seen + {x})| < |all - seen|
  {
    assert all - (seen + {x}) == (all - seen) - {x};
  }
}
