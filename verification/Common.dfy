/** Small value types shared by the models of the individual components. */
module Common {

  datatype Option<+T> = None | Some(value: T)

  /** The outcome of a call that may report an `llvm::Error`. */
  datatype Result<+T> = Ok(value: T) | Error

  /** A subset has no more elements; a proper subset has fewer. */
  lemma SubsetCardinality<T>(a: set<T>, b: set<T>)
    requires a <= b
    ensures |a| <= |b|
    ensures a != b ==> |a| < |b|
  {
    var rest := b - a;
    assert b == a + rest;
    if a != b {
      assert rest != {};
    }
  }
}
