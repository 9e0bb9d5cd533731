/** Optional values and results for the error paths of the model. */
module Wrappers {

  datatype Option<+T> = None | Some(value: T)

  /** Either a value or the error that Python would raise instead. */
  datatype Result<+T, +E> = Ok(value: T) | Err(error: E)
}

/** Small facts about sequences that the proofs use in clean contexts. */
module Seqs {
  lemma AppendAssoc<T>(a: seq<T>, b: seq<T>, c: seq<T>)
    ensures (a + b) + c == a + (b + c)
  {
  }
}
