/** Values that may be absent, and results that may be errors. */
module Wrappers {
  datatype Option<+T> = None | Some(value: T)

  datatype Result<+T, +E> = Ok(value: T) | Err(error: E)
}

module Sequences {
  lemma Assoc<T>(a: seq<T>, b: seq<T>, c: seq<T>)
    ensures (a + b) + c == a + (b + c)
  {
  }

  lemma Appended<T>(a: seq<T>, b: seq<T>)
    ensures (a + b)[|a|..] == b
  {
  }
}
