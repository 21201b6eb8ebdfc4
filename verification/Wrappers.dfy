/** The shapes used throughout: an optional value, a value or an error, and the repetition of a value. */
module Wrappers {
  datatype Option<+T> = None | Some(value: T)

  datatype Result<+R, +E> = Success(value: R) | Failure(error: E)

  function Repeat<T>(n: nat, x: T): seq<T> {
    seq(n, _ => x)
  }

  lemma RepeatSnoc<T>(n: nat, x: T)
    ensures Repeat(n + 1, x) == Repeat(n, x) + [x]
  {
  }
}
