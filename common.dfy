/** Shared vocabulary of the two key-based joins: optional values, results with an error
    side, and the value a join builds from one matched pair. */
module Common {

  datatype Option<+T> = None | Some(value: T)

  datatype Result<+R, +E> = Success(value: R) | Failure(error: E)

  /** What a join builds from a matched pair: the pair itself when no merge function is
      configured, otherwise whatever the merge function returns. */
  datatype Merged<A, B, O> = Pair(left: A, right: B) | Merge(out: O)

  /** `merge_fn(a, b) if merge_fn else (a, b)`: the merge function when one is given,
      the plain pair otherwise. */
  function Combine<A, B, O>(mergeFn: Option<(A, B) -> O>, a: A, b: B): Merged<A, B, O>
  {
    match mergeFn
    case None => Pair(a, b)
    case Some(f) => Merge(f(a, b))
  }
}
