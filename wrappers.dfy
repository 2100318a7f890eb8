/** Option and Result types shared by the modules of the model. */
module Wrappers {

  /** `None` stands for a value pandas leaves undefined (NaN). */
  datatype Option<+T> = None | Some(value: T)

  /** The outcome of an operation that can raise an exception in the source. */
  datatype Result<+T, +E> = Ok(value: T) | Err(error: E)

  function OptionToSeq<T>(o: Option<T>): (s: seq<T>)
    ensures o.None? ==> s == []
    ensures o.Some? ==> s == [o.value]
  {
    match o
    case None => []
    case Some(v) => [v]
  }
}
