/** Failure-carrying values and the one piece of Python list semantics the scripts rely on. */
module Wrappers {

  datatype Option<+T> = None | Some(value: T)

  datatype Result<+T, +E> = Success(value: T) | Failure(error: E)

  /** The Python exceptions the modelled code can raise and does not catch. */
  datatype PyError = IndexError | ZeroDivisionError

  /** Python's `xs[i]`: a negative index counts from the end, anything out of range raises. */
  function PyIndex<T>(xs: seq<T>, i: int): (r: Result<T, PyError>)
    ensures r.Success? <==> -|xs| <= i < |xs|
    ensures 0 <= i < |xs| ==> r == Success(xs[i])
    ensures -|xs| <= i < 0 ==> r == Success(xs[|xs| + i])
    ensures r.Failure? ==> r.error == IndexError
  {
    if 0 <= i < |xs| then Success(xs[i])
    else if -|xs| <= i < 0 then Success(xs[|xs| + i])
    else Failure(IndexError)
  }
}
