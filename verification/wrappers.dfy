/** Failure-carrying results shared by the other modules. */
module Wrappers {

  datatype Option<+T> = None | Some(value: T)

  datatype Result<+R, +E> = Success(value: R) | Failure(error: E)

  /** JavaScript's `x || 0` on a parseInt result: NaN (None) becomes 0. */
  function OrZero(n: Option<int>): (r: int)
    ensures r == 0 <==> n.None? || n == Some(0)
    ensures r != 0 ==> n == Some(r)
  {
    match n
    case Some(v) => v
    case None => 0
  }
}
