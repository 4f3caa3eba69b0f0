/** Optional values and the outcome of a service call. */
module Wrappers {

  datatype Option<+T> = None | Some(value: T) {

    predicate IsFailure() {
      None?
    }

    function PropagateFailure<U>(): Option<U>
      requires None?
    {
      None
    }

    function Extract(): T
      requires Some?
    {
      value
    }
  }

  /** The application's exceptions, plus Fault for any exception raised by a store,
      a storage backend or another outside service. */
  datatype Error =
    | PermissionDenied
    | ValidationFailed
    | NotFound
    | Conflict
    | Unauthenticated
    | Business(code: nat)
    | ValueError
    | Fault

  datatype Result<+T> = Success(value: T) | Failure(error: Error)

  /** `next((x for x in xs if p(x)), None)`, as a position: the first one that satisfies `p`. */
  function FirstIndex<T>(xs: seq<T>, p: T -> bool): (r: Option<nat>)
    ensures r.Some? ==> r.value < |xs| && p(xs[r.value]) && forall i :: 0 <= i < r.value ==> !p(xs[i])
    ensures r.None? ==> forall i :: 0 <= i < |xs| ==> !p(xs[i])
  {
    if xs == [] then None
    else if p(xs[0]) then Some(0)
    else match FirstIndex(xs[1..], p)
      case None => None
      case Some(i) => Some(i + 1)
  }
}
