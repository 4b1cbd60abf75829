/** Failure-compatible wrappers: a masked-or-present value and an error-or-value result. */
module Wrappers {

  /** A value that may be absent; a masked pixel is `None`. */
  datatype Option<+T> = None | Some(value: T)

  /** Either a value or the error Earth Engine would raise. */
  datatype Result<+R, +E> = Ok(value: R) | Err(error: E) {

    predicate IsFailure() {
      Err?
    }

    function PropagateFailure<U>(): Result<U, E>
      requires Err?
    {
      Err(error)
    }

    function Extract(): R
      requires Ok?
    {
      value
    }
  }

  /**
   * Applies `f` to every element in order: the first failure is the result,
   * otherwise the results of all elements, in place.
   */
  function MapAll<A, B, E>(c: seq<A>, f: A -> Result<B, E>): (r: Result<seq<B>, E>)
    ensures r.Ok? <==> forall k :: 0 <= k < |c| ==> f(c[k]).Ok?
    ensures r.Ok? ==> |r.value| == |c|
    ensures r.Ok? ==> forall k :: 0 <= k < |c| ==> r.value[k] == f(c[k]).value
    ensures r.Err? ==> exists k :: 0 <= k < |c| && f(c[k]) == Err(r.error)
  {
    if c == [] then Ok([])
    else
      var head :- f(c[0]);
      var rest :- MapAll(c[1..], f);
      assert forall k :: 1 <= k < |c| ==> c[k] == c[1..][k - 1];
      Ok([head] + rest)
  }
}
