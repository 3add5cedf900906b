/** Option and Result: Python's `None`-or-value and value-or-exception, as values. */
module Wrappers {

  datatype Option<+T> = None | Some(value: T)

  /** A computation that either produced a value or raised. Usable with `:-`. */
  datatype Result<+T, +E> = Success(value: T) | Failure(error: E) {
    predicate IsFailure() {
      Failure?
    }

    function PropagateFailure<U>(): Result<U, E>
      requires Failure?
    {
      Failure(error)
    }

    function Extract(): T
      requires Success?
    {
      value
    }
  }

  /**
   * `f` applied to each element in order, as a Python loop that appends each result: the first
   * element on which `f` raises ends the loop with that error.
   */
  function MapResults<A, B(==), E(==)>(f: A -> Result<B, E>, xs: seq<A>): (r: Result<seq<B>, E>)
    ensures r.Success? <==> forall i :: 0 <= i < |xs| ==> f(xs[i]).Success?
    ensures r.Success? ==> |r.value| == |xs| && forall i :: 0 <= i < |xs| ==> f(xs[i]) == Success(r.value[i])
    ensures r.Failure? ==>
      exists i :: 0 <= i < |xs| && f(xs[i]) == Failure(r.error) && (forall j :: 0 <= j < i ==> f(xs[j]).Success?)
    decreases |xs|
  {
    if xs == [] then Success([])
    else
      match f(xs[0])
      case Failure(e) => Failure(e)
      case Success(first) =>
      var rest := MapResults(f, xs[1..]);
      assert forall i :: 1 <= i < |xs| ==> xs[i] == xs[1..][i - 1];
      if rest.Failure? then Failure(rest.error)
      else Success([first] + rest.value)
  }

  /**
   * The loop behind `MapResults`: `out.append(f(x))` for each `x` in order, leaving at the first
   * `x` on which `f` raises.
   */
  method MapInOrder<A, B(==), E(==)>(f: A -> Result<B, E>, xs: seq<A>) returns (r: Result<seq<B>, E>)
    ensures r == MapResults(f, xs)
  {
    var out := [];
    var i := 0;
    while i < |xs|
      invariant i <= |xs| && |out| == i
      invariant forall j :: 0 <= j < i ==> f(xs[j]) == Success(out[j])
    {
      var y := f(xs[i]);
      if y.Failure? {
        assert MapResults(f, xs) == Failure(y.error) by {
          var all := MapResults(f, xs);
          var k :| 0 <= k < |xs| && f(xs[k]) == Failure(all.error) && forall j :: 0 <= j < k ==> f(xs[j]).Success?;
          assert k == i;
        }
        return Failure(y.error);
      }
      out := out + [y.value];
      i := i + 1;
    }
    assert MapResults(f, xs) == Success(out) by {
      var all := MapResults(f, xs);
      assert forall j :: 0 <= j < |xs| ==> f(xs[j]).Success?;
      assert all.Success?;
      assert forall j :: 0 <= j < |xs| ==> all.value[j] == out[j];
      assert all.value == out;
    }
    return Success(out);
  }
}
