/** Option and Result, the two failure-carrying wrappers the model uses for Rust's
    `Option<T>` and `Result<T, E>`. */
module Wrappers {

  datatype Option<+T> = None | Some(value: T)

  datatype Result<+T, +E> = Success(value: T) | Failure(error: E) {

    predicate IsFailure() {
      Failure?
    }

    function PropagateFailure<U>(): Result<U, E>
      requires Failure?
    {
      Failure(error)
    }

    function Extract(): T
      requires Success?
    {
      value
    }
  }

  /** `rs.into_iter().collect::<Result<Vec<_>, _>>()`, the loop that pushes each
      value and returns at the first `?` failure: all the values when every
      result succeeds, otherwise the first failure. */
  function Sequence<T, E>(rs: seq<Result<T, E>>): (r: Result<seq<T>, E>)
    ensures r.Success? ==> |r.value| == |rs|
  {
    if rs == [] then Success([])
    else if rs[0].Failure? then Failure(rs[0].error)
    else match Sequence(rs[1..])
      case Success(vs) => Success([rs[0].value] + vs)
      case Failure(e) => Failure(e)
  }

  /** Every result succeeds: the values, in order. */
  lemma {:induction false} SequenceValues<T, E>(rs: seq<Result<T, E>>)
    requires forall i :: 0 <= i < |rs| ==> rs[i].Success?
    ensures Sequence(rs).Success?
    ensures forall i :: 0 <= i < |rs| ==> Sequence(rs).value[i] == rs[i].value
  {
    if rs != [] {
      SequenceValues(rs[1..]);
      assert forall i :: 1 <= i < |rs| ==> rs[1..][i - 1] == rs[i];
    }
  }

  /** The first failure is the one reported. */
  lemma {:induction false} SequenceFirstFailure<T, E>(rs: seq<Result<T, E>>, k: nat)
    requires k < |rs| && rs[k].Failure?
    requires forall i :: 0 <= i < k ==> rs[i].Success?
    ensures Sequence(rs) == Failure(rs[k].error)
  {
    if k > 0 {
      assert rs[1..][k - 1] == rs[k];
      SequenceFirstFailure(rs[1..], k - 1);
    }
  }

  /** The sequence fails exactly when one of its results does. */
  lemma {:induction false} SequenceSucceeds<T, E>(rs: seq<Result<T, E>>)
    ensures Sequence(rs).Success? <==> forall i :: 0 <= i < |rs| ==> rs[i].Success?
  {
    if rs != [] {
      SequenceSucceeds(rs[1..]);
      assert forall i :: 1 <= i < |rs| ==> rs[1..][i - 1] == rs[i];
    }
  }

  /** The value of an option, as a list of zero or one elements. */
  function Present<T>(x: Option<T>): seq<T> {
    if x.Some? then [x.value] else []
  }

  /** `filter_map`: keeps the present values, in order. */
  function Somes<T>(xs: seq<Option<T>>): (r: seq<T>)
    ensures |r| <= |xs|
    decreases |xs|
  {
    if xs == [] then [] else Somes(xs[..|xs| - 1]) + Present(xs[|xs| - 1])
  }

  lemma SomesSnoc<T>(xs: seq<Option<T>>, x: Option<T>)
    ensures Somes(xs + [x]) == Somes(xs) + Present(x)
  {
    assert (xs + [x])[..|xs|] == xs;
  }

  /** What is kept is present in the list, and everything present is kept. */
  lemma {:induction false} SomesMembers<T>(xs: seq<Option<T>>)
    ensures forall x :: x in Somes(xs) ==> Some(x) in xs
    ensures forall i :: 0 <= i < |xs| && xs[i].Some? ==> xs[i].value in Somes(xs)
    decreases |xs|
  {
    if xs != [] {
      var prefix := xs[..|xs| - 1];
      SomesMembers(prefix);
      assert forall i :: 0 <= i < |prefix| ==> prefix[i] == xs[i];
    }
  }

  /** With every value present, nothing is dropped. */
  lemma {:induction false} SomesAll<T>(xs: seq<Option<T>>)
    requires forall i :: 0 <= i < |xs| ==> xs[i].Some?
    ensures |Somes(xs)| == |xs|
    ensures forall i :: 0 <= i < |xs| ==> Somes(xs)[i] == xs[i].value
    decreases |xs|
  {
    if xs != [] {
      SomesAll(xs[..|xs| - 1]);
    }
  }
}
