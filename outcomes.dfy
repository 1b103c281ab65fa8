/**
 * The exceptions the geodataset core raises or translates, and the
 * Option/Result wrappers that make Python's exception-driven control flow
 * explicit: a call that raises becomes `Fail(e)`.
 */
module Outcomes {

  /** Python exception classes seen by the core. */
  datatype Error =
    | BadAreaDefinition          // geodataset.utils.BadAreaDefinition: "try the next reader class"
    | InvalidDatasetError        // geodataset.utils.InvalidDatasetError
    | IndexError                 // netCDF4 missing variable / index out of range, list index
    | KeyError(key: string)      // dict lookup of a missing key
    | ValueError(message: string)
    | TypeError
    | AttributeError(name: string)
    | NotImplementedError
    | NonFinite                  // numpy float division by zero (Python continues with inf/nan)
    | Foreign(name: string)      // any other exception raised by a foreign collaborator

  datatype Option<+T> = None | Some(value: T)

  datatype Result<+T> = Ok(value: T) | Fail(error: Error) {
    predicate IsFailure() { Fail? }

    function PropagateFailure<U>(): Result<U>
      requires Fail?
    {
      Fail(error)
    }

    function Extract(): T
      requires Ok?
    {
      value
    }
  }

  /**
   * A Python loop that applies `f` to each element in order and appends the
   * result: the first element on which `f` raises ends the loop with that error.
   */
  function MapAll<A, B>(f: A -> Result<B>, xs: seq<A>): (r: Result<seq<B>>)
    ensures r.Ok? ==> |r.value| == |xs|
    decreases |xs|
  {
    if xs == [] then Ok([])
    else
      var init :- MapAll(f, xs[..|xs| - 1]);
      var y :- f(xs[|xs| - 1]);
      Ok(init + [y])
  }

  /** Element `i` of the result is `f` of element `i`. */
  lemma {:induction false} MapAllPointwise<A, B>(f: A -> Result<B>, xs: seq<A>)
    ensures var r := MapAll(f, xs);
      r.Ok? ==> forall i :: 0 <= i < |xs| ==> f(xs[i]) == Ok(r.value[i])
    decreases |xs|
  {
    if xs != [] {
      var init := xs[..|xs| - 1];
      MapAllPointwise(f, init);
      assert forall i :: 0 <= i < |init| ==> init[i] == xs[i];
    }
  }

  /** A failure is the error of the first element on which `f` fails. */
  lemma {:induction false} MapAllFirstFailure<A, B>(f: A -> Result<B>, xs: seq<A>)
    ensures var r := MapAll(f, xs);
      (r.Fail? ==>
        exists i :: (0 <= i < |xs| && f(xs[i]) == Fail(r.error)
          && forall j :: 0 <= j < i ==> f(xs[j]).Ok?))
    decreases |xs|
  {
    if xs != [] {
      var init := xs[..|xs| - 1];
      var n := |init|;
      MapAllFirstFailure(f, init);
      assert forall i :: 0 <= i < n ==> init[i] == xs[i];
      if MapAll(f, init).Fail? {
        var i :| (0 <= i < n && f(init[i]) == Fail(MapAll(f, init).error)
          && forall j :: 0 <= j < i ==> f(init[j]).Ok?);
        assert f(xs[i]) == f(init[i]);
      } else if f(xs[n]).Fail? {
        MapAllPointwise(f, init);
        assert forall j :: 0 <= j < n ==> f(xs[j]).Ok?;
      }
    }
  }

  /** The loop completes exactly when `f` succeeds on every element. */
  lemma MapAllSucceeds<A, B>(f: A -> Result<B>, xs: seq<A>)
    ensures MapAll(f, xs).Ok? <==> forall i :: 0 <= i < |xs| ==> f(xs[i]).Ok?
  {
    MapAllPointwise(f, xs);
    MapAllFirstFailure(f, xs);
  }

  /** One more successful step appends its result. */
  lemma MapAllSnoc<A, B>(f: A -> Result<B>, xs: seq<A>, i: nat)
    requires i < |xs| && MapAll(f, xs[..i]).Ok? && f(xs[i]).Ok?
    ensures MapAll(f, xs[..i + 1]) == Ok(MapAll(f, xs[..i]).value + [f(xs[i]).value])
  {
    assert xs[..i + 1][..i] == xs[..i];
  }

  /** A failing step ends the loop with its error, whatever follows. */
  lemma MapAllStops<A, B>(f: A -> Result<B>, xs: seq<A>, i: nat)
    requires i < |xs| && MapAll(f, xs[..i]).Ok? && f(xs[i]).Fail?
    ensures MapAll(f, xs) == Fail(f(xs[i]).error)
  {
    assert xs[..i + 1][..i] == xs[..i];
    MapAllFailedPrefix(f, xs, i + 1);
  }

  lemma {:induction false} MapAllFailedPrefix<A, B>(f: A -> Result<B>, xs: seq<A>, m: nat)
    requires m <= |xs| && MapAll(f, xs[..m]).Fail?
    ensures MapAll(f, xs) == MapAll(f, xs[..m])
    decreases |xs| - m
  {
    if m < |xs| {
      assert xs[..m + 1][..m] == xs[..m];
      MapAllFailedPrefix(f, xs, m + 1);
    } else {
      assert xs[..m] == xs;
    }
  }
}
