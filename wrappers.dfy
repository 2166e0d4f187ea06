/** Option and Result values used for Python's `None` and for raised exceptions. */
module Wrappers {

  datatype Option<+T> = None | Some(value: T)

  /** A computation that either yields a value or stops with the error Python would raise. */
  datatype Result<+T, +E> = Success(value: T) | Failure(error: E) {

    predicate IsFailure() {
      Failure?
    }

    function PropagateFailure<U>(): Result<U, E>
      requires Failure?
    {
      Failure(error)
    }

    function Extract(): T
      requires Success?
    {
      value
    }
  }

  /** `[f(x) for x in xs]` where `f` may raise: the first element that fails stops the loop. */
  function MapResult<A, B, E>(f: A -> Result<B, E>, xs: seq<A>): Result<seq<B>, E> {
    if xs == [] then Success([])
    else
      var init :- MapResult(f, xs[..|xs| - 1]);
      var y :- f(xs[|xs| - 1]);
      Success(init + [y])
  }

  /** Once the loop has failed on a prefix, it fails with the same error on the whole list. */
  lemma {:induction false} MapResultPrefixFails<A, B, E>(f: A -> Result<B, E>, xs: seq<A>, j: nat)
    requires j <= |xs| && MapResult(f, xs[..j]).Failure?
    ensures MapResult(f, xs) == Failure(MapResult(f, xs[..j]).error)
    decreases |xs|
  {
    if j < |xs| {
      var n := |xs| - 1;
      assert xs[..n][..j] == xs[..j];
      MapResultPrefixFails(f, xs[..n], j);
    } else {
      assert xs[..j] == xs;
    }
  }

  /** A successful loop yields one result per element, in order. */
  lemma {:induction false} MapResultEach<A, B, E>(f: A -> Result<B, E>, xs: seq<A>)
    requires MapResult(f, xs).Success?
    ensures |MapResult(f, xs).value| == |xs|
    ensures forall k :: 0 <= k < |xs| ==> f(xs[k]) == Success(MapResult(f, xs).value[k])
  {
    if xs != [] {
      var n := |xs| - 1;
      MapResultEach(f, xs[..n]);
      forall k | 0 <= k < n ensures f(xs[k]) == Success(MapResult(f, xs).value[k]) {
        assert xs[..n][k] == xs[k];
      }
    }
  }

  /** The loop succeeds exactly when every element succeeds; otherwise it reports the error
      of the first element that fails. */
  lemma {:induction false} MapResultFirstError<A, B, E>(f: A -> Result<B, E>, xs: seq<A>)
    ensures MapResult(f, xs).Success? <==> forall k :: 0 <= k < |xs| ==> f(xs[k]).Success?
    ensures MapResult(f, xs).Failure? ==> exists j :: (0 <= j < |xs|
      && (forall k :: 0 <= k < j ==> f(xs[k]).Success?)
      && f(xs[j]) == Failure(MapResult(f, xs).error))
  {
    if xs != [] {
      var n := |xs| - 1;
      var init := xs[..n];
      MapResultFirstError(f, init);
      assert forall k :: 0 <= k < n ==> init[k] == xs[k];
      if MapResult(f, init).Failure? {
        var j :| 0 <= j < n
          && (forall k :: 0 <= k < j ==> f(init[k]).Success?)
          && f(init[j]) == Failure(MapResult(f, init).error);
        assert f(xs[j]) == Failure(MapResult(f, xs).error);
      }
    }
  }

  /** When every element succeeds, the loop yields their results in order. */
  lemma {:induction false} MapResultAll<A, B, E>(f: A -> Result<B, E>, xs: seq<A>, ys: seq<B>)
    requires |xs| == |ys|
    requires forall k :: 0 <= k < |xs| ==> f(xs[k]) == Success(ys[k])
    ensures MapResult(f, xs) == Success(ys)
  {
    if xs != [] {
      var n := |xs| - 1;
      MapResultAll(f, xs[..n], ys[..n]);
      assert ys == ys[..n] + [ys[n]];
    }
  }

  /** A loop over `xs` that updates a state with `step` and stops at the first error. */
  function Fold<S, A, E>(step: (S, A) -> Result<S, E>, s: S, xs: seq<A>): Result<S, E> {
    if xs == [] then Success(s)
    else
      var t :- Fold(step, s, xs[..|xs| - 1]);
      step(t, xs[|xs| - 1])
  }

  /** Once the loop has failed on a prefix, it fails with the same error on the whole list. */
  lemma {:induction false} FoldPrefixFails<S, A, E>(step: (S, A) -> Result<S, E>, s: S, xs: seq<A>, j: nat)
    requires j <= |xs| && Fold(step, s, xs[..j]).Failure?
    ensures Fold(step, s, xs) == Failure(Fold(step, s, xs[..j]).error)
    decreases |xs|
  {
    if j < |xs| {
      var n := |xs| - 1;
      assert xs[..n][..j] == xs[..j];
      FoldPrefixFails(step, s, xs[..n], j);
    } else {
      assert xs[..j] == xs;
    }
  }

  /** Running the loop over `xs + ys` is running it over `xs` and continuing from there. */
  lemma {:induction false} FoldConcat<S, A, E>(step: (S, A) -> Result<S, E>, s: S, xs: seq<A>, ys: seq<A>)
    ensures Fold(step, s, xs + ys) ==
      match Fold(step, s, xs) case Success(t) => Fold(step, t, ys) case Failure(e) => Failure(e)
    decreases |ys|
  {
    if ys == [] {
      assert xs + ys == xs;
    } else {
      var n := |ys| - 1;
      assert (xs + ys)[..|xs + ys| - 1] == xs + ys[..n];
      assert (xs + ys)[|xs + ys| - 1] == ys[n];
      FoldConcat(step, s, xs, ys[..n]);
    }
  }

  /** The loop over one element is one step. */
  lemma FoldOne<S, A, E>(step: (S, A) -> Result<S, E>, s: S, x: A)
    ensures Fold(step, s, [x]) == step(s, x)
  {
    assert [x][..0] == [];
  }

  /** The loop over three elements is three steps, when the first two succeed. */
  lemma FoldThree<S, A, E>(step: (S, A) -> Result<S, E>, s: S, a: A, b: A, c: A)
    requires step(s, a).Success? && step(step(s, a).value, b).Success?
    ensures Fold(step, s, [a, b, c]) == step(step(step(s, a).value, b).value, c)
  {
    assert [a, b, c][..2] == [a, b];
    assert [a, b][..1] == [a];
    FoldOne(step, s, a);
  }

  /** A property of the state that every step keeps, and a property that every error a step
      raises has, hold of the whole loop's outcome. */
  lemma {:induction false} FoldKeeps<S, A, E>(step: (S, A) -> Result<S, E>, s: S, xs: seq<A>,
                                              good: S -> bool, bad: E -> bool)
    requires good(s)
    requires forall t, k :: 0 <= k < |xs| && good(t) && step(t, xs[k]).Success? ==> good(step(t, xs[k]).value)
    requires forall t, k :: 0 <= k < |xs| && good(t) && step(t, xs[k]).Failure? ==> bad(step(t, xs[k]).error)
    ensures Fold(step, s, xs).Success? ==> good(Fold(step, s, xs).value)
    ensures Fold(step, s, xs).Failure? ==> bad(Fold(step, s, xs).error)
  {
    if xs != [] {
      var n := |xs| - 1;
      var init := xs[..n];
      forall t, k | 0 <= k < |init| && good(t)
        ensures step(t, init[k]).Success? ==> good(step(t, init[k]).value)
        ensures step(t, init[k]).Failure? ==> bad(step(t, init[k]).error)
      {
        assert init[k] == xs[k];
      }
      FoldKeeps(step, s, init, good, bad);
    }
  }

  /** One more turn of the loop: from the state the prefix left, the next element's step
      decides how the longer prefix ends. */
  lemma FoldNext<S, A, E>(step: (S, A) -> Result<S, E>, s: S, xs: seq<A>, j: nat, u: S)
    requires j < |xs| && Fold(step, s, xs[..j]) == Success(u)
    ensures Fold(step, s, xs[..j + 1]) == step(u, xs[j])
  {
    assert xs[..j + 1][..j] == xs[..j];
  }

  /** The first element whose step fails ends the whole loop with that step's error. */
  lemma FoldStopsAt<S, A, E>(step: (S, A) -> Result<S, E>, s: S, xs: seq<A>, j: nat, u: S)
    requires j < |xs| && Fold(step, s, xs[..j]) == Success(u) && step(u, xs[j]).Failure?
    ensures Fold(step, s, xs) == step(u, xs[j])
  {
    FoldNext(step, s, xs, j, u);
    FoldPrefixFails(step, s, xs, j + 1);
  }

  /** The loop as a program runs it: `step` on each element in turn, returning at the first
      error. */
  method RunFold<S, A, E>(step: (S, A) -> Result<S, E>, s: S, xs: seq<A>) returns (r: Result<S, E>)
    ensures r == Fold(step, s, xs)
  {
    var state := s;
    var i := 0;
    while i < |xs|
      invariant 0 <= i <= |xs|
      invariant Fold(step, s, xs[..i]) == Success(state)
    {
      var next := step(state, xs[i]);
      FoldNext(step, s, xs, i, state);
      if next.Failure? {
        FoldStopsAt(step, s, xs, i, state);
        return next;
      }
      state := next.value;
      i := i + 1;
    }
    assert xs[..i] == xs;
    return Success(state);
  }
}
