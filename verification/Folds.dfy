/** Left folds with a step that can fail, as a loop that stops at the first error. */
module Folds {
  import opened Wrappers

  /** The first `n` items in order. */
  function Fold<S, T, E>(step: (S, T) -> Result<S, E>, start: S, items: seq<T>, n: nat): Result<S, E>
    requires n <= |items|
  {
    if n == 0 then Success(start)
    else
      var before := Fold(step, start, items, n - 1);
      if before.Failure? then before else step(before.value, items[n - 1])
  }

  lemma {:induction false} FoldFails<S, T, E>(step: (S, T) -> Result<S, E>, start: S, items: seq<T>, n: nat, m: nat)
    requires n <= m <= |items| && Fold(step, start, items, n).Failure?
    ensures Fold(step, start, items, m) == Fold(step, start, items, n)
    decreases m
  {
    if n < m {
      FoldFails(step, start, items, n, m - 1);
    }
  }

  /** A fold that fails does so at some item, behind items that all passed. */
  lemma {:induction false} FoldStops<S, T, E>(step: (S, T) -> Result<S, E>, start: S, items: seq<T>, n: nat, error: E)
    returns (i: nat, state: S)
    requires n <= |items| && Fold(step, start, items, n) == Failure(error)
    ensures i < n && Fold(step, start, items, i) == Success(state) && step(state, items[i]) == Failure(error)
  {
    var before := Fold(step, start, items, n - 1);
    if before.Failure? {
      i, state := FoldStops(step, start, items, n - 1, error);
    } else {
      i, state := n - 1, before.value;
    }
  }

  /** A whole list runs from `start` to `end`. */
  ghost predicate Runs<S, T, E>(step: (S, T) -> Result<S, E>, start: S, items: seq<T>, end: S) {
    Fold(step, start, items, |items|) == Success(end)
  }

  lemma {:induction false} FoldOfConcat<S, T, E>(step: (S, T) -> Result<S, E>, start: S, a: seq<T>, b: seq<T>, n: nat)
    requires n <= |a| + |b|
    ensures Fold(step, start, a + b, n)
         == if n <= |a| then Fold(step, start, a, n)
            else
              var middle := Fold(step, start, a, |a|);
              if middle.Failure? then middle else Fold(step, middle.value, b, n - |a|)
  {
    if n > 0 {
      FoldOfConcat(step, start, a, b, n - 1);
    }
  }

  lemma {:induction false} RunsOn<S, T, E>(step: (S, T) -> Result<S, E>, start: S, a: seq<T>, middle: S, b: seq<T>,
                                           end: S)
    requires Runs(step, start, a, middle) && Runs(step, middle, b, end)
    ensures Runs(step, start, a + b, end)
  {
    FoldOfConcat(step, start, a, b, |a| + |b|);
  }

  lemma {:induction false} RunsOne<S, T, E>(step: (S, T) -> Result<S, E>, start: S, item: T, end: S)
    requires step(start, item) == Success(end)
    ensures Runs(step, start, [item], end)
  {
    assert Fold(step, start, [item], 0) == Success(start);
  }

  /** The renderings of the first `n` items, one after the other. */
  function Flat<P, T>(items: seq<P>, render: P -> seq<T>, n: nat): seq<T>
    requires n <= |items|
  {
    if n == 0 then [] else Flat(items, render, n - 1) + render(items[n - 1])
  }

  lemma {:induction false} FlatMember<P, T>(items: seq<P>, render: P -> seq<T>, n: nat, x: T) returns (i: nat)
    requires n <= |items| && x in Flat(items, render, n)
    ensures i < n && x in render(items[i])
  {
    if x in render(items[n - 1]) {
      i := n - 1;
    } else {
      i := FlatMember(items, render, n - 1, x);
    }
  }

  lemma {:induction false} FlatMore<P, T>(before: seq<T>, items: seq<P>, render: P -> seq<T>, i: nat)
    requires i < |items|
    ensures before + Flat(items, render, i + 1) == before + Flat(items, render, i) + render(items[i])
  {
  }

  lemma {:induction false} FlatContains<P, T>(items: seq<P>, render: P -> seq<T>, n: nat, x: T)
    requires n <= |items|
    ensures x in Flat(items, render, n) <==> exists i :: 0 <= i < n && x in render(items[i])
  {
    if n > 0 {
      FlatContains(items, render, n - 1, x);
    }
  }

  /** Renderings that each run from one state to the next run as a whole. */
  lemma {:induction false} FlatRuns<S, P, T, E>(step: (S, T) -> Result<S, E>, states: seq<S>, items: seq<P>,
                                                render: P -> seq<T>, n: nat)
    requires n <= |items| && |states| == |items| + 1
    requires forall i :: 0 <= i < n ==> Runs(step, states[i], render(items[i]), states[i + 1])
    ensures Runs(step, states[0], Flat(items, render, n), states[n])
  {
    if n > 0 {
      FlatRuns(step, states, items, render, n - 1);
      RunsOn(step, states[0], Flat(items, render, n - 1), states[n - 1], render(items[n - 1]), states[n]);
    }
  }

  /** An item that changes no state can be left out anywhere. */
  lemma {:induction false} IdleItemIsInvisible<S(!new), T, E>(step: (S, T) -> Result<S, E>, start: S, a: seq<T>, x: T,
                                                              b: seq<T>)
    requires forall s: S :: step(s, x) == Success(s)
    ensures Fold(step, start, a + [x] + b, |a| + 1 + |b|) == Fold(step, start, a + b, |a| + |b|)
  {
    var middle := Fold(step, start, a, |a|);
    FoldOfConcat(step, start, a, [x], |a|);
    assert (a + [x])[|a|] == x;
    assert Fold(step, start, a + [x], |a| + 1) == middle;
    FoldOfConcat(step, start, a + [x], b, |a| + 1 + |b|);
    FoldOfConcat(step, start, a, b, |a| + |b|);
  }
}
