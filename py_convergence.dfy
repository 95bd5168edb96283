/** The convergence criterion of `src/indecision/simulation/convergence.py`:
    it records every sequence of snapshots it is shown and compares the
    empirical distributions of the two most recent windows of that record. */
module PyConvergence {
  import opened PyLists

  /** The entries of every element of `window`, in order. */
  function Flatten<X>(window: seq<seq<X>>): (flat: seq<X>)
  {
    if window == [] then [] else Flatten(window[..|window| - 1]) + window[|window| - 1]
  }

  lemma {:induction false} FlattenAppend<X>(a: seq<seq<X>>, b: seq<seq<X>>)
    ensures Flatten(a + b) == Flatten(a) + Flatten(b)
    decreases |b|
  {
    if b != [] {
      var ab := a + b;
      assert ab[..|ab| - 1] == a + b[..|b| - 1];
      assert ab[|ab| - 1] == b[|b| - 1];
      FlattenAppend(a, b[..|b| - 1]);
      calc {
        Flatten(ab);
        Flatten(a + b[..|b| - 1]) + b[|b| - 1];
        Flatten(a) + Flatten(b[..|b| - 1]) + b[|b| - 1];
        Flatten(a) + Flatten(b);
      }
    } else {
      assert a + b == a;
    }
  }

  /** Flattening lays the entries end to end, in order: every entry appears
      whole, between the flattened entries before it and those after it. */
  lemma FlattenSplit<X>(window: seq<seq<X>>, i: nat)
    requires i < |window|
    ensures Flatten(window) == Flatten(window[..i]) + window[i] + Flatten(window[i + 1..])
  {
    var front := window[..i + 1];
    assert window == front + window[i + 1..];
    FlattenAppend(front, window[i + 1..]);
    assert front[..|front| - 1] == window[..i];
    assert Flatten(front) == Flatten(window[..i]) + window[i];
  }

  /** `_compute_empirical_distribution`: the flattened window, cut to its
      first `sample_size` items. */
  function Empirical<X>(window: seq<seq<X>>, sampleSize: int): (sample: seq<X>)
    ensures 0 <= sampleSize ==> sample == Flatten(window)[..if sampleSize < |Flatten(window)| then sampleSize else |Flatten(window)|]
  {
    PySlice(Flatten(window), 0, sampleSize)
  }

  /** The decision of `has_converged` once `history` holds the new entry:
      not while there are fewer than `window_size` entries, nor while the
      older window is short; otherwise whether the distance between the two
      windows' empirical distributions is strictly below `tolerance`. */
  function Converged<X>(distance: (seq<X>, seq<X>) -> real, tolerance: real, windowSize: int, sampleSize: int,
                        history: seq<seq<X>>): bool
  {
    if |history| < windowSize then false
    else
      var recent := PySlice(history, -windowSize, |history|);
      var older := PySlice(history, -2 * windowSize, -windowSize);
      if |older| < windowSize then false
      else distance(Empirical(recent, sampleSize), Empirical(older, sampleSize)) < tolerance
  }

  /** With a positive window, nothing converges before two full windows are
      recorded. */
  lemma ConvergedNeedsTwoWindows<X>(distance: (seq<X>, seq<X>) -> real, tolerance: real, windowSize: int,
                                    sampleSize: int, history: seq<seq<X>>)
    requires 0 < windowSize && |history| < 2 * windowSize
    ensures !Converged(distance, tolerance, windowSize, sampleSize, history)
  {
    if |history| >= windowSize {
      var older := PySlice(history, -2 * windowSize, -windowSize);
      assert SliceBound(-2 * windowSize, |history|) == 0;
      assert |older| == |history| - windowSize;
    }
  }

  /** With a positive window and two full windows recorded, `recent` is the
      last `window_size` entries and `older` the `window_size` entries just
      before them: adjacent, disjoint, and together the last `2 *
      window_size` entries. The decision is the strict distance test. */
  lemma ConvergedWindows<X>(distance: (seq<X>, seq<X>) -> real, tolerance: real, windowSize: int,
                            sampleSize: int, history: seq<seq<X>>)
    requires 0 < windowSize && 2 * windowSize <= |history|
    ensures var n := |history|;
      var recent := PySlice(history, -windowSize, n);
      var older := PySlice(history, -2 * windowSize, -windowSize);
      && recent == history[n - windowSize..]
      && older == history[n - 2 * windowSize..n - windowSize]
      && older + recent == history[n - 2 * windowSize..]
      && (Converged(distance, tolerance, windowSize, sampleSize, history) <==>
          distance(Empirical(recent, sampleSize), Empirical(older, sampleSize)) < tolerance)
  {
    var n := |history|;
    assert history[n - 2 * windowSize..n - windowSize] + history[n - windowSize..] == history[n - 2 * windowSize..];
  }

  /** `ConvergenceCriterion`. `metric` is stored and never used; the
      distance between two empirical distributions stands for the
      Wasserstein distance the source computes. */
  class ConvergenceCriterion<X> {
    const metric: (X, X) -> real
    const distance: (seq<X>, seq<X>) -> real
    const tolerance: real
    const windowSize: int
    const sampleSize: int
    var history: seq<seq<X>>

    /** `__init__`: the configuration, and nothing recorded. */
    constructor(metric: (X, X) -> real, distance: (seq<X>, seq<X>) -> real, tolerance: real,
                windowSize: int, sampleSize: int)
      ensures this.metric == metric && this.distance == distance && this.tolerance == tolerance
      ensures this.windowSize == windowSize && this.sampleSize == sampleSize
      ensures history == []
    {
      this.metric := metric;
      this.distance := distance;
      this.tolerance := tolerance;
      this.windowSize := windowSize;
      this.sampleSize := sampleSize;
      history := [];
    }

    /** `has_converged`: records `states` as one more entry, then decides. */
    method HasConverged(states: seq<X>) returns (converged: bool)
      modifies this
      ensures history == old(history) + [states]
      ensures converged == Converged(distance, tolerance, windowSize, sampleSize, history)
    {
      history := history + [states];
      if |history| < windowSize {
        return false;
      }
      var recent := PySlice(history, -windowSize, |history|);
      var older := PySlice(history, -2 * windowSize, -windowSize);
      if |older| < windowSize {
        return false;
      }
      var recentDistribution := Empirical(recent, sampleSize);
      var olderDistribution := Empirical(older, sampleSize);
      var d := distance(recentDistribution, olderDistribution);
      return d < tolerance;
    }
  }
}
