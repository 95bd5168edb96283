/** The Python ensemble driver of `src/indecision/simulation/__init__.py`:
    `simulate` keeps, for every particle, its current state, its next state
    and the time of the transition between them in three parallel lists, and
    steps an integer clock; `simulate_until` and `simulate_until_converge`
    consume its snapshots. The generators are modelled by the state kept
    between two snapshots (`Ensemble`) and by methods that consume a finite
    prefix of the snapshots. */
module PySimulation {
  import opened Wrappers
  import opened Particle
  import opened PyParticle
  import opened PyConvergence
  import opened PyLists

  /** The three parallel lists of `simulate`. */
  datatype Lists<S> = Lists(states: seq<S>, nextStates: seq<S>, transitionTimes: seq<real>)

  /** The lists have one entry per particle, and every state is admitted. */
  predicate Parallel<S>(inv: S -> bool, l: Lists<S>)
  {
    && |l.states| == |l.nextStates| == |l.transitionTimes|
    && (forall i :: 0 <= i < |l.states| ==> inv(l.states[i]))
    && (forall i :: 0 <= i < |l.nextStates| ==> inv(l.nextStates[i]))
  }

  /** Particle `i` is due at integer time `t` when its transition time is
      exactly `t`. */
  predicate Due<S>(l: Lists<S>, t: nat, i: nat)
    requires i < |l.transitionTimes|
  {
    t as real == l.transitionTimes[i]
  }

  /** What one due particle `i` undergoes: its current and next states are
      swapped, and then the state now current is advanced in place, its
      waiting time added to the transition time. If the advance raises, the
      swap has happened and the time is unchanged. */
  function DueStep<S(!new)>(specification: S --> seq<PyEvent<S>>, inv: S -> bool, l: Lists<S>, i: nat, d: Draw)
    : (r: (Lists<S>, Option<Error>))
    requires Closed(specification, inv) && Parallel(inv, l) && i < |l.states|
    ensures Parallel(inv, r.0)
  {
    var current := l.nextStates[i];
    var swapped := Lists(l.states[i := current], l.nextStates[i := l.states[i]], l.transitionTimes);
    match Applied(specification(current), current, d)
    case Err(e) => (swapped, Some(e))
    case Ok(step) =>
      AppliedKeeps(specification, inv, current, d);
      (swapped.(states := swapped.states[i := step.0],
                transitionTimes := l.transitionTimes[i := l.transitionTimes[i] + step.1]), None)
  }

  /** One pass of the inner loop at integer time `t` over the first `n`
      particles, `draws[i]` serving particle `i`; it stops at the first
      error. */
  function TickUpTo<S(!new)>(specification: S --> seq<PyEvent<S>>, inv: S -> bool, l: Lists<S>, t: nat,
                              draws: seq<Draw>, n: nat)
    : (r: (Lists<S>, Option<Error>))
    requires Closed(specification, inv) && Parallel(inv, l)
    requires n <= |l.states| && |draws| == |l.states|
    ensures Parallel(inv, r.0) && |r.0.states| == |l.states|
  {
    if n == 0 then (l, None)
    else
      var (prev, error) := TickUpTo(specification, inv, l, t, draws, n - 1);
      if error.Some? then (prev, error)
      else if !Due(prev, t, n - 1) then (prev, None)
      else DueStep(specification, inv, prev, n - 1, draws[n - 1])
  }

  /** When no transition time is exactly the integer `t`, the pass changes
      nothing and raises nothing: with waiting times that are never whole
      numbers, no particle is ever due and every snapshot repeats the first. */
  lemma {:induction false} TickIdleWhenNoneDue<S(!new)>(
    specification: S --> seq<PyEvent<S>>, inv: S -> bool, l: Lists<S>, t: nat, draws: seq<Draw>, n: nat)
    requires Closed(specification, inv) && Parallel(inv, l)
    requires n <= |l.states| && |draws| == |l.states|
    requires forall i :: 0 <= i < |l.transitionTimes| ==> l.transitionTimes[i] != t as real
    ensures TickUpTo(specification, inv, l, t, draws, n) == (l, None)
  {
    if n > 0 {
      TickIdleWhenNoneDue(specification, inv, l, t, draws, n - 1);
    }
  }

  /** A pass changes only particles that are due at `t`: every other index
      keeps its three entries, and indices not yet reached are untouched. */
  lemma TickChangesOnlyDue<S(!new)>(
    specification: S --> seq<PyEvent<S>>, inv: S -> bool, l: Lists<S>, t: nat, draws: seq<Draw>, n: nat)
    requires Closed(specification, inv) && Parallel(inv, l)
    requires n <= |l.states| && |draws| == |l.states|
    ensures var r := TickUpTo(specification, inv, l, t, draws, n).0;
      forall i :: 0 <= i < |l.states| && (n <= i || !Due(l, t, i)) ==>
        r.states[i] == l.states[i] && r.nextStates[i] == l.nextStates[i] && r.transitionTimes[i] == l.transitionTimes[i]
  {
    forall i | 0 <= i < |l.states| && (n <= i || !Due(l, t, i)) {
      TickKeeps(specification, inv, l, t, draws, n, i);
    }
  }

  /** `TickChangesOnlyDue` for one particle `i`. */
  lemma {:induction false} TickKeeps<S(!new)>(
    specification: S --> seq<PyEvent<S>>, inv: S -> bool, l: Lists<S>, t: nat, draws: seq<Draw>, n: nat, i: nat)
    requires Closed(specification, inv) && Parallel(inv, l)
    requires n <= |l.states| && |draws| == |l.states|
    requires i < |l.states| && (n <= i || !Due(l, t, i))
    ensures var r := TickUpTo(specification, inv, l, t, draws, n).0;
      r.states[i] == l.states[i] && r.nextStates[i] == l.nextStates[i] && r.transitionTimes[i] == l.transitionTimes[i]
  {
    if n > 0 {
      TickKeeps(specification, inv, l, t, draws, n - 1, i);
      var prev := TickUpTo(specification, inv, l, t, draws, n - 1).0;
      if i == n - 1 {
        assert !Due(prev, t, i);
      }
    }
  }

  /** A pass without error leaves every due particle with the old next
      state advanced as its current state, its old current state as its next
      state, and its waiting time added: the state that was pending is never
      current itself. */
  lemma {:induction false} TickAdvancesDue<S(!new)>(
    specification: S --> seq<PyEvent<S>>, inv: S -> bool, l: Lists<S>, t: nat, draws: seq<Draw>, n: nat)
    requires Closed(specification, inv) && Parallel(inv, l)
    requires n <= |l.states| && |draws| == |l.states|
    requires TickUpTo(specification, inv, l, t, draws, n).1.None?
    ensures var r := TickUpTo(specification, inv, l, t, draws, n).0;
      forall i :: 0 <= i < n && Due(l, t, i) ==>
        var step := Applied(specification(l.nextStates[i]), l.nextStates[i], draws[i]);
        && step.Ok?
        && r.states[i] == step.value.0
        && r.nextStates[i] == l.states[i]
        && r.transitionTimes[i] == l.transitionTimes[i] + step.value.1
  {
    if n > 0 {
      TickAdvancesDue(specification, inv, l, t, draws, n - 1);
      TickChangesOnlyDue(specification, inv, l, t, draws, n - 1);
      TickLast(specification, inv, l, t, draws, n);
      var prev := TickUpTo(specification, inv, l, t, draws, n - 1).0;
      var r := TickUpTo(specification, inv, l, t, draws, n).0;
      forall i | 0 <= i < n && Due(l, t, i)
        ensures var step := Applied(specification(l.nextStates[i]), l.nextStates[i], draws[i]);
          && step.Ok?
          && r.states[i] == step.value.0
          && r.nextStates[i] == l.states[i]
          && r.transitionTimes[i] == l.transitionTimes[i] + step.value.1
      {
        if i == n - 1 {
          assert prev.states[i] == l.states[i] && prev.nextStates[i] == l.nextStates[i];
          assert prev.transitionTimes[i] == l.transitionTimes[i];
          assert Due(prev, t, i);
        }
      }
    }
  }

  /** The last particle of a pass is the only one it can change beyond the
      shorter pass, and when due it is advanced as `DueStep` says. */
  lemma TickLast<S(!new)>(
    specification: S --> seq<PyEvent<S>>, inv: S -> bool, l: Lists<S>, t: nat, draws: seq<Draw>, n: nat)
    requires Closed(specification, inv) && Parallel(inv, l)
    requires 0 < n <= |l.states| && |draws| == |l.states|
    ensures var prev := TickUpTo(specification, inv, l, t, draws, n - 1);
      var r := TickUpTo(specification, inv, l, t, draws, n);
      && (r.1.None? ==> prev.1.None?)
      && (forall i :: 0 <= i < |l.states| && i != n - 1 ==>
            && r.0.states[i] == prev.0.states[i]
            && r.0.nextStates[i] == prev.0.nextStates[i]
            && r.0.transitionTimes[i] == prev.0.transitionTimes[i])
      && (!Due(prev.0, t, n - 1) ==> r.0 == prev.0)
      && (r.1.None? && Due(prev.0, t, n - 1) ==>
            var current := prev.0.nextStates[n - 1];
            var step := Applied(specification(current), current, draws[n - 1]);
            && step.Ok?
            && r.0.states[n - 1] == step.value.0
            && r.0.nextStates[n - 1] == prev.0.states[n - 1]
            && r.0.transitionTimes[n - 1] == prev.0.transitionTimes[n - 1] + step.value.1)
  {
  }

  /** A pass over `n + 1` particles that has not failed on the first `n`
      visits particle `n` as the loop body does. */
  lemma TickNext<S(!new)>(
    specification: S --> seq<PyEvent<S>>, inv: S -> bool, l: Lists<S>, t: nat, draws: seq<Draw>, n: nat)
    requires Closed(specification, inv) && Parallel(inv, l)
    requires n < |l.states| && |draws| == |l.states|
    requires TickUpTo(specification, inv, l, t, draws, n).1.None?
    ensures var prev := TickUpTo(specification, inv, l, t, draws, n).0;
      TickUpTo(specification, inv, l, t, draws, n + 1)
        == if Due(prev, t, n) then DueStep(specification, inv, prev, n, draws[n]) else (prev, None)
  {
  }

  /** The rates offered in every admitted state are non-negative. */
  ghost predicate RatesNonNegative<S(!new)>(specification: S --> seq<PyEvent<S>>, inv: S -> bool)
    requires Closed(specification, inv)
  {
    forall s :: inv(s) ==> NonNegative(Offered(specification(s), s))
  }

  /** With non-negative rates a successful advance takes a positive time. */
  lemma AppliedTakesTime<S>(events: seq<PyEvent<S>>, s: S, d: Draw)
    requires NonNegative(Offered(events, s))
    requires Applied(events, s, d).Ok?
    ensures Applied(events, s, d).value.1 > 0.0
  {
    AppliedAgreesWithAdvanced(events, s, d);
  }

  /** With non-negative rates the transition times never decrease, and a
      due particle's time strictly increases. */
  lemma TickTimesIncrease<S(!new)>(
    specification: S --> seq<PyEvent<S>>, inv: S -> bool, l: Lists<S>, t: nat, draws: seq<Draw>)
    requires Closed(specification, inv) && RatesNonNegative(specification, inv) && Parallel(inv, l)
    requires |draws| == |l.states|
    requires TickUpTo(specification, inv, l, t, draws, |l.states|).1.None?
    ensures var r := TickUpTo(specification, inv, l, t, draws, |l.states|).0;
      forall i :: 0 <= i < |l.states| ==>
        l.transitionTimes[i] <= r.transitionTimes[i]
        && (Due(l, t, i) ==> l.transitionTimes[i] < r.transitionTimes[i])
  {
    var n := |l.states|;
    TickChangesOnlyDue(specification, inv, l, t, draws, n);
    TickAdvancesDue(specification, inv, l, t, draws, n);
    forall i | 0 <= i < n && Due(l, t, i)
      ensures Applied(specification(l.nextStates[i]), l.nextStates[i], draws[i]).value.1 > 0.0
    {
      AppliedTakesTime(specification(l.nextStates[i]), l.nextStates[i], draws[i]);
    }
  }

  /** After an error the rest of the pass changes nothing. */
  lemma {:induction false} TickStops<S(!new)>(
    specification: S --> seq<PyEvent<S>>, inv: S -> bool, l: Lists<S>, t: nat, draws: seq<Draw>, n: nat, m: nat)
    requires Closed(specification, inv) && Parallel(inv, l)
    requires n <= m <= |l.states| && |draws| == |l.states|
    requires TickUpTo(specification, inv, l, t, draws, n).1.Some?
    ensures TickUpTo(specification, inv, l, t, draws, m) == TickUpTo(specification, inv, l, t, draws, n)
    decreases m
  {
    if m > n {
      TickStops(specification, inv, l, t, draws, n, m - 1);
    }
  }

  /** The state `simulate` keeps between two snapshots. */
  class Ensemble<S(!new)> {
    const specification: S --> seq<PyEvent<S>>
    const inv: S -> bool
    var states: seq<S>
    var nextStates: seq<S>
    var transitionTimes: seq<real>
    /** The integer time of the next pass. */
    var t: nat

    function Current(): Lists<S>
      reads this
    {
      Lists(states, nextStates, transitionTimes)
    }

    ghost predicate Valid()
      reads this
    {
      Closed(specification, inv) && Parallel(inv, Current())
    }

    constructor(specification: S --> seq<PyEvent<S>>, inv: S -> bool, l: Lists<S>)
      requires Closed(specification, inv) && Parallel(inv, l)
      ensures Valid() && Current() == l && t == 0
      ensures this.specification == specification && this.inv == inv
    {
      this.specification := specification;
      this.inv := inv;
      states := l.states;
      nextStates := l.nextStates;
      transitionTimes := l.transitionTimes;
      t := 0;
    }

    /** One iteration of the outer loop: the pass at time `t`, after which
        `states` is the next snapshot and the clock moves on. An error ends
        the generator. */
    method Tick(draws: seq<Draw>) returns (res: Option<Error>)
      requires Valid() && |draws| == |states|
      modifies this
      ensures Valid() && |states| == old(|states|)
      ensures (Current(), res) == TickUpTo(specification, inv, old(Current()), old(t), draws, old(|states|))
      ensures t == if res.None? then old(t) + 1 else old(t)
    {
      ghost var before := Current();
      res := None;
      for i := 0 to |states|
        invariant Valid() && |states| == |before.states| && t == old(t)
        invariant res.None? && (Current(), res) == TickUpTo(specification, inv, before, t, draws, i)
      {
        TickNext(specification, inv, before, t, draws, i);
        res := Visit(i, draws[i]);
        if res.Some? {
          TickStops(specification, inv, before, t, draws, i + 1, |states|);
          return;
        }
      }
      t := t + 1;
    }

    /** The body of the inner loop for particle `i`: if it is due, swap its
        current and next states and advance the new current one in place. */
    method Visit(i: nat, d: Draw) returns (res: Option<Error>)
      requires Valid() && i < |states|
      modifies this
      ensures Valid() && t == old(t)
      ensures (Current(), res) == if Due(old(Current()), t, i) then DueStep(specification, inv, old(Current()), i, d)
                                  else (old(Current()), None)
    {
      ghost var prev := Current();
      res := None;
      if t as real == transitionTimes[i] {
        var state, nextState := states[i], nextStates[i];
        states, nextStates := states[i := nextState], nextStates[i := state];
        var stepped := ParticleAdvanceState(specification(nextState), nextState, d);
        match stepped
        case Err(e) =>
          res := Some(e);
        case Ok(step) =>
          states := states[i := step.0];
          transitionTimes := transitionTimes[i := transitionTimes[i] + step.1];
      }
      assert (Current(), res) == if Due(prev, t, i) then DueStep(specification, inv, prev, i, d) else (prev, None);
    }
  }

  /** The set-up of `simulate`: `n` default states, and as next states their
      copies advanced once each, the waiting times as transition times. */
  method Simulate<S(!new)>(specification: S --> seq<PyEvent<S>>, inv: S -> bool, initial: S, n: nat,
                           draws: seq<Draw>)
    returns (res: Result<Ensemble<S>, Error>)
    requires Closed(specification, inv) && inv(initial) && |draws| == n
    ensures res.Err? <==> n > 0 && Applied(specification(initial), initial, draws[0]).Err?
    ensures res.Ok? ==> var e := res.value;
      && fresh(e) && e.Valid() && e.t == 0
      && e.specification == specification && e.inv == inv
      && e.states == seq(n, _ => initial)
      && |e.nextStates| == n
      && forall i :: 0 <= i < n ==>
           Applied(specification(initial), initial, draws[i]) == Ok((e.nextStates[i], e.transitionTimes[i]))
  {
    var states := seq(n, _ => initial);
    var nextStates: seq<S> := [];
    var transitionTimes: seq<real> := [];
    for i := 0 to n
      invariant |nextStates| == |transitionTimes| == i
      invariant forall j :: 0 <= j < i ==>
        Applied(specification(initial), initial, draws[j]) == Ok((nextStates[j], transitionTimes[j]))
      invariant forall j :: 0 <= j < i ==> inv(nextStates[j])
    {
      var stepped := ParticleAdvanceState(specification(initial), initial, draws[i]);
      match stepped
      case Err(e) =>
        return Err(e);
      case Ok(step) =>
        AppliedKeeps(specification, inv, initial, draws[i]);
        nextStates := nextStates + [step.0];
        transitionTimes := transitionTimes + [step.1];
    }
    var ensemble := new Ensemble(specification, inv, Lists(states, nextStates, transitionTimes));
    return Ok(ensemble);
  }

  /** `simulate_until`: its counter `t` is never incremented, so it yields as
      many snapshots as its consumer asks for (`demand`) when `steps > 0`,
      and none otherwise. */
  method SimulateUntil(steps: int, demand: nat) returns (yielded: nat)
    ensures yielded == if 0 < steps then demand else 0
  {
    var t := 0;
    yielded := 0;
    while t < steps && yielded < demand
      invariant t == 0 && yielded <= demand
      invariant steps <= 0 ==> yielded == 0
      decreases demand - yielded
    {
      yielded := yielded + 1;
    }
  }

  /** The histories `has_converged` is shown: before the loop `h`, then one
      entry per snapshot consumed, each the list of all snapshots so far. */
  function Shown<X>(h: seq<seq<X>>, snapshots: seq<X>, k: nat): (r: seq<seq<X>>)
    requires k <= |snapshots|
    ensures |r| == |h| + k
    ensures r[..|h|] == h
    ensures forall j :: |h| <= j < |r| ==> r[j] == snapshots[..j - |h| + 1]
  {
    if k == 0 then h else Shown(h, snapshots, k - 1) + [snapshots[..k]]
  }

  /** From a fresh criterion, the two windows compared at the `k`-th check
      are records of different checks: entry `i` of the older window holds
      the first `k - 2w + i + 1` snapshots and entry `i` of the recent one
      `w` more, so no entry of one window equals its partner in the other. */
  lemma ShownWindowsDiffer<X>(snapshots: seq<X>, windowSize: int, k: nat)
    requires 0 < windowSize && 2 * windowSize <= k <= |snapshots|
    ensures var history := Shown([], snapshots, k);
      var recent := PySlice(history, -windowSize, k);
      var older := PySlice(history, -2 * windowSize, -windowSize);
      && |recent| == |older| == windowSize
      && forall i :: 0 <= i < windowSize ==>
           && older[i] == snapshots[..k - 2 * windowSize + i + 1]
           && recent[i] == snapshots[..k - windowSize + i + 1]
           && older[i] != recent[i]
  {
    var history := Shown([], snapshots, k);
    ConvergedWindows((a: seq<X>, b: seq<X>) => 0.0, 0.0, windowSize, 0, history);
    var recent := PySlice(history, -windowSize, k);
    var older := PySlice(history, -2 * windowSize, -windowSize);
    forall i | 0 <= i < windowSize
      ensures older[i] == snapshots[..k - 2 * windowSize + i + 1]
      ensures recent[i] == snapshots[..k - windowSize + i + 1]
      ensures older[i] != recent[i]
    {
      assert older[i] == history[k - 2 * windowSize + i];
      assert recent[i] == history[k - windowSize + i];
      assert |older[i]| < |recent[i]|;
    }
  }

  /** The histories `has_converged` is shown as the source writes it: the
      running list `recent_states` is a single list object and every call
      appends that same object to the criterion's history, so at the `k`-th
      check every entry recorded in this run is that list as it is then,
      holding all `k` snapshots. */
  function ShownAliased<X>(h: seq<seq<X>>, snapshots: seq<X>, k: nat): (r: seq<seq<X>>)
    requires k <= |snapshots|
    ensures |r| == |h| + k
    ensures r[..|h|] == h
    ensures forall j :: |h| <= j < |r| ==> r[j] == snapshots[..k]
  {
    h + seq(k, _ => snapshots[..k])
  }

  /** With the aliased history the two windows are equal, so the check
      compares a distribution with itself: two different snapshots, a window
      of one and a distance that is zero only between equal samples already
      converge at the second check, where the copied records do not. */
  lemma AliasedConvergesEarly()
    ensures var distance := (a: seq<int>, b: seq<int>) => if a == b then 0.0 else 2.0;
      && Converged(distance, 1.0, 1, 2, ShownAliased([], [0, 1], 2))
      && !Converged(distance, 1.0, 1, 2, Shown([], [0, 1], 2))
  {
    var snapshots := [0, 1];
    var aliased := ShownAliased([], snapshots, 2);
    assert snapshots[..2] == [0, 1];
    assert aliased[0] == aliased[1] == [0, 1];
    assert aliased == [[0, 1], [0, 1]];
    assert PySlice(aliased, -1, 2) == [[0, 1]];
    assert PySlice(aliased, -2, -1) == [[0, 1]];
    var copied := Shown([], snapshots, 2);
    assert snapshots[..1] == [0];
    assert copied[0] == [0] && copied[1] == [0, 1];
    assert copied == [[0], [0, 1]];
    assert PySlice(copied, -1, 2) == [[0, 1]];
    assert PySlice(copied, -2, -1) == [[0]];
    assert Flatten([[0, 1]]) == [0, 1] by {
      assert [[0, 1]][..0] == [];
    }
    assert Flatten([[0]]) == [0] by {
      assert [[0]][..0] == [];
    }
  }

  /** `simulate_until_converge` over the snapshots the generator has
      produced, with each check shown the records as they were when made
      (see `ShownAliased` for what the source shows instead): each snapshot
      is appended to the running list and shown to the criterion; the loop
      stops, without yielding it, at the first snapshot on which the
      criterion reports convergence. */
  method SimulateUntilConverge<X>(criterion: ConvergenceCriterion<X>, snapshots: seq<X>)
    returns (yielded: seq<X>)
    modifies criterion
    ensures |yielded| <= |snapshots| && yielded == snapshots[..|yielded|]
    ensures var h := old(criterion.history);
      var c := criterion;
      && (forall j :: 1 <= j <= |yielded| ==>
            !Converged(c.distance, c.tolerance, c.windowSize, c.sampleSize, Shown(h, snapshots, j)))
      && (|yielded| < |snapshots| ==>
            && c.history == Shown(h, snapshots, |yielded| + 1)
            && Converged(c.distance, c.tolerance, c.windowSize, c.sampleSize, c.history))
      && (|yielded| == |snapshots| ==> c.history == Shown(h, snapshots, |snapshots|))
  {
    ghost var h := criterion.history;
    var recentStates: seq<X> := [];
    yielded := [];
    for i := 0 to |snapshots|
      invariant recentStates == yielded == snapshots[..i]
      invariant criterion.history == Shown(h, snapshots, i)
      invariant forall j :: 1 <= j <= i ==>
        !Converged(criterion.distance, criterion.tolerance, criterion.windowSize, criterion.sampleSize,
                   Shown(h, snapshots, j))
    {
      recentStates := recentStates + [snapshots[i]];
      assert recentStates == snapshots[..i + 1];
      var converged := criterion.HasConverged(recentStates);
      if converged {
        return;
      }
      yielded := yielded + [snapshots[i]];
    }
  }
}
