/** The ensemble of `rust/src/simulation/many.rs`: many independent
    single-particle timelines kept on the same clock, sampled at evenly
    spaced times, and summarised by the attached fraction theta. */
module ManySimulation {
  import opened Wrappers
  import opened Particle
  import opened SingleSimulation

  /** The first history entry is at time zero, or, with no history yet, the
      pending transition is: true of a fresh timeline and kept by every call. */
  predicate StartsAtZero<S>(tl: Timeline<S>)
  {
    if tl.history == [] then tl.next.time == 0.0 else tl.history[0].time == 0.0
  }

  /** The timeline has been advanced to a clock `>= 0` that lies before the
      pending transition. */
  predicate Started<S>(tl: Timeline<S>)
  {
    tl.history != [] && tl.history[0].time == 0.0 && 0.0 <= tl.time < tl.next.time
  }

  /** `advance_until` keeps a timeline starting at zero, and a successful call
      with `t >= 0` leaves it started. */
  lemma RunUntilStarts<S(!new)>(events: S --> seq<Event<S>>, inv: S -> bool, tl: Timeline<S>, t: real)
    requires WellFormed(events, inv) && inv(tl.next.target)
    requires StartsAtZero(tl)
    ensures StartsAtZero(RunUntil(events, inv, tl, t).after)
    ensures RunUntil(events, inv, tl, t).result.Ok? && 0.0 <= t ==> Started(RunUntil(events, inv, tl, t).after)
  {
    RunUntilAppends(events, inv, tl, t);
    var after := RunUntil(events, inv, tl, t).after;
    if tl.history != [] {
      assert after.history[..|tl.history|] == tl.history;
      assert after.history[0] == tl.history[0];
    }
    if RunUntil(events, inv, tl, t).result.Ok? {
      RunUntilSucceeds(events, inv, tl, t);
    }
  }

  /** On a started timeline the state is known at every time from zero up to
      the clock. */
  lemma StartedLookup<S>(tl: Timeline<S>, x: real)
    requires Started(tl) && 0.0 <= x <= tl.time
    ensures LastTransitionAt(tl.history, tl.next, x).Some?
  {
    LookupWithinRange(tl.history, tl.next, x);
  }

  /** `states_at_time` over the first `n` timelines: `None` as soon as one
      of them has no state at `x`, otherwise their states in order. */
  function StatesAtPrefix<S>(tls: seq<Timeline<S>>, x: real, n: nat): (r: Option<seq<S>>)
    requires n <= |tls|
    ensures r.None? <==> exists i :: 0 <= i < n && LastTransitionAt(tls[i].history, tls[i].next, x).None?
    ensures r.Some? ==> |r.value| == n && forall i :: 0 <= i < n ==>
      r.value[i] == LastTransitionAt(tls[i].history, tls[i].next, x).value.target
  {
    if n == 0 then Some([])
    else
      match StatesAtPrefix(tls, x, n - 1)
      case None => None
      case Some(states) =>
        match LastTransitionAt(tls[n - 1].history, tls[n - 1].next, x)
        case None => None
        case Some(transition) => Some(states + [transition.target])
  }

  /** `states_at_time`: the state of every timeline at `x`, in order, or
      `None` if any of them has none. */
  function StatesAt<S>(tls: seq<Timeline<S>>, x: real): (r: Option<seq<S>>)
  {
    StatesAtPrefix(tls, x, |tls|)
  }

  /** How many of `states` count as attached. */
  function CountAttached<S>(states: seq<S>, isAttached: S -> bool): (c: nat)
    ensures c <= |states|
    ensures c == 0 <==> forall i :: 0 <= i < |states| ==> !isAttached(states[i])
  {
    if states == [] then 0
    else CountAttached(states[..|states| - 1], isAttached) + (if isAttached(states[|states| - 1]) then 1 else 0)
  }

  /** The attached fraction theta of a non-empty collection of states. */
  function Theta<S>(states: seq<S>, isAttached: S -> bool): (theta: real)
    requires states != []
    ensures 0.0 <= theta <= 1.0
    ensures theta * |states| as real == CountAttached(states, isAttached) as real
  {
    FractionBounds(CountAttached(states, isAttached) as real, |states| as real);
    CountAttached(states, isAttached) as real / |states| as real
  }

  /** A count out of `n` gives a fraction in `[0, 1]`. */
  lemma FractionBounds(c: real, n: real)
    requires 0.0 <= c <= n && 0.0 < n
    ensures 0.0 <= c / n <= 1.0 && c / n * n == c
  {
    assert c / n <= n / n == 1.0;
  }

  /** Sample time `i` of `k`: `i * (time / k)`. */
  function SampleTime(time: real, k: nat, i: nat): real
    requires k > 0
  {
    i as real * (time / k as real)
  }

  /** Consecutive sample times are one step `time / k` apart. */
  lemma SampleSpacing(time: real, k: nat, i: nat)
    requires 0 < i < k
    ensures SampleTime(time, k, i) - SampleTime(time, k, i - 1) == time / k as real
  {
    var step := time / k as real;
    assert i as real * step == (i - 1) as real * step + step;
  }

  /** Sample times lie between zero and `time`. */
  lemma SampleBounds(time: real, k: nat, i: nat)
    requires 0.0 <= time && i < k
    ensures 0.0 <= SampleTime(time, k, i) <= time
  {
    var step := time / k as real;
    assert step * k as real == time;
    assert 0.0 <= step;
    assert i as real * step <= k as real * step;
  }

  /** The `k` evenly spaced sample times `i * (time / k)`, `i` in `0..k`. */
  function SampleTimes(time: real, k: nat): (ts: seq<real>)
    ensures |ts| == k
    ensures k > 0 ==> ts[0] == 0.0
    ensures forall i :: 0 < i < k ==> ts[i] - ts[i - 1] == time / k as real
    ensures 0.0 <= time ==> forall i :: 0 <= i < k ==> 0.0 <= ts[i] <= time
  {
    if k == 0 then []
    else
      var ts := seq(k, i requires 0 <= i < k => SampleTime(time, k, i));
      assert forall i :: 0 < i < k ==> ts[i] - ts[i - 1] == time / k as real by {
        forall i | 0 < i < k
          ensures ts[i] - ts[i - 1] == time / k as real
        {
          SampleSpacing(time, k, i);
        }
      }
      assert 0.0 <= time ==> forall i :: 0 <= i < k ==> 0.0 <= ts[i] <= time by {
        if 0.0 <= time {
          forall i | 0 <= i < k
            ensures 0.0 <= ts[i] <= time
          {
            SampleBounds(time, k, i);
          }
        }
      }
      ts
  }

  /** All timelines started and on the same clock `time`. */
  predicate AllStartedAt<S>(tls: seq<Timeline<S>>, time: real)
  {
    forall i :: 0 <= i < |tls| ==> Started(tls[i]) && tls[i].time == time
  }

  /** Then the states are known at every time from zero to the clock. */
  lemma AllStartedLookup<S>(tls: seq<Timeline<S>>, time: real, x: real)
    requires AllStartedAt(tls, time) && 0.0 <= x <= time
    ensures StatesAt(tls, x).Some?
  {
    forall i | 0 <= i < |tls|
      ensures LastTransitionAt(tls[i].history, tls[i].next, x).Some?
    {
      StartedLookup(tls[i], x);
    }
  }

  /** Once all timelines are started on clock `time`, every sample time has
      its states, so `sample` never panics. */
  lemma SampleDefined<S>(tls: seq<Timeline<S>>, time: real, k: nat)
    requires AllStartedAt(tls, time) && 0.0 <= time
    ensures forall x :: x in SampleTimes(time, k) ==> StatesAt(tls, x).Some?
  {
    forall x | x in SampleTimes(time, k)
      ensures StatesAt(tls, x).Some?
    {
      AllStartedLookup(tls, time, x);
    }
  }

  /** `sample(k)`: the states of every timeline at each sample time. The
      source panics if one is missing; see `AllStartedLookup` for when none
      is. */
  function Sample<S>(tls: seq<Timeline<S>>, time: real, k: nat): (r: seq<seq<S>>)
    requires forall x :: x in SampleTimes(time, k) ==> StatesAt(tls, x).Some?
    ensures |r| == k
    ensures forall i :: 0 <= i < k ==> r[i] == StatesAt(tls, SampleTimes(time, k)[i]).value
    ensures forall i :: 0 <= i < k ==> |r[i]| == |tls|
  {
    var ts := SampleTimes(time, k);
    seq(k, i requires 0 <= i < k => StatesAt(tls, ts[i]).value)
  }

  /** `thetas(k)`: the attached fraction of each sample. */
  function Thetas<S>(tls: seq<Timeline<S>>, time: real, k: nat, isAttached: S -> bool): (r: seq<real>)
    requires tls != []
    requires forall x :: x in SampleTimes(time, k) ==> StatesAt(tls, x).Some?
    ensures |r| == k
    ensures forall i :: 0 <= i < k ==> 0.0 <= r[i] <= 1.0
    ensures forall i :: 0 <= i < k ==> r[i] == Theta(Sample(tls, time, k)[i], isAttached)
  {
    var samples := Sample(tls, time, k);
    seq(k, i requires 0 <= i < k => Theta(samples[i], isAttached))
  }

  /** Every pending target satisfies the particle's invariant. */
  predicate AllKeep<S>(inv: S -> bool, tls: seq<Timeline<S>>)
  {
    forall i :: 0 <= i < |tls| ==> inv(tls[i].next.target)
  }

  /** `advance_until(t)` applied to the first `n` timelines in turn,
      stopping at the first failure. */
  function RunAll<S(!new)>(events: S --> seq<Event<S>>, inv: S -> bool, tls: seq<Timeline<S>>, t: real, n: nat)
    : (r: (seq<Timeline<S>>, Result<(), Failure>))
    requires WellFormed(events, inv) && AllKeep(inv, tls) && n <= |tls|
    ensures |r.0| == |tls| && AllKeep(inv, r.0)
  {
    if n == 0 then (tls, Ok(()))
    else
      var (prefix, result) := RunAll(events, inv, tls, t, n - 1);
      if result.Err? then (prefix, result)
      else
        var o := RunUntil(events, inv, prefix[n - 1], t);
        (prefix[n - 1 := o.after], o.result)
  }

  /** A run of `n + 1` timelines that has not failed on the first `n` runs
      timeline `n` as the loop body does. */
  lemma RunAllNext<S(!new)>(
    events: S --> seq<Event<S>>, inv: S -> bool, tls: seq<Timeline<S>>, t: real, n: nat)
    requires WellFormed(events, inv) && AllKeep(inv, tls) && n < |tls|
    requires RunAll(events, inv, tls, t, n).1.Ok?
    ensures var prefix := RunAll(events, inv, tls, t, n).0;
      var o := RunUntil(events, inv, prefix[n], t);
      RunAll(events, inv, tls, t, n + 1) == (prefix[n := o.after], o.result)
  {
  }

  /** Running the first `n` timelines leaves the others untouched. */
  lemma {:induction false} RunAllUntouched<S(!new)>(
    events: S --> seq<Event<S>>, inv: S -> bool, tls: seq<Timeline<S>>, t: real, n: nat)
    requires WellFormed(events, inv) && AllKeep(inv, tls) && n <= |tls|
    ensures forall i :: n <= i < |tls| ==> RunAll(events, inv, tls, t, n).0[i] == tls[i]
  {
    if n > 0 {
      RunAllUntouched(events, inv, tls, t, n - 1);
    }
  }

  /** Running the first `n` timelines succeeds exactly when each of them
      succeeds on its own, and then each is what its own run leaves. */
  lemma RunAllOk<S(!new)>(
    events: S --> seq<Event<S>>, inv: S -> bool, tls: seq<Timeline<S>>, t: real, n: nat)
    requires WellFormed(events, inv) && AllKeep(inv, tls) && n <= |tls|
    ensures RunAll(events, inv, tls, t, n).1.Ok? <==>
      forall i :: 0 <= i < n ==> RunUntil(events, inv, tls[i], t).result.Ok?
    ensures RunAll(events, inv, tls, t, n).1.Ok? ==>
      forall i :: 0 <= i < n ==> RunAll(events, inv, tls, t, n).0[i] == RunUntil(events, inv, tls[i], t).after
  {
    if RunAll(events, inv, tls, t, n).1.Ok? {
      forall i | 0 <= i < n
        ensures RunUntil(events, inv, tls[i], t).result.Ok?
        ensures RunAll(events, inv, tls, t, n).0[i] == RunUntil(events, inv, tls[i], t).after
      {
        RunAllOkAt(events, inv, tls, t, n, i);
      }
    } else if forall i :: 0 <= i < n ==> RunUntil(events, inv, tls[i], t).result.Ok? {
      RunAllSucceeds(events, inv, tls, t, n);
    }
  }

  /** `RunAllOk` for one timeline `i` of a successful run. */
  lemma {:induction false} RunAllOkAt<S(!new)>(
    events: S --> seq<Event<S>>, inv: S -> bool, tls: seq<Timeline<S>>, t: real, n: nat, i: nat)
    requires WellFormed(events, inv) && AllKeep(inv, tls) && i < n <= |tls|
    requires RunAll(events, inv, tls, t, n).1.Ok?
    ensures RunUntil(events, inv, tls[i], t).result.Ok?
    ensures RunAll(events, inv, tls, t, n).0[i] == RunUntil(events, inv, tls[i], t).after
  {
    if i < n - 1 {
      RunAllOkAt(events, inv, tls, t, n - 1, i);
    } else {
      RunAllUntouched(events, inv, tls, t, n - 1);
      RunAllNext(events, inv, tls, t, n - 1);
    }
  }

  /** The converse of `RunAllOkAt`: when each run succeeds, so does the
      run of them all. */
  lemma {:induction false} RunAllSucceeds<S(!new)>(
    events: S --> seq<Event<S>>, inv: S -> bool, tls: seq<Timeline<S>>, t: real, n: nat)
    requires WellFormed(events, inv) && AllKeep(inv, tls) && n <= |tls|
    requires forall i :: 0 <= i < n ==> RunUntil(events, inv, tls[i], t).result.Ok?
    ensures RunAll(events, inv, tls, t, n).1.Ok?
  {
    if n > 0 {
      RunAllSucceeds(events, inv, tls, t, n - 1);
      RunAllUntouched(events, inv, tls, t, n - 1);
      RunAllNext(events, inv, tls, t, n - 1);
    }
  }

  /** A failed run failed at some timeline `k < n`: those before it
      succeeded, it holds its failed run, and those after it are untouched. */
  lemma {:induction false} RunAllErr<S(!new)>(
    events: S --> seq<Event<S>>, inv: S -> bool, tls: seq<Timeline<S>>, t: real, n: nat)
    requires WellFormed(events, inv) && AllKeep(inv, tls) && n <= |tls|
    requires RunAll(events, inv, tls, t, n).1.Err?
    ensures exists k :: 0 <= k < n && RunFailedAt(events, inv, tls, t, RunAll(events, inv, tls, t, n), k)
  {
    var r := RunAll(events, inv, tls, t, n - 1);
    var rn := RunAll(events, inv, tls, t, n);
    if r.1.Err? {
      RunAllErr(events, inv, tls, t, n - 1);
      var k :| 0 <= k < n - 1 && RunFailedAt(events, inv, tls, t, r, k);
      assert rn == r;
      assert RunFailedAt(events, inv, tls, t, rn, k);
    } else {
      RunAllOk(events, inv, tls, t, n - 1);
      RunAllUntouched(events, inv, tls, t, n - 1);
      var o := RunUntil(events, inv, tls[n - 1], t);
      assert r.0[n - 1] == tls[n - 1];
      assert rn == (r.0[n - 1 := o.after], o.result);
      assert Outcome(rn.0[n - 1], rn.1) == o;
      forall i | 0 <= i < n - 1
        ensures RunUntil(events, inv, tls[i], t).result.Ok?
        ensures rn.0[i] == RunUntil(events, inv, tls[i], t).after
      {
        assert rn.0[i] == r.0[i];
      }
      assert RunFailedAt(events, inv, tls, t, rn, n - 1);
    }
  }

  /** The outcome `r` of running the timelines failed at timeline `k`. */
  ghost predicate RunFailedAt<S(!new)>(
    events: S --> seq<Event<S>>, inv: S -> bool, tls: seq<Timeline<S>>, t: real,
    r: (seq<Timeline<S>>, Result<(), Failure>), k: nat)
    requires WellFormed(events, inv) && AllKeep(inv, tls)
  {
    && k < |tls| == |r.0|
    && Outcome(r.0[k], r.1) == RunUntil(events, inv, tls[k], t)
    && r.1.Err?
    && (forall i :: 0 <= i < k ==>
          RunUntil(events, inv, tls[i], t).result.Ok? && r.0[i] == RunUntil(events, inv, tls[i], t).after)
    && (forall i :: k < i < |tls| ==> r.0[i] == tls[i])
  }

  /** After a failure, running further timelines changes nothing. */
  lemma {:induction false} RunAllStops<S(!new)>(
    events: S --> seq<Event<S>>, inv: S -> bool, tls: seq<Timeline<S>>, t: real, n: nat, m: nat)
    requires WellFormed(events, inv) && AllKeep(inv, tls) && n <= m <= |tls|
    requires RunAll(events, inv, tls, t, n).1.Err?
    ensures RunAll(events, inv, tls, t, m) == RunAll(events, inv, tls, t, n)
    decreases m
  {
    if m > n {
      RunAllStops(events, inv, tls, t, n, m - 1);
    }
  }

  /** When every timeline succeeds, all of them end on clock `t`, and started
      if `t >= 0` and they started at zero. */
  lemma RunAllSameTime<S(!new)>(events: S --> seq<Event<S>>, inv: S -> bool, tls: seq<Timeline<S>>, t: real)
    requires WellFormed(events, inv) && AllKeep(inv, tls)
    requires forall i :: 0 <= i < |tls| ==> StartsAtZero(tls[i])
    requires RunAll(events, inv, tls, t, |tls|).1.Ok?
    ensures forall i :: 0 <= i < |tls| ==> RunAll(events, inv, tls, t, |tls|).0[i].time == t
    ensures 0.0 <= t ==> AllStartedAt(RunAll(events, inv, tls, t, |tls|).0, t)
  {
    RunAllOk(events, inv, tls, t, |tls|);
    forall i | 0 <= i < |tls|
      ensures RunAll(events, inv, tls, t, |tls|).0[i].time == t
      ensures 0.0 <= t ==> Started(RunAll(events, inv, tls, t, |tls|).0[i])
    {
      RunUntilSucceeds(events, inv, tls[i], t);
      RunUntilStarts(events, inv, tls[i], t);
    }
  }

  /** A new ensemble has no states at its own clock: every timeline is fresh,
      with an empty history and the clock at zero, so `states_at_time(time)`
      is `None` and `last_states` and `last_theta` panic. */
  lemma FreshHasNoStatesAtClock<S>(initial: S, entropies: seq<seq<Draw>>)
    requires entropies != []
    ensures var tls := seq(|entropies|, i requires 0 <= i < |entropies| => Fresh(initial, entropies[i]));
      tls[0].time == 0.0 && StatesAt(tls, tls[0].time).None?
  {
    var tls := seq(|entropies|, i requires 0 <= i < |entropies| => Fresh(initial, entropies[i]));
    LookupBeforeStart(tls[0].history, tls[0].next, 0.0);
    assert LastTransitionAt(tls[0].history, tls[0].next, tls[0].time).None?;
  }

  /** A successful `advance_until(t)` with `t < 0` leaves the clock at `t`
      and no states there either: every history is empty or starts at zero. */
  lemma NegativeClockHasNoStates<S(!new)>(events: S --> seq<Event<S>>, inv: S -> bool, tls: seq<Timeline<S>>, t: real)
    requires WellFormed(events, inv) && AllKeep(inv, tls) && tls != []
    requires forall i :: 0 <= i < |tls| ==> StartsAtZero(tls[i])
    requires RunAll(events, inv, tls, t, |tls|).1.Ok? && t < 0.0
    ensures var r := RunAll(events, inv, tls, t, |tls|).0;
      r[0].time == t && StatesAt(r, t).None?
  {
    var r := RunAll(events, inv, tls, t, |tls|).0;
    RunAllSameTime(events, inv, tls, t);
    RunAllOkAt(events, inv, tls, t, |tls|, 0);
    RunUntilStarts(events, inv, tls[0], t);
    LookupBeforeStart(r[0].history, r[0].next, t);
    assert LastTransitionAt(r[0].history, r[0].next, t).None?;
  }

  /** What the promise of `states_at_time` holds for: after a successful
      `advance_until(t)` with `t >= 0` from timelines starting at zero, the
      clock is `t` and the states there exist, so `last_states` and
      `last_theta` do not panic. */
  lemma AdvancedHasStatesAtClock<S(!new)>(events: S --> seq<Event<S>>, inv: S -> bool, tls: seq<Timeline<S>>, t: real)
    requires WellFormed(events, inv) && AllKeep(inv, tls) && tls != []
    requires forall i :: 0 <= i < |tls| ==> StartsAtZero(tls[i])
    requires RunAll(events, inv, tls, t, |tls|).1.Ok? && 0.0 <= t
    ensures var r := RunAll(events, inv, tls, t, |tls|).0;
      r[0].time == t && StatesAt(r, t).Some?
  {
    RunAllSameTime(events, inv, tls, t);
    AllStartedLookup(RunAll(events, inv, tls, t, |tls|).0, t, t);
  }

  /** A `Simulation`: the single simulations of the ensemble, all of the
      same particle (`events` with its invariant `inv`). */
  class Simulation<S(!new)> {
    const events: S --> seq<Event<S>>
    const inv: S -> bool
    var simulations: seq<SimulationSingle<S>>

    function Elements(): set<object>
      reads this
    {
      set i | 0 <= i < |simulations| :: simulations[i] as object
    }

    /** The timelines of all single simulations, in order. */
    function Timelines(): (tls: seq<Timeline<S>>)
      reads this, Elements()
      ensures |tls| == |simulations|
      ensures forall i :: 0 <= i < |simulations| ==> tls[i] == simulations[i].Current()
    {
      seq(|simulations|, i reads this, Elements() requires 0 <= i < |simulations| => simulations[i].Current())
    }

    /** Every single simulation is a valid simulation of the particle that
      starts at zero, and they are distinct objects. */
    ghost predicate Valid()
      reads this, Elements()
    {
      && WellFormed(events, inv)
      && (forall i :: 0 <= i < |simulations| ==>
            && simulations[i].events == events && simulations[i].inv == inv
            && simulations[i].Valid() && StartsAtZero(simulations[i].Current()))
      && (forall i, j :: 0 <= i < j < |simulations| ==> simulations[i] != simulations[j])
    }

    /** `new(particle, n)`: `n` fresh single simulations, each with its own
      supply of draws. */
    constructor(events: S --> seq<Event<S>>, inv: S -> bool, initial: S, n: nat, entropies: seq<seq<Draw>>)
      requires WellFormed(events, inv) && inv(initial)
      requires |entropies| == n
      ensures Valid()
      ensures this.events == events && this.inv == inv
      ensures |simulations| == n
      ensures forall i :: 0 <= i < n ==> fresh(simulations[i])
      ensures forall i :: 0 <= i < n ==> simulations[i].Current() == Fresh(initial, entropies[i])
    {
      var sims: seq<SimulationSingle<S>> := [];
      for i := 0 to n
        invariant |sims| == i
        invariant forall j :: 0 <= j < i ==>
          && fresh(sims[j]) && sims[j].Valid()
          && sims[j].events == events && sims[j].inv == inv
          && sims[j].Current() == Fresh(initial, entropies[j])
        invariant forall j, k :: 0 <= j < k < i ==> sims[j] != sims[k]
      {
        var sim := new SimulationSingle(events, inv, initial, entropies[i]);
        sims := sims + [sim];
      }
      this.events := events;
      this.inv := inv;
      simulations := sims;
    }

    /** `time`: the clock of the first simulation. */
    function Time(): real
      requires |simulations| >= 1
      reads this, simulations[0]
    {
      simulations[0].time
    }

    /** `advance_until(t)`: every simulation in turn, stopping at the first
      error (see `RunAllOk`, `RunAllErr` and `RunAllSameTime`). */
    method AdvanceUntil(t: real) returns (res: Result<(), Failure>)
      requires Valid()
      modifies Elements()
      ensures Valid()
      ensures AllKeep(inv, old(Timelines()))
      ensures (Timelines(), res) == RunAll(events, inv, old(Timelines()), t, |simulations|)
      ensures res.Ok? && 0.0 <= t && |simulations| >= 1 ==> Time() == t && StatesAtTime(Time()).Some?
    {
      ghost var before := Timelines();
      assert this !in Elements();
      res := Ok(());
      var i := 0;
      while i < |simulations| && res.Ok?
        invariant 0 <= i <= |simulations|
        invariant Valid() && |before| == |simulations|
        invariant AllKeep(inv, before)
        invariant (Timelines(), res) == RunAll(events, inv, before, t, i)
      {
        res := AdvanceOne(i, t, before);
        i := i + 1;
      }
      if res.Err? {
        RunAllStops(events, inv, before, t, i, |simulations|);
      } else if 0.0 <= t && |simulations| >= 1 {
        AdvancedHasStatesAtClock(events, inv, before, t);
      }
    }

    /** One simulation's `advance_until(t)`, the others untouched: after
        the first `i` runs from `before`, the first `i + 1`. */
    method AdvanceOne(i: nat, t: real, ghost before: seq<Timeline<S>>) returns (res: Result<(), Failure>)
      requires Valid() && i < |simulations| && AllKeep(inv, before) && |before| == |simulations|
      requires RunAll(events, inv, before, t, i).1.Ok? && Timelines() == RunAll(events, inv, before, t, i).0
      modifies simulations[i]
      ensures Valid()
      ensures var o := RunUntil(events, inv, old(Timelines())[i], t);
        Timelines() == old(Timelines())[i := o.after] && res == o.result
      ensures (Timelines(), res) == RunAll(events, inv, before, t, i + 1)
    {
      var sim := simulations[i];
      ghost var prev := Timelines();
      RunUntilStarts(events, inv, sim.Current(), t);
      res := sim.AdvanceUntil(t);
      assert Timelines() == prev[i := sim.Current()];
      RunAllNext(events, inv, before, t, i);
    }

    /** `states_at_time(x)`. */
    function StatesAtTime(x: real): (r: Option<seq<S>>)
      reads this, Elements()
      ensures r == StatesAt(Timelines(), x)
    {
      StatesAt(Timelines(), x)
    }

    /** `last_theta`: the attached fraction at the current time. The source
      panics when some state is unknown there. */
    function LastTheta(isAttached: S -> bool): (theta: real)
      requires |simulations| >= 1
      requires StatesAt(Timelines(), Time()).Some?
      reads this, Elements()
      ensures 0.0 <= theta <= 1.0
    {
      Theta(StatesAt(Timelines(), Time()).value, isAttached)
    }
  }
}
