/** The single-particle timeline of `rust/src/simulation/single.rs`: a clock,
    the pending transition and the history of transitions taken, advanced
    with the Gillespie step of `Particle`. The particle is given by its
    `events` function and an invariant `inv` of its reachable states; the
    random numbers come from a finite supply `entropy`, one draw per step. */
module SingleSimulation {
  import opened Wrappers
  import opened Particle

  /** A transition into `target` at `time` (`rust/src/simulation/mod.rs`). */
  datatype Transition<S> = Transition(time: real, target: S)

  /** Why `advance_until` stops early: the particle refused to advance, or
      the supply of random draws ran out (the latter only in this model). */
  datatype Failure = ParticleFailure(error: Error) | RandomExhausted

  /** The fields of a `SimulationSingle`, as a value. */
  datatype Timeline<S> = Timeline(
    next: Transition<S>,
    history: seq<Transition<S>>,
    time: real,
    entropy: seq<Draw>)

  /** The timeline after `advance_until`, and what it returned. */
  datatype Outcome<S> = Outcome(after: Timeline<S>, result: Result<(), Failure>)

  /** `new`: time zero, the initial state pending at time zero, no history. */
  function Fresh<S>(initial: S, entropy: seq<Draw>): (tl: Timeline<S>)
    ensures tl.time == 0.0 && tl.next == Transition(0.0, initial) && tl.history == []
  {
    Timeline(Transition(0.0, initial), [], 0.0, entropy)
  }

  /** What `advance_until(t)` does to a timeline: while `t` is at or after
      the pending transition, push it to the history and schedule the next
      one at the clock plus the waiting time; then set the clock to `t`. A
      refused step returns the error right after the push, leaving the clock
      and the pending transition as they were. */
  function RunUntil<S(!new)>(events: S --> seq<Event<S>>, inv: S -> bool, tl: Timeline<S>, t: real)
    : (o: Outcome<S>)
    requires WellFormed(events, inv) && inv(tl.next.target)
    ensures inv(o.after.next.target)
    decreases |tl.entropy|
  {
    if t < tl.next.time then Outcome(tl.(time := t), Ok(()))
    else
      var pushed := tl.history + [tl.next];
      if tl.entropy == [] then Outcome(tl.(history := pushed), Err(RandomExhausted))
      else
        var es := events(tl.next.target);
        match Advanced(es, tl.entropy[0])
        case Err(e) => Outcome(tl.(history := pushed), Err(ParticleFailure(e)))
        case Ok(step) =>
          AdvancedKeeps(es, inv, tl.entropy[0]);
          var clock := tl.time + step.deltaT;
          RunUntil(events, inv, Timeline(Transition(clock, step.target), pushed, clock, tl.entropy[1..]), t)
  }

  /** One iteration of the loop of `advance_until(t)` that succeeds: the
      rest of the run is the run from the timeline it leaves, whose pending
      target is admitted. */
  lemma RunUntilStep<S(!new)>(events: S --> seq<Event<S>>, inv: S -> bool, tl: Timeline<S>, t: real,
                              step: Step<S>, clock: real)
    requires WellFormed(events, inv) && inv(tl.next.target)
    requires t >= tl.next.time && tl.entropy != []
    requires Advanced(events(tl.next.target), tl.entropy[0]) == Ok(step)
    requires clock == tl.time + step.deltaT
    ensures inv(step.target)
    ensures RunUntil(events, inv, tl, t)
      == RunUntil(events, inv, Timeline(Transition(clock, step.target), tl.history + [tl.next], clock, tl.entropy[1..]), t)
  {
    AdvancedKeeps(events(tl.next.target), inv, tl.entropy[0]);
  }

  /** A successful `advance_until(t)` leaves the clock at `t`, even when `t`
      is before the clock was, and the pending transition after `t`. */
  lemma {:induction false} RunUntilSucceeds<S(!new)>(
    events: S --> seq<Event<S>>, inv: S -> bool, tl: Timeline<S>, t: real)
    requires WellFormed(events, inv) && inv(tl.next.target)
    requires RunUntil(events, inv, tl, t).result.Ok?
    ensures RunUntil(events, inv, tl, t).after.time == t
    ensures RunUntil(events, inv, tl, t).after.next.time > t
    decreases |tl.entropy|
  {
    if t >= tl.next.time {
      var es := events(tl.next.target);
      var step := Advanced(es, tl.entropy[0]).value;
      AdvancedKeeps(es, inv, tl.entropy[0]);
      var clock := tl.time + step.deltaT;
      RunUntilSucceeds(events, inv, Timeline(Transition(clock, step.target), tl.history + [tl.next], clock, tl.entropy[1..]), t);
    }
  }

  /** The history only grows, by appending; nothing is pushed when `t` is
      before the pending transition (and then only the clock moves), and
      otherwise the first entry pushed is the pending transition. Every
      entry pushed has a time no later than `t`. */
  lemma {:induction false} RunUntilAppends<S(!new)>(
    events: S --> seq<Event<S>>, inv: S -> bool, tl: Timeline<S>, t: real)
    requires WellFormed(events, inv) && inv(tl.next.target)
    ensures var h := RunUntil(events, inv, tl, t).after.history;
      && |tl.history| <= |h|
      && h[..|tl.history|] == tl.history
      && (forall i :: |tl.history| <= i < |h| ==> h[i].time <= t)
    ensures t < tl.next.time ==> RunUntil(events, inv, tl, t) == Outcome(tl.(time := t), Ok(()))
    ensures t >= tl.next.time ==> var h := RunUntil(events, inv, tl, t).after.history;
      |tl.history| < |h| && h[|tl.history|] == tl.next
    decreases |tl.entropy|
  {
    if t >= tl.next.time && tl.entropy != [] {
      var es := events(tl.next.target);
      if Advanced(es, tl.entropy[0]).Ok? {
        var step := Advanced(es, tl.entropy[0]).value;
        AdvancedKeeps(es, inv, tl.entropy[0]);
        var clock := tl.time + step.deltaT;
        var tl' := Timeline(Transition(clock, step.target), tl.history + [tl.next], clock, tl.entropy[1..]);
        RunUntilAppends(events, inv, tl', t);
        var h := RunUntil(events, inv, tl', t).after.history;
        assert h[..|tl'.history|] == tl'.history;
        assert h[..|tl.history|] == tl'.history[..|tl.history|];
      }
    }
  }

  /** The clock is in step with the pending transition, as it is on a fresh
      timeline and after every step inside one call. */
  predicate InSync<S>(tl: Timeline<S>)
  {
    tl.time == tl.next.time
  }

  /** On failure the transition that could not be advanced is both the last
      entry of the history and still pending, and the clock has not been set
      to `t`: either nothing was advanced, or the clock is at the pending
      transition's time. */
  lemma {:induction false} RunUntilFails<S(!new)>(
    events: S --> seq<Event<S>>, inv: S -> bool, tl: Timeline<S>, t: real)
    requires WellFormed(events, inv) && inv(tl.next.target)
    requires RunUntil(events, inv, tl, t).result.Err?
    ensures var after := RunUntil(events, inv, tl, t).after;
      && after.history != []
      && after.history[|after.history| - 1] == after.next
      && ((after.time == tl.time && after.next == tl.next) || InSync(after))
    decreases |tl.entropy|
  {
    if tl.entropy != [] {
      var es := events(tl.next.target);
      if Advanced(es, tl.entropy[0]).Ok? {
        var step := Advanced(es, tl.entropy[0]).value;
        AdvancedKeeps(es, inv, tl.entropy[0]);
        var clock := tl.time + step.deltaT;
        var tl' := Timeline(Transition(clock, step.target), tl.history + [tl.next], clock, tl.entropy[1..]);
        RunUntilFails(events, inv, tl', t);
      }
    }
  }

  /** Times strictly increase along `h` from index `from` on. */
  predicate IncreasingFrom<S>(h: seq<Transition<S>>, from: nat)
  {
    forall i, j :: from <= i < j < |h| ==> h[i].time < h[j].time
  }

  /** Within one call that starts in sync, the entries pushed have strictly
      increasing times. */
  lemma {:induction false} RunUntilIncreasing<S(!new)>(
    events: S --> seq<Event<S>>, inv: S -> bool, tl: Timeline<S>, t: real)
    requires WellFormed(events, inv) && inv(tl.next.target)
    requires InSync(tl)
    ensures IncreasingFrom(RunUntil(events, inv, tl, t).after.history, |tl.history|)
    decreases |tl.entropy|
  {
    RunUntilAppends(events, inv, tl, t);
    if t >= tl.next.time && tl.entropy != [] {
      var es := events(tl.next.target);
      if Advanced(es, tl.entropy[0]).Ok? {
        var step := Advanced(es, tl.entropy[0]).value;
        AdvancedKeeps(es, inv, tl.entropy[0]);
        var clock := tl.time + step.deltaT;
        var tl' := Timeline(Transition(clock, step.target), tl.history + [tl.next], clock, tl.entropy[1..]);
        RunUntilIncreasing(events, inv, tl', t);
        RunUntilAppends(events, inv, tl', t);
        var after := RunUntil(events, inv, tl', t).after;
        assert after.history[|tl.history|] == tl.next;
        if |tl'.history| < |after.history| {
          assert after.history[|tl'.history|] == tl'.next;
        }
      }
    }
  }

  /** Within one call that starts in sync, no entry pushed is after the
      transition left pending, and on success every one is before it. */
  lemma {:induction false} RunUntilBeforePending<S(!new)>(
    events: S --> seq<Event<S>>, inv: S -> bool, tl: Timeline<S>, t: real)
    requires WellFormed(events, inv) && inv(tl.next.target)
    requires InSync(tl)
    ensures var after := RunUntil(events, inv, tl, t).after;
      && (forall i :: |tl.history| <= i < |after.history| ==> after.history[i].time <= after.next.time)
      && (RunUntil(events, inv, tl, t).result.Ok? ==>
            forall i :: |tl.history| <= i < |after.history| ==> after.history[i].time < after.next.time)
    decreases |tl.entropy|
  {
    RunUntilAppends(events, inv, tl, t);
    if t >= tl.next.time && tl.entropy != [] {
      var es := events(tl.next.target);
      if Advanced(es, tl.entropy[0]).Ok? {
        var step := Advanced(es, tl.entropy[0]).value;
        AdvancedKeeps(es, inv, tl.entropy[0]);
        var clock := tl.time + step.deltaT;
        var tl' := Timeline(Transition(clock, step.target), tl.history + [tl.next], clock, tl.entropy[1..]);
        RunUntilBeforePending(events, inv, tl', t);
        RunUntilAppends(events, inv, tl', t);
        var after := RunUntil(events, inv, tl', t).after;
        assert after.history[|tl.history|] == tl.next;
        RunUntilNextNotEarlier(events, inv, tl', t);
      }
    }
  }

  /** The pending transition never moves earlier within one call. */
  lemma {:induction false} RunUntilNextNotEarlier<S(!new)>(
    events: S --> seq<Event<S>>, inv: S -> bool, tl: Timeline<S>, t: real)
    requires WellFormed(events, inv) && inv(tl.next.target)
    requires InSync(tl)
    ensures tl.next.time <= RunUntil(events, inv, tl, t).after.next.time
    decreases |tl.entropy|
  {
    if t >= tl.next.time && tl.entropy != [] {
      var es := events(tl.next.target);
      if Advanced(es, tl.entropy[0]).Ok? {
        var step := Advanced(es, tl.entropy[0]).value;
        AdvancedKeeps(es, inv, tl.entropy[0]);
        var clock := tl.time + step.deltaT;
        RunUntilNextNotEarlier(events, inv, Timeline(Transition(clock, step.target), tl.history + [tl.next], clock, tl.entropy[1..]), t);
      }
    }
  }

  /** The index of the first history entry not before `x` (or the length). */
  function FirstNotBefore<S>(h: seq<Transition<S>>, x: real, from: nat): (k: nat)
    requires from <= |h|
    ensures from <= k <= |h|
    ensures forall j :: from <= j < k ==> h[j].time < x
    ensures k < |h| ==> h[k].time >= x
    decreases |h| - from
  {
    if from == |h| || h[from].time >= x then from else FirstNotBefore(h, x, from + 1)
  }

  /** `last_transition_at_time(x)`: scanning the history in order, an entry
      at exactly `x` is the answer; an entry after `x` ends the scan with the
      entry before it, if any; past the end, the last entry is the answer
      only while the pending transition is after `x`. */
  function LastTransitionAt<S>(h: seq<Transition<S>>, next: Transition<S>, x: real): (r: Option<Transition<S>>)
    ensures r.Some? ==> r.value in h && r.value.time <= x
  {
    var k := FirstNotBefore(h, x, 0);
    if k < |h| && h[k].time == x then Some(h[k])
    else if (k < |h| || next.time > x) && k > 0 then Some(h[k - 1])
    else None
  }

  /** Whatever the order of the history, the lookup succeeds from the first
      entry's time up to (not including) the pending transition's time. */
  lemma LookupWithinRange<S>(h: seq<Transition<S>>, next: Transition<S>, x: real)
    requires h != [] && h[0].time <= x < next.time
    ensures LastTransitionAt(h, next, x).Some?
  {
    var k := FirstNotBefore(h, x, 0);
    if k == 0 {
      assert h[0].time == x;
    }
  }

  /** Before the first entry, or with no history, there is nothing. */
  lemma LookupBeforeStart<S>(h: seq<Transition<S>>, next: Transition<S>, x: real)
    requires h == [] || x < h[0].time
    ensures LastTransitionAt(h, next, x) == None
  {
  }

  /** A history of strictly increasing times, all before the pending one. */
  predicate Ordered<S>(h: seq<Transition<S>>, next: Transition<S>)
  {
    IncreasingFrom(h, 0) && forall i :: 0 <= i < |h| ==> h[i].time < next.time
  }

  /** The time at which entry `i` stops being the current one. */
  function Until<S>(h: seq<Transition<S>>, next: Transition<S>, i: nat): real
    requires i < |h|
  {
    if i + 1 < |h| then h[i + 1].time else next.time
  }

  /** On an ordered history the lookup is the entry current at `x`: entry
      `i` exactly when `h[i].time <= x < ` the time of the entry after it
      (the pending one for the last entry). */
  lemma LookupOrdered<S>(h: seq<Transition<S>>, next: Transition<S>, x: real, i: nat)
    requires Ordered(h, next) && i < |h|
    ensures LastTransitionAt(h, next, x) == Some(h[i]) <==> h[i].time <= x < Until(h, next, i)
  {
    var k := FirstNotBefore(h, x, 0);
    if h[i].time <= x < Until(h, next, i) {
      if k <= i {
        assert k == i && h[i].time == x;
      }
    }
  }

  /** On an ordered history, at or after the pending time there is nothing. */
  lemma LookupAfterEnd<S>(h: seq<Transition<S>>, next: Transition<S>, x: real)
    requires Ordered(h, next) && next.time <= x
    ensures LastTransitionAt(h, next, x) == None
  {
    assert FirstNotBefore(h, x, 0) == |h|;
  }

  /** A `SimulationSingle`: the particle (`events` with its invariant `inv`),
      the pending transition, the history, the clock, and the draws left. */
  class SimulationSingle<S(!new)> {
    const events: S --> seq<Event<S>>
    const inv: S -> bool
    var nextTransition: Transition<S>
    var history: seq<Transition<S>>
    var time: real
    var entropy: seq<Draw>

    function Current(): Timeline<S>
      reads this
    {
      Timeline(nextTransition, history, time, entropy)
    }

    ghost predicate Valid()
      reads this
    {
      WellFormed(events, inv) && inv(nextTransition.target)
    }

    /** `new`: the initial state pending at time zero, an empty history. */
    constructor(events: S --> seq<Event<S>>, inv: S -> bool, initial: S, entropy: seq<Draw>)
      requires WellFormed(events, inv) && inv(initial)
      ensures Valid()
      ensures this.events == events && this.inv == inv
      ensures Current() == Fresh(initial, entropy)
    {
      this.events := events;
      this.inv := inv;
      nextTransition := Transition(0.0, initial);
      history := [];
      time := 0.0;
      this.entropy := entropy;
    }

    /** `advance_until(t)`. */
    method AdvanceUntil(t: real) returns (res: Result<(), Failure>)
      requires Valid()
      modifies this
      ensures Valid()
      ensures Outcome(Current(), res) == RunUntil(events, inv, old(Current()), t)
    {
      while t >= nextTransition.time
        invariant Valid()
        invariant RunUntil(events, inv, Current(), t) == RunUntil(events, inv, old(Current()), t)
        decreases |entropy|
      {
        res := AdvanceOnce(t);
        if res.Err? {
          return;
        }
      }
      time := t;
      return Ok(());
    }

    /** The body of the loop of `advance_until(t)`: push the pending
        transition, then schedule the next one at the clock plus the waiting
        time. A refused step ends the call with what `RunUntil` returns;
        otherwise the rest of the call runs as it would have, one draw fewer. */
    method AdvanceOnce(ghost t: real) returns (res: Result<(), Failure>)
      requires Valid() && t >= nextTransition.time
      modifies this
      ensures Valid()
      ensures res.Err? ==> Outcome(Current(), res) == RunUntil(events, inv, old(Current()), t)
      ensures res.Ok? ==> |entropy| < old(|entropy|)
      ensures res.Ok? ==> RunUntil(events, inv, Current(), t) == RunUntil(events, inv, old(Current()), t)
    {
      ghost var tl := Current();
      history := history + [nextTransition];
      if entropy == [] {
        return Err(RandomExhausted);
      }
      var step := AdvanceState(events(nextTransition.target), entropy[0]);
      if step.Err? {
        return Err(ParticleFailure(step.error));
      }
      var clock := time + step.value.deltaT;
      RunUntilStep(events, inv, tl, t, step.value, clock);
      nextTransition := Transition(clock, step.value.target);
      time := clock;
      entropy := entropy[1..];
      assert Current() == Timeline(Transition(clock, step.value.target), tl.history + [tl.next], clock, tl.entropy[1..]);
      return Ok(());
    }

    /** `last_transition_at_time(x)`: the linear scan of the history. */
    method LastTransitionAtTime(x: real) returns (r: Option<Transition<S>>)
      ensures r == LastTransitionAt(history, nextTransition, x)
    {
      var last: Option<Transition<S>> := None;
      var i := 0;
      while i < |history|
        invariant 0 <= i <= |history|
        invariant forall j :: 0 <= j < i ==> history[j].time < x
        invariant last == if i == 0 then None else Some(history[i - 1])
      {
        if history[i].time > x {
          assert FirstNotBefore(history, x, 0) == i;
          return last;
        } else if history[i].time == x {
          assert FirstNotBefore(history, x, 0) == i;
          return Some(history[i]);
        }
        last := Some(history[i]);
        i := i + 1;
      }
      assert FirstNotBefore(history, x, 0) == |history|;
      if nextTransition.time > x {
        return last;
      } else {
        return None;
      }
    }

    /** `state_at_time(x)`: the target of that transition. */
    method StateAtTime(x: real) returns (r: Option<S>)
      ensures r.Some? <==> LastTransitionAt(history, nextTransition, x).Some?
      ensures r.Some? ==> r.value == LastTransitionAt(history, nextTransition, x).value.target
    {
      var transition := LastTransitionAtTime(x);
      if transition.None? {
        return None;
      }
      return Some(transition.value.target);
    }

    /** `last_state`: the state at the clock; the source panics when there
      is none, so the caller must know there is one. */
    method LastState() returns (s: S)
      requires LastTransitionAt(history, nextTransition, time).Some?
      ensures s == LastTransitionAt(history, nextTransition, time).value.target
    {
      var r := StateAtTime(time);
      s := r.value;
    }
  }

  /** From a fresh timeline, one call leaves a history ordered in time. */
  lemma FreshRunOrdered<S(!new)>(
    events: S --> seq<Event<S>>, inv: S -> bool, initial: S, entropy: seq<Draw>, t: real)
    requires WellFormed(events, inv) && inv(initial)
    requires RunUntil(events, inv, Fresh(initial, entropy), t).result.Ok?
    ensures var after := RunUntil(events, inv, Fresh(initial, entropy), t).after;
      Ordered(after.history, after.next)
  {
    RunUntilIncreasing(events, inv, Fresh(initial, entropy), t);
    RunUntilBeforePending(events, inv, Fresh(initial, entropy), t);
  }

  /** The source's test: after `advance_until(t)` with `t >= 0` from a fresh
      simulation, the state at time zero is the initial state. */
  lemma FreshStateAtZero<S(!new)>(
    events: S --> seq<Event<S>>, inv: S -> bool, initial: S, entropy: seq<Draw>, t: real)
    requires WellFormed(events, inv) && inv(initial) && 0.0 <= t
    ensures var after := RunUntil(events, inv, Fresh(initial, entropy), t).after;
      LastTransitionAt(after.history, after.next, 0.0) == Some(Transition(0.0, initial))
  {
    RunUntilAppends(events, inv, Fresh(initial, entropy), t);
  }
}
