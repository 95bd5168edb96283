/** The Python particle contract of `src/indecision/particle/core.py`: an
    event is a rate with a transition that updates the state, and
    `advance_state` applies the transition chosen by the cumulative-rate scan.
    The transitions are functions from the state before to the state after;
    `ParticleInstance` holds the state that they update. */
module PyParticle {
  import opened Wrappers
  import opened Particle

  /** `Event`: a rate, and the transition it applies to the state. */
  datatype PyEvent<!S> = PyEvent(rate: real, transition: S -> S)

  /** The events offered in state `s`, as rates with the state each leads to. */
  function Offered<S>(events: seq<PyEvent<S>>, s: S): (es: seq<Event<S>>)
    ensures |es| == |events|
    ensures forall i :: 0 <= i < |events| ==> es[i] == Event(events[i].rate, events[i].transition(s))
  {
    seq(|events|, i requires 0 <= i < |events| => Event(events[i].rate, events[i].transition(s)))
  }

  /** The state after the scan with threshold `r`: the transition of the
      first event whose cumulative rate exceeds `r` applied to `s`, or `s`
      itself when no cumulative rate does. */
  function Picked<S>(events: seq<PyEvent<S>>, s: S, r: real): S
  {
    match Choose(Offered(events, s), r)
    case Some(k) => events[k].transition(s)
    case None => s
  }

  /** `Picked` is the transition of the first event above `r`, or `s` when
      the scan falls through. */
  lemma PickedChoice<S>(events: seq<PyEvent<S>>, s: S, r: real)
    ensures var es := Offered(events, s);
      var next := Picked(events, s, r);
      || (exists k: nat :: FirstAbove(es, r, k) && next == events[k].transition(s))
      || ((forall j :: 1 <= j <= |es| ==> Cumulative(es, j) <= r) && next == s)
  {
    var es := Offered(events, s);
    match Choose(es, r)
    case Some(k) =>
      assert FirstAbove(es, r, k) && Picked(events, s, r) == events[k].transition(s);
    case None =>
  }

  /** The scan stops at the first event above `r`... */
  lemma PickedAt<S>(events: seq<PyEvent<S>>, s: S, r: real, k: nat)
    requires FirstAbove(Offered(events, s), r, k)
    ensures Picked(events, s, r) == events[k].transition(s)
  {
    var es := Offered(events, s);
    FirstAboveUnique(es, r, k, Choose(es, r).value);
  }

  /** ...and falls through, leaving `s`, when no cumulative rate exceeds `r`. */
  lemma PickedNone<S>(events: seq<PyEvent<S>>, s: S, r: real)
    requires forall j :: 1 <= j <= |events| ==> Cumulative(Offered(events, s), j) <= r
    ensures Picked(events, s, r) == s
  {
    assert Choose(Offered(events, s), r).None?;
  }

  /** What `advance_state` does to state `s`: it raises on no events or a
      total rate of exactly zero (a negative total is let through); otherwise
      it moves to `Picked` with `r = fraction * total` and returns
      `delta_t = exposure / total`. */
  function Applied<S>(events: seq<PyEvent<S>>, s: S, d: Draw): (res: Result<(S, real), Error>)
    ensures res.Err? <==> events == [] || TotalRate(Offered(events, s)) == 0.0
    ensures res.Err? ==> res.error == (if events == [] then NoEvents else ZeroTotalRate)
  {
    var es := Offered(events, s);
    match Refusal(es)
    case Some(e) => Err(e)
    case None =>
      var total := TotalRate(es);
      Ok((Picked(events, s, ScanPoint(d, total)), WaitingTime(d, total)))
  }

  /** An event list that is not refused moves to `Picked` at
      `r = fraction * total`, after `exposure / total`. */
  lemma AppliedOk<S>(events: seq<PyEvent<S>>, s: S, d: Draw, total: real, r: real, deltaT: real)
    requires events != [] && total == TotalRate(Offered(events, s)) && total != 0.0
    requires r == ScanPoint(d, total) && deltaT == WaitingTime(d, total)
    ensures Applied(events, s, d) == Ok((Picked(events, s, r), deltaT))
  {
    assert Refusal(Offered(events, s)) == None;
  }

  /** With non-negative rates the Python step agrees with the Rust one: the
      same refusals, and otherwise the same next state and waiting time. */
  lemma AppliedAgreesWithAdvanced<S>(events: seq<PyEvent<S>>, s: S, d: Draw)
    requires NonNegative(Offered(events, s))
    ensures var es := Offered(events, s);
      match Advanced(es, d)
      case Err(e) => Applied(events, s, d) == Err(e)
      case Ok(step) => Applied(events, s, d) == Ok((step.target, step.deltaT))
  {
    var es := Offered(events, s);
    AdvancedFails(es, d);
    if es != [] && TotalRate(es) != 0.0 {
      var total := TotalRate(es);
      var r := ScanPoint(d, total);
      var deltaT := WaitingTime(d, total);
      AdvancedAt(es, d, total, r, deltaT);
      var k := SelectIndex(es, r);
      PickedAt(events, s, r, k);
      AppliedOk(events, s, d, total, r, deltaT);
    }
  }

  /** A single negative rate is not refused: no cumulative sum exceeds `r`,
      so the state is left as it was, and the waiting time is negative. */
  lemma NegativeRateFallsThrough<S>(f: S -> S, s: S, d: Draw)
    ensures Applied([PyEvent(-1.0, f)], s, d) == Ok((s, -d.exposure))
  {
    var es := Offered([PyEvent(-1.0, f)], s);
    assert TotalRate(es) == Cumulative(es, 0) + es[0].rate == -1.0;
    assert Cumulative(es, 1) <= ScanPoint(d, -1.0);
    assert Picked([PyEvent(-1.0, f)], s, ScanPoint(d, -1.0)) == s;
    AppliedOk([PyEvent(-1.0, f)], s, d, -1.0, ScanPoint(d, -1.0), -d.exposure);
  }

  /** A single event is refused exactly when its rate is zero. */
  lemma SingleEventRefused<S>(e: PyEvent<S>, s: S, d: Draw)
    ensures e.rate == 0.0 <==> Applied([e], s, d) == Err(ZeroTotalRate)
  {
    var offered := Offered([e], s);
    assert TotalRate(offered) == Cumulative(offered, 0) + offered[0].rate;
  }

  /** A single event with a positive rate always fires, after
      `exposure / rate`. */
  lemma SingleEventFires<S>(e: PyEvent<S>, s: S, d: Draw)
    requires e.rate > 0.0
    ensures Applied([e], s, d) == Ok((e.transition(s), d.exposure / e.rate))
  {
    var offered := Offered([e], s);
    var r := ScanPoint(d, e.rate);
    assert TotalRate(offered) == e.rate by {
      assert Cumulative(offered, 1) == Cumulative(offered, 0) + offered[0].rate;
    }
    DrawBounds(d, e.rate);
    assert FirstAbove(offered, r, 0);
    PickedAt([e], s, r, 0);
    AppliedOk([e], s, d, e.rate, r, WaitingTime(d, e.rate));
  }

  /** `Particle.advance_state`: the cumulative-rate scan of the source. */
  method ParticleAdvanceState<S>(events: seq<PyEvent<S>>, s: S, d: Draw) returns (res: Result<(S, real), Error>)
    ensures res == Applied(events, s, d)
  {
    if |events| == 0 {
      return Err(NoEvents);
    }
    ghost var es := Offered(events, s);
    var totalRate := 0.0;
    for i := 0 to |events|
      invariant totalRate == Cumulative(es, i)
    {
      totalRate := totalRate + events[i].rate;
    }
    assert totalRate == TotalRate(es);
    if totalRate == 0.0 {
      assert Refusal(es) == Some(ZeroTotalRate);
      return Err(ZeroTotalRate);
    }
    assert Refusal(es) == None;
    var deltaT := WaitingTime(d, totalRate);
    var r := ScanPoint(d, totalRate);
    AppliedOk(events, s, d, totalRate, r, deltaT);
    ghost var expected := Applied(events, s, d);
    var cumulativeRate := 0.0;
    var i := 0;
    while i < |events|
      invariant 0 <= i <= |events|
      invariant cumulativeRate == Cumulative(es, i)
      invariant forall j :: 1 <= j <= i ==> Cumulative(es, j) <= r
    {
      cumulativeRate := cumulativeRate + events[i].rate;
      if cumulativeRate > r {
        assert FirstAbove(es, r, i);
        PickedAt(events, s, r, i);
        res := Ok((events[i].transition(s), deltaT));
        assert res == expected;
        return;
      }
      i := i + 1;
    }
    PickedNone(events, s, r);
    res := Ok((s, deltaT));
    assert res == expected;
  }

  /** The states `inv` admits have their events defined, and every
      transition offered there leads to a state `inv` admits. */
  ghost predicate Closed<S(!new)>(events: S --> seq<PyEvent<S>>, inv: S -> bool)
  {
    forall s :: inv(s) ==>
      && events.requires(s)
      && forall i :: 0 <= i < |events(s)| ==> inv(events(s)[i].transition(s))
  }

  /** Then a step, whatever it applies, keeps the state admitted. */
  lemma AppliedKeeps<S(!new)>(events: S --> seq<PyEvent<S>>, inv: S -> bool, s: S, d: Draw)
    requires Closed(events, inv) && inv(s)
    requires Applied(events(s), s, d).Ok?
    ensures inv(Applied(events(s), s, d).value.0)
  {
    var es := Offered(events(s), s);
    var next := Picked(events(s), s, ScanPoint(d, TotalRate(es)));
    PickedChoice(events(s), s, ScanPoint(d, TotalRate(es)));
    if next != s {
      var k: nat :| FirstAbove(es, ScanPoint(d, TotalRate(es)), k) && next == events(s)[k].transition(s);
    }
  }

  /** `ParticleInstance`: a particle specification and the state it
      advances in place. */
  class ParticleInstance<S(!new)> {
    const specification: S --> seq<PyEvent<S>>
    const inv: S -> bool
    var state: S

    ghost predicate Valid()
      reads this
    {
      Closed(specification, inv) && inv(state)
    }

    /** `__init__`: `initial` stands for the default-constructed
        `state_type()`. */
    constructor(initial: S, specification: S --> seq<PyEvent<S>>, inv: S -> bool)
      requires Closed(specification, inv) && inv(initial)
      ensures Valid()
      ensures state == initial && this.specification == specification && this.inv == inv
    {
      state := initial;
      this.specification := specification;
      this.inv := inv;
    }

    /** `advance_state`: the specification's step on the instance's own
        state. A raised error leaves the state as it was. */
    method AdvanceState(d: Draw) returns (res: Result<real, Error>)
      requires Valid()
      modifies this
      ensures Valid()
      ensures match Applied(specification(old(state)), old(state), d)
        case Err(e) => res == Err(e) && state == old(state)
        case Ok(step) => res == Ok(step.1) && state == step.0
    {
      var stepped := ParticleAdvanceState(specification(state), state, d);
      match stepped
      case Err(e) =>
        res := Err(e);
      case Ok(step) =>
        AppliedKeeps(specification, inv, state, d);
        state := step.0;
        res := Ok(step.1);
    }
  }
}
