/** The particle/event contract of `rust/src/particle/mod.rs`: events with
    rates, the normalised event probabilities and the Gillespie selection step
    `advance_state`, with its random draws supplied as a parameter. */
module Particle {
  import opened Wrappers

  /** A transition that happens at some rate; `target` is the state after it. */
  datatype Event<S> = Event(rate: real, target: S)

  /** Why `advance_state` and `event_probabilities` refuse a state. */
  datatype Error = NoEvents | ZeroTotalRate

  /** The two uniform draws of one stochastic step. `fraction` is the uniform
      number in [0, 1) that `r` is scaled from; `exposure` stands for -log2(u),
      the unit-rate waiting time that is divided by the total rate. */
  datatype RawDraw = RawDraw(fraction: real, exposure: real)

  type Draw = d: RawDraw | 0.0 <= d.fraction < 1.0 && 0.0 < d.exposure
    witness RawDraw(0.0, 1.0)

  /** The outcome of one step: the next state and the time it took. */
  datatype Step<S> = Step(target: S, deltaT: real)

  /** The running sum of the first `n` rates, accumulated left to right as
      `Iterator::sum` and the scan loop do. */
  function Cumulative<S>(events: seq<Event<S>>, n: nat): real
    requires n <= |events|
  {
    if n == 0 then 0.0 else Cumulative(events, n - 1) + events[n - 1].rate
  }

  /** The total rate of all events. */
  function TotalRate<S>(events: seq<Event<S>>): real
  {
    Cumulative(events, |events|)
  }

  predicate NonNegative<S>(events: seq<Event<S>>)
  {
    forall i :: 0 <= i < |events| ==> 0.0 <= events[i].rate
  }

  lemma {:induction false} CumulativeNonNegative<S>(events: seq<Event<S>>, n: nat)
    requires NonNegative(events) && n <= |events|
    ensures 0.0 <= Cumulative(events, n)
  {
    if n > 0 {
      CumulativeNonNegative(events, n - 1);
    }
  }

  /** Event `k` is the first whose cumulative rate strictly exceeds `r`. */
  ghost predicate FirstAbove<S>(events: seq<Event<S>>, r: real, k: nat)
  {
    && k < |events|
    && Cumulative(events, k + 1) > r
    && forall j :: 1 <= j <= k ==> Cumulative(events, j) <= r
  }

  /** The index among the first `n` events where the cumulative-rate scan
      stops, if it stops there. */
  function ChooseWithin<S>(events: seq<Event<S>>, r: real, n: nat): (k: Option<nat>)
    requires n <= |events|
    ensures k.Some? ==> k.value < n && FirstAbove(events, r, k.value)
    ensures k.Some? && 0.0 <= r ==> events[k.value].rate > 0.0
    ensures k.None? ==> forall j :: 1 <= j <= n ==> Cumulative(events, j) <= r
  {
    if n == 0 then None
    else
      match ChooseWithin(events, r, n - 1)
      case Some(k) => Some(k)
      case None => if Cumulative(events, n) > r then Some(n - 1) else None
  }

  /** The index the linear scan over all events stops at, if any. */
  function Choose<S>(events: seq<Event<S>>, r: real): (k: Option<nat>)
  {
    ChooseWithin(events, r, |events|)
  }

  /** Two first-above indices are the same index. */
  lemma FirstAboveUnique<S>(events: seq<Event<S>>, r: real, k: nat, m: nat)
    requires FirstAbove(events, r, k) && FirstAbove(events, r, m)
    ensures k == m
  {
  }

  /** Why `advance_state` and `event_probabilities` refuse an event list,
      if they do: no events, or a total rate of exactly zero. */
  function Refusal<S>(events: seq<Event<S>>): (e: Option<Error>)
    ensures e == Some(NoEvents) <==> events == []
    ensures e == Some(ZeroTotalRate) <==> events != [] && TotalRate(events) == 0.0
    ensures e.None? <==> events != [] && TotalRate(events) != 0.0
  {
    if events == [] then Some(NoEvents)
    else if TotalRate(events) == 0.0 then Some(ZeroTotalRate)
    else None
  }

  /** `event_probabilities`: one `(target, rate / total)` pair per event, in
      event order, unless the event list is refused. */
  function EventProbabilities<S>(events: seq<Event<S>>): (r: Result<seq<(S, real)>, Error>)
    ensures r.Err? <==> Refusal(events).Some?
    ensures r.Err? ==> r.error == Refusal(events).value
    ensures r.Ok? ==> |r.value| == |events|
    ensures r.Ok? ==> forall i :: 0 <= i < |events| ==>
      r.value[i].0 == events[i].target && r.value[i].1 * TotalRate(events) == events[i].rate
  {
    match Refusal(events)
    case Some(e) => Err(e)
    case None =>
      var total := TotalRate(events);
      Ok(seq(|events|, i requires 0 <= i < |events| => (events[i].target, events[i].rate / total)))
  }

  /** Sum of the probability column of the first `n` pairs. */
  function ProbabilitySum<S>(ps: seq<(S, real)>, n: nat): real
    requires n <= |ps|
  {
    if n == 0 then 0.0 else ProbabilitySum(ps, n - 1) + ps[n - 1].1
  }

  lemma {:induction false} ScaledSum<S>(events: seq<Event<S>>, ps: seq<(S, real)>, total: real, n: nat)
    requires total != 0.0 && |ps| == |events| && n <= |events|
    requires forall i :: 0 <= i < |events| ==> ps[i].1 * total == events[i].rate
    ensures ProbabilitySum(ps, n) * total == Cumulative(events, n)
  {
    if n > 0 {
      ScaledSum(events, ps, total, n - 1);
    }
  }

  /** Whenever `event_probabilities` succeeds, the probabilities add up to 1. */
  lemma ProbabilitiesSumToOne<S>(events: seq<Event<S>>)
    requires EventProbabilities(events).Ok?
    ensures var ps := EventProbabilities(events).value; ProbabilitySum(ps, |ps|) == 1.0
  {
    var ps := EventProbabilities(events).value;
    ScaledSum(events, ps, TotalRate(events), |events|);
  }

  /** A scan with `0 <= r < total` always stops at some event. */
  lemma ChooseSome<S>(events: seq<Event<S>>, r: real)
    requires events != [] && 0.0 <= r < TotalRate(events)
    ensures Choose(events, r).Some?
  {
  }

  /** The scan point `r = fraction * total` of a draw. */
  function ScanPoint(d: Draw, total: real): real
  {
    d.fraction * total
  }

  /** The waiting time `exposure / total` of a draw. */
  function WaitingTime(d: Draw, total: real): real
    requires total != 0.0
  {
    d.exposure / total
  }

  /** `r = fraction * total` lies in `[0, total)` and the waiting time is positive. */
  lemma DrawBounds(d: Draw, total: real)
    requires 0.0 < total
    ensures 0.0 <= ScanPoint(d, total) < total
    ensures 0.0 < WaitingTime(d, total)
  {
    assert ScanPoint(d, total) == d.fraction * total < 1.0 * total;
  }

  /** The index the scan stops at when `0 <= r < total`: the first event
      whose cumulative rate exceeds `r`, and never a zero-rate event. */
  function SelectIndex<S>(events: seq<Event<S>>, r: real): (k: nat)
    requires events != [] && 0.0 <= r < TotalRate(events)
    ensures FirstAbove(events, r, k)
    ensures events[k].rate > 0.0
  {
    ChooseSome(events, r);
    Choose(events, r).value
  }

  /** The result `advance_state` computes from the draw `d`. The scan cannot
      fall through: with non-negative rates and `0 <= r < total` some
      cumulative rate exceeds `r`, which is the SAFETY argument of the source. */
  function Advanced<S>(events: seq<Event<S>>, d: Draw): (res: Result<Step<S>, Error>)
    requires NonNegative(events)
    ensures res.Ok? ==> res.value.deltaT > 0.0
  {
    match Refusal(events)
    case Some(e) => Err(e)
    case None =>
      var total := TotalRate(events);
      CumulativeNonNegative(events, |events|);
      DrawBounds(d, total);
      Ok(Step(events[SelectIndex(events, ScanPoint(d, total))].target, WaitingTime(d, total)))
  }

  /** `advance_state` fails exactly on an empty event list and on a total
      rate of exactly zero, and with which error. */
  lemma AdvancedFails<S>(events: seq<Event<S>>, d: Draw)
    requires NonNegative(events)
    ensures Advanced(events, d) == Err(NoEvents) <==> events == []
    ensures Advanced(events, d) == Err(ZeroTotalRate) <==> events != [] && TotalRate(events) == 0.0
    ensures Advanced(events, d).Err? <==> events == [] || TotalRate(events) == 0.0
    ensures Advanced(events, d).Err? <==> EventProbabilities(events).Err?
    ensures Advanced(events, d).Err? ==> Advanced(events, d).error == EventProbabilities(events).error
  {
  }

  /** Otherwise `advance_state` succeeds: `r = fraction * total` lies in
      `[0, total)`, the next state is the target of the event the scan picks
      for `r` (see `SelectIndexCharacterised`) and the waiting time is
      `exposure / total`. */
  lemma AdvancedSucceeds<S>(events: seq<Event<S>>, d: Draw)
    requires NonNegative(events)
    requires events != [] && TotalRate(events) != 0.0
    ensures 0.0 <= ScanPoint(d, TotalRate(events)) < TotalRate(events)
    ensures Advanced(events, d) == Ok(Step(
      events[SelectIndex(events, ScanPoint(d, TotalRate(events)))].target,
      WaitingTime(d, TotalRate(events))))
  {
    CumulativeNonNegative(events, |events|);
    DrawBounds(d, TotalRate(events));
  }

  /** `AdvancedSucceeds` with the total, the scan point and the waiting time
      named, as the loop of `advance_state` computes them. */
  lemma AdvancedAt<S>(events: seq<Event<S>>, d: Draw, total: real, r: real, deltaT: real)
    requires NonNegative(events) && events != []
    requires total == TotalRate(events) && total != 0.0
    requires r == ScanPoint(d, total) && deltaT == WaitingTime(d, total)
    ensures 0.0 <= r < total
    ensures Advanced(events, d) == Ok(Step(events[SelectIndex(events, r)].target, deltaT))
  {
    CumulativeNonNegative(events, |events|);
    DrawBounds(d, total);
    assert Refusal(events) == None;
  }

  /** The picked index is exactly the first event whose cumulative rate
      strictly exceeds `r`: no other index qualifies. */
  lemma SelectIndexCharacterised<S>(events: seq<Event<S>>, r: real, k: nat)
    requires events != [] && 0.0 <= r < TotalRate(events)
    ensures FirstAbove(events, r, k) <==> k == SelectIndex(events, r)
  {
    if FirstAbove(events, r, k) {
      FirstAboveUnique(events, r, k, SelectIndex(events, r));
    }
  }

  /** Every event of positive rate leads to a state satisfying `inv`. */
  predicate TargetsKeep<S>(events: seq<Event<S>>, inv: S -> bool)
  {
    forall i :: 0 <= i < |events| && events[i].rate > 0.0 ==> inv(events[i].target)
  }

  /** A particle, given by its `events` function, is well formed on the
      states satisfying `inv`: there its events are defined, their rates are
      non-negative and every event that can be taken keeps `inv`. */
  ghost predicate WellFormed<S(!new)>(events: S --> seq<Event<S>>, inv: S -> bool)
  {
    forall s :: inv(s) ==> events.requires(s) && NonNegative(events(s)) && TargetsKeep(events(s), inv)
  }

  /** A successful step of a well-formed particle stays among the `inv` states. */
  lemma AdvancedKeeps<S>(events: seq<Event<S>>, inv: S -> bool, d: Draw)
    requires NonNegative(events) && TargetsKeep(events, inv)
    requires Advanced(events, d).Ok?
    ensures inv(Advanced(events, d).value.target)
  {
    AdvancedFails(events, d);
    AdvancedSucceeds(events, d);
  }

  /** `advance_state`: refuse an empty list or a zero total rate, draw the
      waiting time and the scan point, and take the target of the event the
      scan stops at. */
  method AdvanceState<S>(events: seq<Event<S>>, d: Draw) returns (res: Result<Step<S>, Error>)
    requires NonNegative(events)
    ensures res == Advanced(events, d)
  {
    if |events| == 0 {
      return Err(NoEvents);
    }
    var total := TotalRate(events);
    if total == 0.0 {
      return Err(ZeroTotalRate);
    }
    var deltaT := WaitingTime(d, total);
    var r := ScanPoint(d, total);
    AdvancedAt(events, d, total, r, deltaT);
    var k := Scan(events, r);
    return Ok(Step(events[k].target, deltaT));
  }

  /** The loop of `advance_state`: accumulate the rates left to right and
      stop at the first event whose running sum exceeds `r`. */
  method Scan<S>(events: seq<Event<S>>, r: real) returns (k: nat)
    requires NonNegative(events) && events != [] && 0.0 <= r < TotalRate(events)
    ensures k == SelectIndex(events, r)
  {
    var cumulative := 0.0;
    var i := 0;
    while i < |events|
      invariant 0 <= i <= |events|
      invariant cumulative == Cumulative(events, i)
      invariant forall j :: 1 <= j <= i ==> Cumulative(events, j) <= r
      invariant cumulative <= r
    {
      cumulative := cumulative + events[i].rate;
      if cumulative > r {
        assert FirstAbove(events, r, i);
        FirstAboveUnique(events, r, i, SelectIndex(events, r));
        return i;
      }
      i := i + 1;
    }
    // `unreachable_unchecked` in the source: the scan always returns.
    assert false;
  }
}
