/** A worked timeline of a mono-ligand particle showing how two calls of
    `advance_until` interact in `rust/src/simulation/single.rs`: the second
    call schedules from the clock the first call reset to its target time,
    not from the pending transition, so the history goes back in time. */
module TimelineExamples {
  import opened Wrappers
  import opened Particle
  import opened MonoLigandParticle
  import opened SingleSimulation

  /** Unit rates everywhere. */
  const unit: MonoLigand := MonoLigand(1.0, 1.0, 1.0, 1.0)

  const free: MonoLigandState := MonoLigandState(false)
  const bound: MonoLigandState := MonoLigandState(true)

  /** `advance_until(1.0)` then `advance_until(3.0)` from a fresh simulation,
      with waiting times 2, 0.5 and 5: the second call pushes the transition
      pending at 2, then schedules the next one at 1 + 0.5 = 1.5, so the
      history's times are 0, 2, 1.5. */
  lemma SecondCallGoesBackInTime()
    ensures var events := s => Events(unit, s);
      var inv := (s: MonoLigandState) => true;
      var first := RunUntil(events, inv, Fresh(free, [RawDraw(0.0, 2.0), RawDraw(0.0, 0.5), RawDraw(0.0, 5.0)]), 1.0);
      && first.result.Ok?
      && first.after.time == 1.0 && first.after.next == Transition(2.0, bound)
      && var second := RunUntil(events, inv, first.after, 3.0);
      && second.result.Ok?
      && second.after.history == [Transition(0.0, free), Transition(2.0, bound), Transition(1.5, free)]
      && second.after.history[2].time < second.after.history[1].time
  {
    var events := s => Events(unit, s);
    var inv := (s: MonoLigandState) => true;
    EventsWellFormed(unit);
    var d0: Draw := RawDraw(0.0, 2.0);
    var d1: Draw := RawDraw(0.0, 0.5);
    var d2: Draw := RawDraw(0.0, 5.0);
    AdvanceToggles(unit, free, d0);
    AdvanceToggles(unit, bound, d1);
    AdvanceToggles(unit, free, d2);
    assert Advanced(events(free), d0) == Ok(Step(bound, 2.0));
    assert Advanced(events(bound), d1) == Ok(Step(free, 0.5));
    assert Advanced(events(free), d2) == Ok(Step(bound, 5.0));

    var tl0 := Fresh(free, [d0, d1, d2]);
    var tl1 := Timeline(Transition(2.0, bound), [Transition(0.0, free)], 2.0, [d1, d2]);
    assert tl0.entropy[1..] == [d1, d2];
    assert RunUntil(events, inv, tl1, 1.0) == Outcome(tl1.(time := 1.0), Ok(()));
    assert RunUntil(events, inv, tl0, 1.0) == Outcome(tl1.(time := 1.0), Ok(()));

    var h2 := [Transition(0.0, free), Transition(2.0, bound)];
    var tl2 := Timeline(Transition(1.5, free), h2, 1.5, [d2]);
    var h3 := h2 + [Transition(1.5, free)];
    var tl3 := Timeline(Transition(6.5, bound), h3, 6.5, []);
    assert RunUntil(events, inv, tl3, 3.0) == Outcome(tl3.(time := 3.0), Ok(()));
    assert [d1, d2][1..] == [d2];
    assert [d2][1..] == [];
    assert RunUntil(events, inv, tl2, 3.0) == RunUntil(events, inv, tl3, 3.0);
    var tl1' := tl1.(time := 1.0);
    assert tl1'.history + [tl1'.next] == h2;
    assert events(tl1'.next.target) == events(bound);
    assert 1.0 + 0.5 == 1.5;
    assert RunUntil(events, inv, tl1', 3.0) == RunUntil(events, inv, tl2, 3.0);
  }
}
