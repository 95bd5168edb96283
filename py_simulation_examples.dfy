/** A worked pass of `simulate` in `src/indecision/simulation/__init__.py`
    on one mono-ligand particle: when the particle falls due, the pending
    state is swapped in and at once advanced in place, so the snapshot never
    shows it. */
module PySimulationExamples {
  import opened Wrappers
  import opened Particle
  import opened PyParticle
  import opened PyMonoLigand
  import opened PySimulation

  const unit: MonoLigandParticle := MonoLigandParticle(1.0, 1.0, 1.0, 1.0)

  const free: MonoLigandState := MonoLigandState(false)
  const bound: MonoLigandState := MonoLigandState(true)

  /** Free now, bound pending at time 1: the pass at time 1 leaves the
      particle free again, with the free state pending at time 2; the bound
      state never appears in a snapshot. */
  lemma PendingStateSkipped()
    ensures var d: Draw := RawDraw(0.0, 1.0);
      TickUpTo(s => Events(unit, s), s => true, Lists([free], [bound], [1.0]), 1, [d], 1)
        == (Lists([free], [free], [2.0]), None)
  {
    var d: Draw := RawDraw(0.0, 1.0);
    var spec := s => Events(unit, s);
    var inv := (s: MonoLigandState) => true;
    EventsClosed(unit);
    var l := Lists([free], [bound], [1.0]);
    StepToggles(unit, bound, d);
    assert Applied(spec(bound), bound, d) == Ok((free, 1.0));
    assert TickUpTo(spec, inv, l, 1, [d], 0) == (l, None);
    assert Due(l, 1, 0);
    assert l.states[0 := bound][0 := free] == [free];
    assert l.nextStates[0 := free] == [free];
    assert l.transitionTimes[0 := 1.0 + 1.0] == [2.0];
    assert DueStep(spec, inv, l, 0, d) == (Lists([free], [free], [2.0]), None);
  }
}
