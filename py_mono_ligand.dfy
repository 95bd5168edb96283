/** The Python mono-ligand particle of
    `src/indecision/particle/mono_ligand.py`: one ligand that is either
    attached or not, toggled by its only event. */
module PyMonoLigand {
  import opened Wrappers
  import opened Particle
  import opened PyParticle
  import Rust = MonoLigandParticle

  /** `MonoLigandState`; its default is unattached. */
  datatype MonoLigandState = MonoLigandState(isAttached: bool)

  const DefaultState: MonoLigandState := MonoLigandState(false)

  /** `toggle`: flips `is_attached`. */
  function Toggle(s: MonoLigandState): (t: MonoLigandState)
    ensures t.isAttached == !s.isAttached
  {
    MonoLigandState(!s.isAttached)
  }

  /** Toggling twice restores the state. */
  lemma ToggleInvolution(s: MonoLigandState)
    ensures Toggle(Toggle(s)) == s
  {
  }

  datatype MonoLigandParticle = MonoLigandParticle(
    receptorDensity: real,
    bindingStrength: real,
    onRate: real,
    offRate: real)

  /** `events`: one toggle event. Detaching happens at `off_rate *
      binding_strength` (the Rust particle detaches at `off_rate` alone);
      attaching at `on_rate * receptor_density * binding_strength`. */
  function Events(p: MonoLigandParticle, s: MonoLigandState): (es: seq<PyEvent<MonoLigandState>>)
    ensures |es| == 1 && es[0].transition == Toggle
    ensures s.isAttached ==> es[0].rate == p.offRate * p.bindingStrength
    ensures !s.isAttached ==> es[0].rate == p.onRate * p.receptorDensity * p.bindingStrength
  {
    if s.isAttached then [PyEvent(p.offRate * p.bindingStrength, Toggle)]
    else [PyEvent(p.onRate * p.receptorDensity * p.bindingStrength, Toggle)]
  }

  /** A step with a positive rate always toggles, and waits
      `exposure / rate`; a zero rate is refused. */
  lemma StepToggles(p: MonoLigandParticle, s: MonoLigandState, d: Draw)
    ensures var es := Events(p, s);
      && (es[0].rate == 0.0 <==> Applied(es, s, d) == Err(ZeroTotalRate))
      && (es[0].rate > 0.0 ==> Applied(es, s, d) == Ok((Toggle(s), d.exposure / es[0].rate)))
  {
    var es := Events(p, s);
    assert es == [es[0]];
    SingleEventRefused(es[0], s, d);
    if es[0].rate > 0.0 {
      SingleEventFires(es[0], s, d);
    }
  }

  /** The same parameters give the Rust particle's attach rate, and its
      detach rate scaled by `binding_strength`. */
  lemma RatesAgainstRust(p: MonoLigandParticle, s: MonoLigandState)
    ensures var q := Rust.MonoLigand(p.receptorDensity, p.bindingStrength, p.onRate, p.offRate);
      var rust := Rust.ToggleRate(q, Rust.MonoLigandState(s.isAttached));
      Events(p, s)[0].rate == if s.isAttached then rust * p.bindingStrength else rust
  {
  }

  /** Every state is admitted: the particle can be held by a
      `ParticleInstance` starting from the default state. */
  lemma EventsClosed(p: MonoLigandParticle)
    ensures Closed(s => Events(p, s), s => true)
  {
  }
}
