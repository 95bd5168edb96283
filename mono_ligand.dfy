/** The mono-ligand particle of `rust/src/particle/mono_ligand.rs`: a single
    ligand that is either attached to a receptor or not. */
module MonoLigandParticle {
  import opened Wrappers
  import opened Particle

  datatype MonoLigandState = MonoLigandState(isAttached: bool)

  /** Whether the particle counts as attached (the `Attach` trait). */
  function IsAttached(s: MonoLigandState): (b: bool)
    ensures b <==> s == MonoLigandState(true)
  {
    s.isAttached
  }

  /** The state with the attachment flag flipped. */
  function Toggle(s: MonoLigandState): (t: MonoLigandState)
    ensures t.isAttached == !s.isAttached
  {
    MonoLigandState(!s.isAttached)
  }

  /** Toggling twice gives back the state. */
  lemma ToggleInvolution(s: MonoLigandState)
    ensures Toggle(Toggle(s)) == s
    ensures Toggle(s) != s
  {
  }

  datatype MonoLigand = MonoLigand(
    receptorDensity: real,
    bindingStrength: real,
    onRate: real,
    offRate: real)

  /** The rate of leaving `s`: `off_rate` when attached, otherwise
      `on_rate * receptor_density * binding_strength`. */
  function ToggleRate(p: MonoLigand, s: MonoLigandState): real
  {
    if s.isAttached then p.offRate else p.onRate * p.receptorDensity * p.bindingStrength
  }

  /** `events`: exactly one event, which toggles the state. */
  function Events(p: MonoLigand, s: MonoLigandState): (es: seq<Event<MonoLigandState>>)
    ensures |es| == 1
    ensures es[0].target == Toggle(s)
    ensures s.isAttached ==> es[0].rate == p.offRate
    ensures !s.isAttached ==> es[0].rate == p.onRate * p.receptorDensity * p.bindingStrength
  {
    [Event(ToggleRate(p, s), Toggle(s))]
  }

  /** `new_state`: a fresh particle is not attached. */
  function NewState(p: MonoLigand): (s: MonoLigandState)
    ensures !IsAttached(s)
  {
    MonoLigandState(false)
  }

  /** `states`: the attached state, then the unattached one, each once. */
  function States(p: MonoLigand): (ss: seq<MonoLigandState>)
    ensures |ss| == 2 && ss[0] != ss[1]
    ensures IsAttached(ss[0]) && !IsAttached(ss[1])
  {
    [MonoLigandState(true), MonoLigandState(false)]
  }

  /** `states` covers the whole state space. */
  lemma StatesComplete(p: MonoLigand, s: MonoLigandState)
    ensures s in States(p)
  {
    if s.isAttached {
      assert s == States(p)[0];
    } else {
      assert s == States(p)[1];
    }
  }

  predicate NonNegativeParameters(p: MonoLigand)
  {
    0.0 <= p.receptorDensity && 0.0 <= p.bindingStrength && 0.0 <= p.onRate && 0.0 <= p.offRate
  }

  /** With non-negative parameters the particle is well formed on every state. */
  lemma EventsWellFormed(p: MonoLigand)
    requires NonNegativeParameters(p)
    ensures WellFormed(s => Events(p, s), s => true)
  {
    forall s: MonoLigandState
      ensures NonNegative(Events(p, s))
    {
      if !s.isAttached {
        assert 0.0 <= p.onRate * p.receptorDensity;
      }
    }
  }

  /** A step always toggles the state, taking `exposure / rate`; it fails
      exactly when the single rate is zero. */
  lemma AdvanceToggles(p: MonoLigand, s: MonoLigandState, d: Draw)
    requires NonNegativeParameters(p)
    ensures NonNegative(Events(p, s))
    ensures Advanced(Events(p, s), d).Err? <==> ToggleRate(p, s) == 0.0
    ensures Advanced(Events(p, s), d).Ok? ==>
      Advanced(Events(p, s), d).value == Step(Toggle(s), d.exposure / ToggleRate(p, s))
  {
    EventsWellFormed(p);
    var es := Events(p, s);
    assert es == [Event(ToggleRate(p, s), Toggle(s))];
    assert TotalRate(es) == Cumulative(es, 0) + es[0].rate;
    AdvancedFails(es, d);
    if ToggleRate(p, s) != 0.0 {
      AdvancedSucceeds(es, d);
    }
  }
}
