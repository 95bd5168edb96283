/** The earlier Python particle of `src/particle.py`: each particle carries its
    own state and offers an attach (`on_rate`) and a detach (`off_rate`)
    rate; its `advance_state` is not written yet and always raises. */
module LegacyParticle {
  import opened Wrappers
  import opened PyLists
  import PyMultiLigand

  /** The ways the rate functions and `advance_state` raise. */
  datatype LegacyError =
    | TooManyAttached   // the sanity check of `MultiLigandParticle.on_rate`
    | IndexError        // a rates lookup outside the list
    | NotImplemented    // `advance_state`

  /** `Particle.advance_state`: raises whatever the particle. */
  method AdvanceState() returns (r: Result<real, LegacyError>)
    ensures r == Err(NotImplemented)
  {
    return Err(NotImplemented);
  }

  datatype OneLigandParticle = OneLigandParticle(isAttached: bool, on: real, off: real)

  /** `on_rate`: `on` while detached, zero once attached. */
  function OneOnRate(p: OneLigandParticle): (rate: real)
    ensures p.isAttached ==> rate == 0.0
    ensures !p.isAttached ==> rate == p.on
  {
    if p.isAttached then 0.0 else p.on
  }

  /** `off_rate`: `off` while attached, zero while detached. */
  function OneOffRate(p: OneLigandParticle): (rate: real)
    ensures p.isAttached ==> rate == p.off
    ensures !p.isAttached ==> rate == 0.0
  {
    if p.isAttached then p.off else 0.0
  }

  /** At most one direction is open: the particle can only attach while
      detached and only detach while attached. */
  lemma OneDirectionOnly(p: OneLigandParticle)
    ensures OneOnRate(p) == 0.0 || OneOffRate(p) == 0.0
    ensures OneOnRate(p.(isAttached := false)) == p.on && OneOffRate(p.(isAttached := true)) == p.off
  {
  }

  /** `attached_ligands` is annotated `bool` but used as an integer; `off`
      is stored and never read. */
  datatype MultiLigandParticle = MultiLigandParticle(attachedLigands: int, rates: seq<(real, real)>, off: real)

  /** `on_rate`: zero once every step is taken, an error beyond that, and
      otherwise the attach rate of the current step (a negative count indexes
      from the end, as Python lists do). */
  function MultiOnRate(p: MultiLigandParticle): (rate: Result<real, LegacyError>)
    ensures var c := p.attachedLigands;
      && (c > |p.rates| ==> rate == Err(TooManyAttached))
      && (c == |p.rates| ==> rate == Ok(0.0))
      && (0 <= c < |p.rates| ==> rate == Ok(p.rates[c].0))
      && (-|p.rates| <= c < 0 ==> rate == Ok(p.rates[|p.rates| + c].0))
      && (c < -|p.rates| ==> rate == Err(IndexError))
  {
    var c := p.attachedLigands;
    if c >= |p.rates| then
      if c > |p.rates| then Err(TooManyAttached) else Ok(0.0)
    else
      match PyIndex(p.rates, c)
      case None => Err(IndexError)
      case Some(pair) => Ok(pair.0)
  }

  /** `off_rate`: zero with no ligand attached, otherwise the detach rate of
      the step below; beyond the last step the lookup fails. */
  function MultiOffRate(p: MultiLigandParticle): (rate: Result<real, LegacyError>)
    ensures var c := p.attachedLigands;
      && (c <= 0 ==> rate == Ok(0.0))
      && (0 < c <= |p.rates| ==> rate == Ok(p.rates[c - 1].1))
      && (c > |p.rates| ==> rate == Err(IndexError))
  {
    var c := p.attachedLigands;
    if c <= 0 then Ok(0.0)
    else
      match PyIndex(p.rates, c - 1)
      case None => Err(IndexError)
      case Some(pair) => Ok(pair.1)
  }

  /** In range the two rates are those of the attach and detach events of
      the later multi-ligand particle with the same rates: zero exactly where
      that particle offers no such event. */
  lemma MultiRatesMatchEvents(p: MultiLigandParticle, receptorDensity: real)
    requires 0 <= p.attachedLigands <= |p.rates|
    ensures var q := PyMultiLigand.MultiLigandParticle(receptorDensity, p.rates);
      var s := PyMultiLigand.MultiLigandState(p.attachedLigands);
      var es := PyMultiLigand.Events(q, s);
      && MultiOnRate(p) == Ok(if p.attachedLigands < |p.rates| then es[0].rate else 0.0)
      && MultiOffRate(p) == Ok(if p.attachedLigands > 0 then es[|es| - 1].rate else 0.0)
  {
  }
}
