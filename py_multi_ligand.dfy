/** The Python multi-ligand particle of
    `src/indecision/particle/multi_ligand.py`: a birth-death chain on the
    number of attached ligands, with one `(on, off)` rate pair per step. */
module PyMultiLigand {
  import opened Wrappers
  import opened Particle
  import opened PyParticle

  /** `MultiLigandState`; its default has no ligand attached. */
  datatype MultiLigandState = MultiLigandState(attachedLigands: int)

  const DefaultState: MultiLigandState := MultiLigandState(0)

  /** `attach`: one more ligand attached. */
  function Attach(s: MultiLigandState): (t: MultiLigandState)
    ensures t.attachedLigands == s.attachedLigands + 1
  {
    MultiLigandState(s.attachedLigands + 1)
  }

  /** `detach`: one ligand fewer attached. */
  function Detach(s: MultiLigandState): (t: MultiLigandState)
    ensures t.attachedLigands == s.attachedLigands - 1
  {
    MultiLigandState(s.attachedLigands - 1)
  }

  /** `rates[c]` holds the rate of attaching from `c` to `c + 1` and the rate
      of detaching from `c + 1` to `c`. `receptor_density` is stored but no
      rate uses it. */
  datatype MultiLigandParticle = MultiLigandParticle(receptorDensity: real, rates: seq<(real, real)>)

  /** The documented range of `attached_ligands`. */
  predicate InRange(p: MultiLigandParticle, s: MultiLigandState)
  {
    0 <= s.attachedLigands <= |p.rates|
  }

  /** `events`: attach while fewer than `len(rates)` ligands are attached,
      then detach while any is. */
  function Events(p: MultiLigandParticle, s: MultiLigandState): (es: seq<PyEvent<MultiLigandState>>)
    requires InRange(p, s)
    ensures var c := s.attachedLigands;
      |es| == (if c < |p.rates| then 1 else 0) + (if c > 0 then 1 else 0)
    ensures var c := s.attachedLigands;
      c < |p.rates| ==> es[0] == PyEvent(p.rates[c].0, Attach)
    ensures var c := s.attachedLigands;
      c > 0 ==> es[|es| - 1] == PyEvent(p.rates[c - 1].1, Detach)
  {
    var c := s.attachedLigands;
    (if c < |p.rates| then [PyEvent(p.rates[c].0, Attach)] else [])
    + (if c > 0 then [PyEvent(p.rates[c - 1].1, Detach)] else [])
  }

  /** The rates do not depend on `receptor_density`. */
  lemma EventsIgnoreDensity(p: MultiLigandParticle, s: MultiLigandState, density: real)
    requires InRange(p, s)
    ensures Events(p.(receptorDensity := density), s) == Events(p, s)
  {
  }

  /** Every event offered in range leads back into range: attach is offered
      only below `len(rates)` and detach only above zero. */
  lemma EventsClosed(p: MultiLigandParticle)
    ensures Closed(s requires InRange(p, s) => Events(p, s), s => InRange(p, s))
  {
    forall s | InRange(p, s)
      ensures forall i :: 0 <= i < |Events(p, s)| ==> InRange(p, Events(p, s)[i].transition(s))
    {
      var es := Events(p, s);
      forall i | 0 <= i < |es|
        ensures InRange(p, es[i].transition(s))
      {
        if s.attachedLigands < |p.rates| && i == 0 {
          assert es[i].transition == Attach;
        } else {
          assert es[i].transition == Detach;
        }
      }
    }
  }

  /** Whatever the rates and the draw, a step from a state in range ends in
      range: `attached_ligands` stays between `0` and `len(rates)`. */
  lemma StepStaysInRange(p: MultiLigandParticle, s: MultiLigandState, d: Draw)
    requires InRange(p, s)
    requires Applied(Events(p, s), s, d).Ok?
    ensures InRange(p, Applied(Events(p, s), s, d).value.0)
  {
    EventsClosed(p);
    AppliedKeeps(s requires InRange(p, s) => Events(p, s), s => InRange(p, s), s, d);
  }
}
