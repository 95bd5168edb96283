/** The earlier Python multi-ligand particle of `src/particle/multi_ligand.py`,
    as written: its `detach` adds a ligand instead of removing one. */
module LegacyMultiLigand {
  import opened Wrappers
  import opened PyLists
  import opened PyParticle
  import PyMultiLigand

  /** `MultiLigandState`; its default has no ligand attached. */
  datatype MultiLigandState = MultiLigandState(attachedLigands: int)

  /** `attach`: one more ligand attached. */
  function Attach(s: MultiLigandState): (t: MultiLigandState)
    ensures t.attachedLigands == s.attachedLigands + 1
  {
    MultiLigandState(s.attachedLigands + 1)
  }

  /** `detach` as written: it also adds one ligand. */
  function Detach(s: MultiLigandState): (t: MultiLigandState)
    ensures t.attachedLigands == s.attachedLigands + 1
  {
    MultiLigandState(s.attachedLigands + 1)
  }

  datatype MultiLigandParticle = MultiLigandParticle(receptorDensity: real, rates: seq<(real, real)>)

  /** `events`: an attach event while fewer than `len(rates)` ligands are
      attached, then a detach event while any is. A count beyond
      `len(rates)` makes the detach lookup fail (`IndexError`, here `None`);
      a negative count indexes the rates from the end. */
  function Events(p: MultiLigandParticle, s: MultiLigandState): (r: Option<seq<PyEvent<MultiLigandState>>>)
    ensures var c := s.attachedLigands;
      r.None? <==> c > |p.rates| || c < -|p.rates|
    ensures var c := s.attachedLigands;
      0 <= c <= |p.rates| ==>
        && r.Some?
        && |r.value| == (if c < |p.rates| then 1 else 0) + (if c > 0 then 1 else 0)
        && (c < |p.rates| ==> r.value[0] == PyEvent(p.rates[c].0, Attach))
        && (c > 0 ==> r.value[|r.value| - 1] == PyEvent(p.rates[c - 1].1, Detach))
  {
    var c := s.attachedLigands;
    var on: Option<seq<PyEvent<MultiLigandState>>> :=
      if c < |p.rates| then
        match PyIndex(p.rates, c)
        case None => None
        case Some(pair) => Some([PyEvent(pair.0, Attach)])
      else Some([]);
    var off: Option<seq<PyEvent<MultiLigandState>>> :=
      if c > 0 then
        match PyIndex(p.rates, c - 1)
        case None => None
        case Some(pair) => Some([PyEvent(pair.1, Detach)])
      else Some([]);
    if on.None? || off.None? then None else Some(on.value + off.value)
  }

  /** Detaching from a fully bound particle takes it past `len(rates)`
      ligands, where its next `events` call fails: the documented range
      `0..=len(rates)` is not kept. */
  lemma DetachLeavesRange(p: MultiLigandParticle)
    requires |p.rates| > 0
    ensures var full := MultiLigandState(|p.rates|);
      var es := Events(p, full);
      && es.Some? && |es.value| == 1
      && es.value[0].transition(full).attachedLigands == |p.rates| + 1
      && Events(p, es.value[0].transition(full)).None?
  {
  }

  /** With the decrementing `detach` of the later particle every event keeps
      the count in range (`PyMultiLigand.StepStaysInRange`); here only the
      detach event differs, and only in its transition. */
  lemma OnlyDetachDiffers(p: MultiLigandParticle, s: MultiLigandState)
    requires 0 <= s.attachedLigands <= |p.rates|
    ensures var es := Events(p, s).value;
      var later := PyMultiLigand.Events(PyMultiLigand.MultiLigandParticle(p.receptorDensity, p.rates),
                                        PyMultiLigand.MultiLigandState(s.attachedLigands));
      && |es| == |later|
      && forall i :: 0 <= i < |es| ==>
           && es[i].rate == later[i].rate
           && (es[i].transition(s).attachedLigands == s.attachedLigands + 1)
           && (later[i].transition(PyMultiLigand.MultiLigandState(s.attachedLigands)).attachedLigands
                 == s.attachedLigands + (if later[i].transition == PyMultiLigand.Detach then -1 else 1))
  {
  }
}
