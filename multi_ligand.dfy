/** The multi-ligand particle of `rust/src/particle/multi_ligand.rs`: a
    birth–death chain on the number of attached ligands, `0..=total`. */
module MultiLigandParticle {
  import opened Wrappers
  import opened Particle

  /** `total_ligands` and `attached_ligands` are `u16` in the source; the
      documented invariant is `attached_ligands <= total_ligands`. */
  datatype MultiLigandState = MultiLigandState(totalLigands: nat, attachedLigands: nat)

  /** Whether the particle counts as attached (the `Attach` trait). */
  function IsAttached(s: MultiLigandState): (b: bool)
    ensures b <==> s.attachedLigands != 0
  {
    s.attachedLigands > 0
  }

  /** One more ligand attached. */
  function Bind(s: MultiLigandState): (t: MultiLigandState)
    ensures t.attachedLigands == s.attachedLigands + 1
    ensures t.totalLigands == s.totalLigands
  {
    s.(attachedLigands := s.attachedLigands + 1)
  }

  /** One ligand fewer attached; the source's `u16` subtraction would
      underflow at zero. */
  function Unbind(s: MultiLigandState): (t: MultiLigandState)
    requires s.attachedLigands > 0
    ensures t.attachedLigands + 1 == s.attachedLigands
    ensures t.totalLigands == s.totalLigands
  {
    s.(attachedLigands := s.attachedLigands - 1)
  }

  /** Binding and unbinding undo each other. */
  lemma BindUnbind(s: MultiLigandState)
    ensures Unbind(Bind(s)) == s
    ensures s.attachedLigands > 0 ==> Bind(Unbind(s)) == s
  {
  }

  /** `on_rates[c]` is the rate of going from `c` to `c + 1` attached
      ligands and `off_rates[c]` from `c + 1` to `c`. */
  datatype MultiLigand = MultiLigand(
    receptorDensity: real,
    bindingStrength: real,
    onRates: seq<real>,
    offRates: seq<real>)

  datatype ConstructionError = LengthMismatch

  /** The constructor: refuses rate lists of different lengths. */
  function New(receptorDensity: real, bindingStrength: real, onRates: seq<real>, offRates: seq<real>)
    : (r: Result<MultiLigand, ConstructionError>)
    ensures r.Err? <==> |onRates| != |offRates|
    ensures r.Ok? ==> r.value.onRates == onRates && r.value.offRates == offRates
    ensures r.Ok? ==> r.value.receptorDensity == receptorDensity && r.value.bindingStrength == bindingStrength
  {
    if |onRates| != |offRates| then Err(LengthMismatch)
    else Ok(MultiLigand(receptorDensity, bindingStrength, onRates, offRates))
  }

  const U16_MODULUS: nat := 0x1_0000

  /** `total_ligands`: the number of rate pairs, cast to `u16` (the cast
      truncates). The source asserts that both lists have the same length. */
  function TotalLigands(p: MultiLigand): (n: nat)
    requires |p.onRates| == |p.offRates|
    ensures n <= |p.onRates| && n < U16_MODULUS
    ensures |p.onRates| < U16_MODULUS ==> n == |p.onRates|
  {
    |p.onRates| % U16_MODULUS
  }

  /** The documented state invariant, for the particle's own ligand count. */
  predicate Invariant(p: MultiLigand, s: MultiLigandState)
    requires |p.onRates| == |p.offRates|
  {
    s.totalLigands == TotalLigands(p) && s.attachedLigands <= s.totalLigands
  }

  /** The attach rate out of `c` attached ligands: `on_rates[c]` times the
      binding strength, and times the receptor density only for the first
      ligand. */
  function AttachRate(p: MultiLigand, c: nat): (rate: real)
    requires c < |p.onRates|
    ensures c == 0 ==> rate == p.onRates[0] * p.receptorDensity * p.bindingStrength
    ensures c != 0 ==> rate == p.onRates[c] * p.bindingStrength
  {
    p.onRates[c] * (if c == 0 then p.receptorDensity else 1.0) * p.bindingStrength
  }

  /** `events`: an attach event if a ligand is free, then a detach event if
      one is attached. The source indexes `off_rates[c - 1]`, which needs
      `c <= off_rates.len()`. */
  function Events(p: MultiLigand, s: MultiLigandState): (es: seq<Event<MultiLigandState>>)
    requires |p.onRates| == |p.offRates|
    requires s.attachedLigands <= |p.offRates|
    ensures var c := s.attachedLigands;
      |es| == (if c < TotalLigands(p) then 1 else 0) + (if c > 0 then 1 else 0)
    ensures s.attachedLigands < TotalLigands(p) ==>
      es[0] == Event(AttachRate(p, s.attachedLigands), Bind(s))
    ensures s.attachedLigands > 0 ==>
      es[|es| - 1] == Event(p.offRates[s.attachedLigands - 1], Unbind(s))
  {
    var c := s.attachedLigands;
    (if c < TotalLigands(p) then [Event(AttachRate(p, c), Bind(s))] else [])
    + (if c > 0 then [Event(p.offRates[c - 1], Unbind(s))] else [])
  }

  /** Each event moves one ligand, in or out, and keeps the total; together
      with the boundary rules this keeps the invariant, whatever the rates. */
  lemma EventsKeepInvariant(p: MultiLigand, s: MultiLigandState)
    requires |p.onRates| == |p.offRates|
    requires Invariant(p, s)
    ensures forall e :: e in Events(p, s) ==>
      && e.target.totalLigands == s.totalLigands
      && (e.target.attachedLigands == s.attachedLigands + 1 || e.target.attachedLigands + 1 == s.attachedLigands)
      && Invariant(p, e.target)
  {
  }

  /** Exactly one event at the two ends of the chain and two in between. */
  lemma EventsAtBoundaries(p: MultiLigand, s: MultiLigandState)
    requires |p.onRates| == |p.offRates|
    requires Invariant(p, s)
    ensures |Events(p, s)| <= 2
    ensures |Events(p, s)| == 2 <==> 0 < s.attachedLigands < TotalLigands(p)
    ensures |Events(p, s)| == 0 <==> TotalLigands(p) == 0
  {
  }

  /** `new_state`: nothing attached, the particle's own ligand count. */
  function NewState(p: MultiLigand): (s: MultiLigandState)
    requires |p.onRates| == |p.offRates|
    ensures Invariant(p, s) && !IsAttached(s)
  {
    MultiLigandState(TotalLigands(p), 0)
  }

  predicate NonNegativeParameters(p: MultiLigand)
  {
    && 0.0 <= p.receptorDensity && 0.0 <= p.bindingStrength
    && (forall i :: 0 <= i < |p.onRates| ==> 0.0 <= p.onRates[i])
    && (forall i :: 0 <= i < |p.offRates| ==> 0.0 <= p.offRates[i])
  }

  /** With non-negative parameters the particle is well formed on the states
      satisfying the invariant. */
  lemma EventsWellFormed(p: MultiLigand)
    requires |p.onRates| == |p.offRates|
    requires NonNegativeParameters(p)
    ensures WellFormed(s requires Invariant(p, s) => Events(p, s), s => Invariant(p, s))
  {
    forall s | Invariant(p, s)
      ensures NonNegative(Events(p, s))
      ensures TargetsKeep(Events(p, s), s => Invariant(p, s))
    {
      EventsKeepInvariant(p, s);
      var c := s.attachedLigands;
      if c < TotalLigands(p) {
        assert 0.0 <= p.onRates[c] * (if c == 0 then p.receptorDensity else 1.0);
      }
    }
  }

  /** `states`: one state per attached count `0..=total`, ascending; these
      are exactly the states satisfying the invariant. */
  method States(p: MultiLigand) returns (out: seq<MultiLigandState>)
    requires |p.onRates| == |p.offRates|
    ensures |out| == TotalLigands(p) + 1
    ensures forall i :: 0 <= i < |out| ==> out[i] == MultiLigandState(TotalLigands(p), i)
    ensures forall s :: s in out <==> Invariant(p, s)
  {
    var total := TotalLigands(p);
    out := [];
    for attached := 0 to total + 1
      invariant |out| == attached
      invariant forall i :: 0 <= i < attached ==> out[i] == MultiLigandState(total, i)
    {
      out := out + [MultiLigandState(total, attached)];
    }
    forall s | Invariant(p, s)
      ensures s in out
    {
      assert out[s.attachedLigands] == s;
    }
  }
}
