/** The fatiguing particle of `rust/src/particle/fatiguing.rs` (a file the
    crate's module tree currently leaves out): like the interfering particle,
    but a ligand that unbinds becomes fatigued and binds again at its own,
    lower rate. */
module FatiguingParticle {
  import opened Wrappers
  import opened Particle
  import opened Powers

  /** The counts are `u16` in the source; the documented invariant is that
      `has_entered` and `has_exited` are never both set. */
  datatype FatiguingState = FatiguingState(
    hasEntered: bool,
    hasExited: bool,
    attachedLigands: nat,
    fatiguedLigands: nat)

  /** Whether the particle counts as attached (the `Attach` trait): it does
      once it has entered the host. */
  function IsAttached(s: FatiguingState): (b: bool)
    ensures b <==> s.hasEntered
  {
    s.hasEntered
  }

  /** Flips `has_entered`; nothing else changes. */
  function ToggleEntered(s: FatiguingState): (t: FatiguingState)
    ensures t.hasEntered != s.hasEntered
    ensures t.hasExited == s.hasExited
    ensures t.attachedLigands == s.attachedLigands && t.fatiguedLigands == s.fatiguedLigands
  {
    s.(hasEntered := !s.hasEntered)
  }

  /** A fresh ligand attaches; nothing else changes. */
  function BindRegular(s: FatiguingState): (t: FatiguingState)
    ensures t.attachedLigands == s.attachedLigands + 1
    ensures t.fatiguedLigands == s.fatiguedLigands
    ensures t.hasEntered == s.hasEntered && t.hasExited == s.hasExited
  {
    s.(attachedLigands := s.attachedLigands + 1)
  }

  /** A fatigued ligand attaches again. The source's `u16` subtraction would
      underflow with no fatigued ligand. */
  function BindFatigued(s: FatiguingState): (t: FatiguingState)
    requires s.fatiguedLigands > 0
    ensures t.attachedLigands == s.attachedLigands + 1
    ensures t.fatiguedLigands + 1 == s.fatiguedLigands
    ensures t.hasEntered == s.hasEntered && t.hasExited == s.hasExited
  {
    s.(attachedLigands := s.attachedLigands + 1, fatiguedLigands := s.fatiguedLigands - 1)
  }

  /** A ligand unbinds: the last one means the particle has exited (and the
      ligand is not counted as fatigued); any other becomes fatigued. */
  function Unbind(s: FatiguingState): (t: FatiguingState)
    requires s.attachedLigands > 0
    ensures t.attachedLigands + 1 == s.attachedLigands
    ensures s.attachedLigands == 1 ==> t.fatiguedLigands == s.fatiguedLigands && t.hasExited
    ensures s.attachedLigands > 1 ==> t.fatiguedLigands == s.fatiguedLigands + 1 && t.hasExited == s.hasExited
    ensures t.hasEntered == s.hasEntered
  {
    if s.attachedLigands == 1 then s.(attachedLigands := 0, hasExited := true)
    else s.(attachedLigands := s.attachedLigands - 1, fatiguedLigands := s.fatiguedLigands + 1)
  }

  datatype Fatiguing = Fatiguing(
    totalLigands: nat,
    attachmentRate: real,
    fatiguedAttachmentRate: real,
    deattachmentRate: real,
    enterRate: real,
    initialCollisionFactor: real,
    obstructionFactor: real,
    fatiguedObstructionFactor: real,
    receptorDensity: real)

  /** `free_ligands`: the ligands neither fatigued nor attached. The source's
      `u16` subtractions would underflow otherwise. */
  function FreeLigands(p: Fatiguing, s: FatiguingState): (n: nat)
    requires s.attachedLigands + s.fatiguedLigands <= p.totalLigands
    ensures n + s.attachedLigands + s.fatiguedLigands == p.totalLigands
  {
    p.totalLigands - s.fatiguedLigands - s.attachedLigands
  }

  /** A particle that has entered or exited does nothing more. */
  predicate IsAbsorbing(s: FatiguingState)
  {
    s.hasEntered || s.hasExited
  }

  /** The first ligand to bind is slowed by the initial collision factor. */
  function CollisionFactor(p: Fatiguing, s: FatiguingState): (c: real)
    ensures s.attachedLigands == 0 ==> c == p.initialCollisionFactor
    ensures s.attachedLigands != 0 ==> c == 1.0
  {
    if s.attachedLigands == 0 then p.initialCollisionFactor else 1.0
  }

  /** The enter rate with `a > 0` ligands attached: each further attached
      ligand multiplies it by the obstruction factor, each fatigued one by the
      fatigued obstruction factor. */
  function EnterRate(p: Fatiguing, s: FatiguingState): real
    requires s.attachedLigands > 0
  {
    s.attachedLigands as real * p.enterRate
    * Pow(p.obstructionFactor, s.attachedLigands - 1)
    * Pow(p.fatiguedObstructionFactor, s.fatiguedLigands)
  }

  function UnbindRate(p: Fatiguing, s: FatiguingState): real
  {
    s.attachedLigands as real * p.deattachmentRate
  }

  function BindRegularRate(p: Fatiguing, s: FatiguingState): real
    requires s.attachedLigands + s.fatiguedLigands <= p.totalLigands
  {
    FreeLigands(p, s) as real * p.attachmentRate * p.receptorDensity * CollisionFactor(p, s)
  }

  function BindFatiguedRate(p: Fatiguing, s: FatiguingState): real
  {
    s.fatiguedLigands as real * p.fatiguedAttachmentRate * p.receptorDensity * CollisionFactor(p, s)
  }

  /** `events`: an absorbing state has a single zero-rate self-loop;
      otherwise enter and unbind (when a ligand is attached), bind a fresh
      ligand, and bind a fatigued one (when there is one), in that order. */
  function Events(p: Fatiguing, s: FatiguingState): (es: seq<Event<FatiguingState>>)
    requires IsAbsorbing(s) || s.attachedLigands + s.fatiguedLigands <= p.totalLigands
    ensures IsAbsorbing(s) ==> es == [Event(0.0, s)]
    ensures !IsAbsorbing(s) ==> var k := if s.attachedLigands > 0 then 2 else 0;
      && |es| == k + 1 + (if s.fatiguedLigands > 0 then 1 else 0)
      && es[k] == Event(BindRegularRate(p, s), BindRegular(s))
    ensures !IsAbsorbing(s) && s.attachedLigands > 0 ==>
      && es[0] == Event(EnterRate(p, s), ToggleEntered(s))
      && es[1] == Event(UnbindRate(p, s), Unbind(s))
    ensures !IsAbsorbing(s) && s.fatiguedLigands > 0 ==>
      es[|es| - 1] == Event(BindFatiguedRate(p, s), BindFatigued(s))
  {
    if IsAbsorbing(s) then [Event(0.0, s)]
    else
      (if s.attachedLigands > 0 then
         [Event(EnterRate(p, s), ToggleEntered(s)), Event(UnbindRate(p, s), Unbind(s))]
       else [])
      + [Event(BindRegularRate(p, s), BindRegular(s))]
      + (if s.fatiguedLigands > 0 then [Event(BindFatiguedRate(p, s), BindFatigued(s))] else [])
  }

  /** `new_state`: nothing attached or fatigued, not entered, not exited. */
  function NewState(p: Fatiguing): (s: FatiguingState)
    ensures s.attachedLigands == 0 && s.fatiguedLigands == 0
    ensures !s.hasEntered && !s.hasExited
  {
    FatiguingState(false, false, 0, 0)
  }

  /** The states a particle can reach: never both entered and exited, and no
      more ligands attached or fatigued than it has. */
  predicate Invariant(p: Fatiguing, s: FatiguingState)
  {
    !(s.hasEntered && s.hasExited) && s.attachedLigands + s.fatiguedLigands <= p.totalLigands
  }

  /** An absorbing state cannot advance: its only rate is zero. */
  lemma AbsorbingStuck(p: Fatiguing, s: FatiguingState, d: Draw)
    requires IsAbsorbing(s)
    ensures NonNegative(Events(p, s))
    ensures Advanced(Events(p, s), d) == Err(ZeroTotalRate)
  {
    var es := Events(p, s);
    assert TotalRate(es) == Cumulative(es, 0) + es[0].rate;
    AdvancedFails(es, d);
  }

  /** No event out of a non-absorbing state sets both flags, and only binding
      a fresh ligand or losing the last one changes how many ligands are
      attached or fatigued in all. */
  lemma EventsMoveLigands(p: Fatiguing, s: FatiguingState)
    requires !IsAbsorbing(s) && s.attachedLigands + s.fatiguedLigands <= p.totalLigands
    ensures forall e :: e in Events(p, s) ==> !(e.target.hasEntered && e.target.hasExited)
    ensures forall e :: e in Events(p, s) ==>
      var before := s.attachedLigands + s.fatiguedLigands;
      var after := e.target.attachedLigands + e.target.fatiguedLigands;
      || after == before
      || (e.target == BindRegular(s) && after == before + 1)
      || (s.attachedLigands == 1 && e.target == Unbind(s) && after + 1 == before)
  {
  }

  predicate NonNegativeParameters(p: Fatiguing)
  {
    && 0.0 <= p.attachmentRate && 0.0 <= p.fatiguedAttachmentRate && 0.0 <= p.deattachmentRate
    && 0.0 <= p.enterRate && 0.0 <= p.initialCollisionFactor && 0.0 <= p.obstructionFactor
    && 0.0 <= p.fatiguedObstructionFactor && 0.0 <= p.receptorDensity
  }

  /** With non-negative parameters every rate is non-negative, and every
      event that can be taken keeps the invariant: binding a fresh ligand has
      rate zero exactly when none is free. */
  lemma EventsKeepInvariant(p: Fatiguing, s: FatiguingState)
    requires NonNegativeParameters(p)
    requires Invariant(p, s)
    ensures NonNegative(Events(p, s))
    ensures TargetsKeep(Events(p, s), t => Invariant(p, t))
  {
    if !IsAbsorbing(s) {
      var a := s.attachedLigands;
      var f := s.fatiguedLigands;
      var c := CollisionFactor(p, s);
      assert 0.0 <= FreeLigands(p, s) as real * p.attachmentRate * p.receptorDensity;
      assert 0.0 <= f as real * p.fatiguedAttachmentRate * p.receptorDensity;
      if a > 0 {
        PowNonNegative(p.obstructionFactor, a - 1);
        PowNonNegative(p.fatiguedObstructionFactor, f);
        assert 0.0 <= a as real * p.enterRate * Pow(p.obstructionFactor, a - 1);
        assert 0.0 <= UnbindRate(p, s);
      }
      if BindRegularRate(p, s) > 0.0 {
        assert FreeLigands(p, s) != 0;
      }
    }
  }

  /** With non-negative parameters the particle is well formed on the states
      satisfying the invariant. */
  lemma EventsWellFormed(p: Fatiguing)
    requires NonNegativeParameters(p)
    ensures WellFormed(
      s requires IsAbsorbing(s) || s.attachedLigands + s.fatiguedLigands <= p.totalLigands => Events(p, s),
      s => Invariant(p, s))
  {
    forall s | Invariant(p, s)
      ensures NonNegative(Events(p, s)) && TargetsKeep(Events(p, s), t => Invariant(p, t))
    {
      EventsKeepInvariant(p, s);
    }
  }

  /** The four flag combinations for one pair of counts, in loop order. */
  function Quad(a: nat, f: nat): (q: seq<FatiguingState>)
    ensures |q| == 4
  {
    [FatiguingState(true, true, a, f), FatiguingState(true, false, a, f),
     FatiguingState(false, true, a, f), FatiguingState(false, false, a, f)]
  }

  /** `a` attached and `0..n` fatigued ligands. */
  function Column(a: nat, n: nat): (c: seq<FatiguingState>)
    ensures |c| == 4 * n
  {
    if n == 0 then [] else Column(a, n - 1) + Quad(a, n - 1)
  }

  /** Attached counts `0..m`, each with every fatigued count that fits. */
  function Grid(total: nat, m: nat): seq<FatiguingState>
    requires m <= total + 1
  {
    if m == 0 then [] else Grid(total, m - 1) + Column(m - 1, total - (m - 1) + 1)
  }

  /** The enumeration order of `states`. */
  function StateSpace(total: nat): seq<FatiguingState>
  {
    Grid(total, total + 1)
  }

  lemma {:induction false} GridLength(total: nat, m: nat)
    requires m <= total + 1
    ensures |Grid(total, m)| == 2 * m * (2 * total + 3 - m)
  {
    if m > 0 {
      var k := m - 1;
      GridLength(total, k);
      assert |Grid(total, m)| == |Grid(total, k)| + 4 * (total - k + 1);
      assert 2 * m * (2 * total + 3 - m) == 2 * k * (2 * total + 3 - k) + 4 * (total - k + 1);
    }
  }

  /** The triangle of counts times four flag combinations holds
      `2 (total + 1) (total + 2)` states. */
  lemma StateSpaceSize(total: nat)
    ensures |StateSpace(total)| == 2 * (total + 1) * (total + 2)
  {
    GridLength(total, total + 1);
  }

  lemma {:induction false} ColumnMembers(a: nat, n: nat, s: FatiguingState)
    ensures s in Column(a, n) <==> s.attachedLigands == a && s.fatiguedLigands < n
  {
    if n > 0 {
      ColumnMembers(a, n - 1, s);
      assert s in Quad(a, n - 1) <==> s.attachedLigands == a && s.fatiguedLigands == n - 1;
    }
  }

  lemma {:induction false} GridMembers(total: nat, m: nat, s: FatiguingState)
    requires m <= total + 1
    ensures s in Grid(total, m) <==>
      s.attachedLigands < m && s.attachedLigands + s.fatiguedLigands <= total
  {
    if m > 0 {
      var g, c := Grid(total, m - 1), Column(m - 1, total - (m - 1) + 1);
      GridMembers(total, m - 1, s);
      ColumnMembers(m - 1, total - (m - 1) + 1, s);
      assert Grid(total, m) == g + c;
      assert s in g + c <==> s in g || s in c;
    }
  }

  /** The enumeration lists every state whose attached and fatigued counts
      fit in the particle, whatever its flags, and nothing else. */
  lemma StateSpaceMembers(total: nat, s: FatiguingState)
    ensures s in StateSpace(total) <==> s.attachedLigands + s.fatiguedLigands <= total
  {
    GridMembers(total, total + 1, s);
  }

  /** `states`: the four nested loops of the source, the inner ones in
      `AppendColumn` and `AppendQuad`. */
  method States(p: Fatiguing) returns (out: seq<FatiguingState>)
    ensures out == StateSpace(p.totalLigands)
  {
    var total := p.totalLigands;
    out := [];
    for a := 0 to total + 1
      invariant out == Grid(total, a)
    {
      out := AppendColumn(out, a, total - a + 1);
    }
  }

  /** The loop over `fatigued_ligands` in `0..n` for `a` attached ligands,
      pushing onto `prefix`. */
  method AppendColumn(prefix: seq<FatiguingState>, a: nat, n: nat) returns (out: seq<FatiguingState>)
    ensures out == prefix + Column(a, n)
  {
    out := prefix;
    for f := 0 to n
      invariant out == prefix + Column(a, f)
    {
      out := AppendQuad(out, a, f);
    }
  }

  /** The two flag loops for one pair of counts, pushing onto `prefix`. */
  method AppendQuad(prefix: seq<FatiguingState>, a: nat, f: nat) returns (out: seq<FatiguingState>)
    ensures out == prefix + Quad(a, f)
  {
    var flags := [true, false];
    out := prefix;
    for i := 0 to 2
      invariant out == prefix + Quad(a, f)[..2 * i]
    {
      for j := 0 to 2
        invariant out == prefix + Quad(a, f)[..2 * i + j]
      {
        out := out + [FatiguingState(flags[i], flags[j], a, f)];
      }
    }
  }
}
