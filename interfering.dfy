/** The interfering particle of `rust/src/particle/interfering.rs`: a
    multi-valent particle whose attached ligands hinder it from entering the
    host. Entering or losing the last ligand is final. */
module InterferingParticle {
  import opened Wrappers
  import opened Particle
  import opened Powers

  /** `attached_ligands` is a `u16` in the source; the documented invariant
      is that `has_entered` and `has_exited` are never both set. */
  datatype InterferingState = InterferingState(hasEntered: bool, hasExited: bool, attachedLigands: nat)

  /** Whether the particle counts as attached (the `Attach` trait): it does
      once it has entered the host. */
  function IsAttached(s: InterferingState): (b: bool)
    ensures b <==> s.hasEntered
  {
    s.hasEntered
  }

  /** Flips `has_entered`; nothing else changes. */
  function ToggleEntered(s: InterferingState): (t: InterferingState)
    ensures t.hasEntered != s.hasEntered
    ensures t.hasExited == s.hasExited && t.attachedLigands == s.attachedLigands
  {
    s.(hasEntered := !s.hasEntered)
  }

  /** One more ligand attached; nothing else changes. */
  function Bind(s: InterferingState): (t: InterferingState)
    ensures t.attachedLigands == s.attachedLigands + 1
    ensures t.hasEntered == s.hasEntered && t.hasExited == s.hasExited
  {
    s.(attachedLigands := s.attachedLigands + 1)
  }

  /** One ligand fewer attached; losing the last one means the particle has
      exited. The source's `u16` subtraction would underflow at zero. */
  function Unbind(s: InterferingState): (t: InterferingState)
    requires s.attachedLigands > 0
    ensures t.attachedLigands + 1 == s.attachedLigands
    ensures t.hasEntered == s.hasEntered
    ensures t.hasExited <==> s.hasExited || s.attachedLigands == 1
  {
    if s.attachedLigands == 1 then s.(attachedLigands := 0, hasExited := true)
    else s.(attachedLigands := s.attachedLigands - 1)
  }

  /** The particle's parameters; `initialCollisionFactor` is stored but the
      events do not use it. */
  datatype Interfering = Interfering(
    totalLigands: nat,
    attachmentRate: real,
    deattachmentRate: real,
    enterRate: real,
    initialCollisionFactor: real,
    obstructionFactor: real,
    receptorDensity: real)

  /** `free_ligands`: the ligands not attached. The source's `u16`
      subtraction would underflow if more were attached than exist. */
  function FreeLigands(p: Interfering, s: InterferingState): (n: nat)
    requires s.attachedLigands <= p.totalLigands
    ensures n + s.attachedLigands == p.totalLigands
  {
    p.totalLigands - s.attachedLigands
  }

  /** A particle that has entered or exited does nothing more. */
  predicate IsAbsorbing(s: InterferingState)
  {
    s.hasEntered || s.hasExited
  }

  /** The enter rate with `a > 0` ligands attached: each further ligand
      multiplies it by the obstruction factor. */
  function EnterRate(p: Interfering, a: nat): real
    requires a > 0
  {
    a as real * p.enterRate * Pow(p.obstructionFactor, a - 1)
  }

  /** The bind rate: proportional to the free ligands. */
  function BindRate(p: Interfering, s: InterferingState): real
    requires s.attachedLigands <= p.totalLigands
  {
    FreeLigands(p, s) as real * p.attachmentRate * p.receptorDensity
  }

  /** `events`: an absorbing state has a single zero-rate self-loop;
      otherwise enter and unbind (when a ligand is attached), then bind. */
  function Events(p: Interfering, s: InterferingState): (es: seq<Event<InterferingState>>)
    requires IsAbsorbing(s) || s.attachedLigands <= p.totalLigands
    ensures IsAbsorbing(s) ==> es == [Event(0.0, s)]
    ensures !IsAbsorbing(s) ==> |es| == if s.attachedLigands > 0 then 3 else 1
    ensures !IsAbsorbing(s) ==> es[|es| - 1] == Event(BindRate(p, s), Bind(s))
    ensures !IsAbsorbing(s) && s.attachedLigands > 0 ==>
      && es[0] == Event(EnterRate(p, s.attachedLigands), ToggleEntered(s))
      && es[1] == Event(s.attachedLigands as real * p.deattachmentRate, Unbind(s))
  {
    if IsAbsorbing(s) then [Event(0.0, s)]
    else
      var a := s.attachedLigands;
      (if a > 0 then
         [Event(EnterRate(p, a), ToggleEntered(s)),
          Event(a as real * p.deattachmentRate, Unbind(s))]
       else [])
      + [Event(BindRate(p, s), Bind(s))]
  }

  /** `new_state`: nothing attached, not entered, not exited. */
  function NewState(p: Interfering): (s: InterferingState)
    ensures s.attachedLigands == 0 && !s.hasEntered && !s.hasExited
  {
    InterferingState(false, false, 0)
  }

  /** The states a particle can reach: never both entered and exited, and no
      more ligands attached than it has. */
  predicate Invariant(p: Interfering, s: InterferingState)
  {
    !(s.hasEntered && s.hasExited) && s.attachedLigands <= p.totalLigands
  }

  /** An absorbing state cannot advance: its only rate is zero. */
  lemma AbsorbingStuck(p: Interfering, s: InterferingState, d: Draw)
    requires IsAbsorbing(s)
    ensures NonNegative(Events(p, s))
    ensures Advanced(Events(p, s), d) == Err(ZeroTotalRate)
  {
    var es := Events(p, s);
    assert TotalRate(es) == Cumulative(es, 0) + es[0].rate;
    AdvancedFails(es, d);
  }

  /** No event out of a non-absorbing state sets both flags, whatever its
      rate: entering leaves `has_exited` unset and unbinding leaves
      `has_entered` unset. */
  lemma NeverEnteredAndExited(p: Interfering, s: InterferingState)
    requires !IsAbsorbing(s) && s.attachedLigands <= p.totalLigands
    ensures forall e :: e in Events(p, s) ==> !(e.target.hasEntered && e.target.hasExited)
  {
  }

  predicate NonNegativeParameters(p: Interfering)
  {
    && 0.0 <= p.attachmentRate && 0.0 <= p.deattachmentRate && 0.0 <= p.enterRate
    && 0.0 <= p.obstructionFactor && 0.0 <= p.receptorDensity
  }

  /** With non-negative parameters every rate is non-negative, and every
      event that can be taken keeps the invariant: the bind rate is zero
      exactly when no ligand is free. */
  lemma EventsKeepInvariant(p: Interfering, s: InterferingState)
    requires NonNegativeParameters(p)
    requires Invariant(p, s)
    ensures NonNegative(Events(p, s))
    ensures TargetsKeep(Events(p, s), t => Invariant(p, t))
  {
    var es := Events(p, s);
    if !IsAbsorbing(s) {
      var a := s.attachedLigands;
      assert 0.0 <= FreeLigands(p, s) as real * p.attachmentRate;
      if a > 0 {
        PowNonNegative(p.obstructionFactor, a - 1);
        assert 0.0 <= a as real * p.enterRate;
        assert 0.0 <= a as real * p.deattachmentRate;
      }
      if BindRate(p, s) > 0.0 {
        assert FreeLigands(p, s) != 0;
      }
    }
  }

  /** With non-negative parameters the particle is well formed on the states
      satisfying the invariant. */
  lemma EventsWellFormed(p: Interfering)
    requires NonNegativeParameters(p)
    ensures WellFormed(s requires IsAbsorbing(s) || s.attachedLigands <= p.totalLigands => Events(p, s),
                       s => Invariant(p, s))
  {
    forall s | Invariant(p, s)
      ensures NonNegative(Events(p, s)) && TargetsKeep(Events(p, s), t => Invariant(p, t))
    {
      EventsKeepInvariant(p, s);
    }
  }

  /** The states with both flags fixed and `attached_ligands` in `0..n`,
      ascending. */
  function Block(entered: bool, exited: bool, n: nat): (b: seq<InterferingState>)
    ensures |b| == n
  {
    if n == 0 then [] else Block(entered, exited, n - 1) + [InterferingState(entered, exited, n - 1)]
  }

  /** The states with `has_entered` fixed: `has_exited` true, then false. */
  function EnteredHalf(entered: bool, total: nat): (ss: seq<InterferingState>)
    ensures |ss| == 2 * (total + 1)
  {
    Block(entered, true, total + 1) + Block(entered, false, total + 1)
  }

  /** The enumeration order of `states`: `has_entered` true then false, within
      it `has_exited` true then false, within it every attached count. */
  function StateSpace(total: nat): (ss: seq<InterferingState>)
    ensures |ss| == 4 * (total + 1)
  {
    EnteredHalf(true, total) + EnteredHalf(false, total)
  }

  lemma {:induction false} BlockMembers(entered: bool, exited: bool, n: nat, s: InterferingState)
    ensures s in Block(entered, exited, n) <==>
      s.hasEntered == entered && s.hasExited == exited && s.attachedLigands < n
  {
    if n > 0 {
      BlockMembers(entered, exited, n - 1, s);
    }
  }

  /** The enumeration lists every state with at most `total` ligands
      attached, whatever its flags, and nothing else. */
  lemma StateSpaceMembers(total: nat, s: InterferingState)
    ensures s in StateSpace(total) <==> s.attachedLigands <= total
  {
    BlockMembers(s.hasEntered, s.hasExited, total + 1, s);
    BlockMembers(!s.hasEntered, s.hasExited, total + 1, s);
    BlockMembers(s.hasEntered, !s.hasExited, total + 1, s);
    BlockMembers(!s.hasEntered, !s.hasExited, total + 1, s);
  }

  /** `states`: the three nested loops of the source, the two inner ones
      in `AppendHalf` and `AppendBlock`. */
  method States(p: Interfering) returns (out: seq<InterferingState>)
    ensures out == StateSpace(p.totalLigands)
  {
    var total := p.totalLigands;
    var flags := [true, false];
    out := [];
    for i := 0 to 2
      invariant out == (if i == 0 then [] else EnteredHalf(true, total))
        + (if i < 2 then [] else EnteredHalf(false, total))
    {
      out := AppendHalf(out, flags[i], total);
    }
  }

  /** The middle loop: the states with `has_entered` fixed pushed onto `prefix`. */
  method AppendHalf(prefix: seq<InterferingState>, hasEntered: bool, total: nat) returns (out: seq<InterferingState>)
    ensures out == prefix + EnteredHalf(hasEntered, total)
  {
    var flags := [true, false];
    out := prefix;
    for j := 0 to 2
      invariant out == prefix
        + (if j == 0 then [] else Block(hasEntered, true, total + 1))
        + (if j < 2 then [] else Block(hasEntered, false, total + 1))
    {
      out := AppendBlock(out, hasEntered, flags[j], total + 1);
    }
    assert out == prefix + (Block(hasEntered, true, total + 1) + Block(hasEntered, false, total + 1));
  }

  /** The inner loop: the states with both flags fixed and `attached_ligands`
      in `0..n` pushed onto `prefix`. */
  method AppendBlock(prefix: seq<InterferingState>, hasEntered: bool, hasExited: bool, n: nat)
    returns (out: seq<InterferingState>)
    ensures out == prefix + Block(hasEntered, hasExited, n)
  {
    out := prefix;
    for attached := 0 to n
      invariant out == prefix + Block(hasEntered, hasExited, attached)
    {
      out := out + [InterferingState(hasEntered, hasExited, attached)];
    }
  }
}
