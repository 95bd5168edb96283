# indecision — a verified model of its Gillespie core

`indecision` simulates nano-particles (a virus, say) whose ligands bind to and
unbind from the receptors of a surface. Each particle kind describes its state
and, for every state, the *events* that can happen next: a rate and the state
the event leads to. The Gillespie direct method advances a state. It sums the
rates, draws an exponential waiting time with that total, and picks the first
event whose running sum of rates exceeds a uniform draw scaled by the total.
Simulations repeat this step and keep a timeline of transitions per particle.
Ensembles of particles are queried for their states at a time and for θ, the
fraction that is attached.

The repository has this core twice:

- Rust (`rust/src`):
  - four particle kinds: mono-ligand, multi-ligand, interfering and fatiguing;
  - the `Particle` trait's `event_probabilities` and `advance_state`;
  - `SimulationSingle`, one particle's timeline;
  - `Simulation`, an ensemble of timelines.
- Python (`src/indecision`, plus the older `src/particle.py` and
  `src/particle/multi_ligand.py`):
  - particles whose events carry an in-place transition;
  - an ensemble generator `simulate`;
  - a window-based `ConvergenceCriterion`.

This project models both in Dafny, one module per source file:

| module | models |
|---|---|
| `Particle` | the trait and its Gillespie step |
| `MonoLigandParticle`, `MultiLigandParticle`, `InterferingParticle`, `FatiguingParticle` | the Rust particle kinds |
| `SingleSimulation`, `ManySimulation` | the Rust simulations, as classes |
| `PyParticle` | the Python step |
| `PyMonoLigand`, `PyMultiLigand` | the Python particle kinds |
| `PyConvergence` | the convergence criterion |
| `PySimulation` | the Python generators |
| `LegacyParticle`, `LegacyMultiLigand` | the older Python particles |
| `PyLists` | Python's slice and index rules |
| `Powers` | exact powers |
| `Wrappers` | `Option` and `Result` |
| `TimelineExamples`, `PySimulationExamples` | worked runs that pin down two behaviours of the source |

How randomness is modelled:

- Each Gillespie step consumes one `Draw`.
- A `Draw` holds a uniform `fraction` in `[0, 1)` and a positive `exposure`.
- `exposure` stands for `-log2(u)` in Rust and `-ln(u)` in Python.
- The scan point is `fraction * total` and the waiting time is `exposure / total`.

The simulation loops are methods. Each is proved equal to a sequential
specification function: `RunUntil` and `RunAll` for Rust, `TickUpTo` for
Python. The properties are proved as lemmas about those functions.

Two behaviours of the source are pinned down by worked examples and are not
treated as defects:

- `TimelineExamples.SecondCallGoesBackInTime`: `advance_until` resets the
  clock to its target time. A later call therefore schedules from that clock
  rather than from the pending transition, and the history's times can
  decrease (0, 2, 1.5).
- `PySimulationExamples.PendingStateSkipped`: when a particle falls due,
  `simulate` swaps its pending state in and at once advances it in place, so
  the pending state never appears in a snapshot.

Where the code and its description differ, the model follows the code:

- The Python mono-ligand detach rate is `off_rate * binding_strength`, but the
  Rust one is `off_rate`. `PyMonoLigand.RatesAgainstRust` states the
  difference.
- `rust/src/particle/mod.rs` does not compile `fatiguing.rs` (its `mod` line
  is commented out). The model still covers it.

## Model

| member | source | states |
|---|---|---|
| Particle.ChooseWithin | rust/src/particle/mod.rs:76-83 | the scan over the first `n` events stops at the first event whose running sum of rates exceeds `r`; with `r >= 0` that event's rate is positive; no stop means every running sum is at most `r` |
| Particle.FirstAboveUnique | rust/src/particle/mod.rs:77-82 | at most one index is the first whose running sum exceeds `r`, so the chosen event is determined |
| Particle.Refusal | rust/src/particle/mod.rs:41-49 | the error is "no events" exactly when the list is empty and "total rate 0" exactly when it is non-empty with zero sum; otherwise there is none |
| Particle.EventProbabilities | rust/src/particle/mod.rs:40-59 | fails exactly on the two refusals with the same error; otherwise one pair per event, with the event's target and a probability that times the total gives the event's rate |
| Particle.ProbabilitiesSumToOne | rust/src/particle/mod.rs:53-56 | whenever `event_probabilities` succeeds, its probabilities sum to 1 |
| Particle.ChooseSome | rust/src/particle/mod.rs:76-92 | for `0 <= r < total` the scan always stops inside the list, so the fall-through is unreachable |
| Particle.DrawBounds | rust/src/particle/mod.rs:73-74 | the scan point lies in `[0, total)` and the waiting time is positive |
| Particle.SelectIndex | rust/src/particle/mod.rs:76-82 | the selected index is the first whose running sum exceeds `r`, and its rate is positive |
| Particle.SelectIndexCharacterised | rust/src/particle/mod.rs:77-82 | an index is the first above `r` if and only if it is the selected one |
| Particle.Advanced | rust/src/particle/mod.rs:62-93 | every successful step takes strictly positive time |
| Particle.AdvancedFails | rust/src/particle/mod.rs:62-71 | the step fails with "no events" exactly on an empty list and with "total rate 0" exactly on a zero sum, the same failures and errors as `event_probabilities` |
| Particle.AdvancedSucceeds | rust/src/particle/mod.rs:73-82 | otherwise the step goes to the target of the selected event after `exposure / total` |
| Particle.AdvancedKeeps | rust/src/particle/mod.rs:77-82 | if every positive-rate target keeps an invariant, so does the state a successful step goes to |
| Particle.AdvancedAt | rust/src/particle/mod.rs:68-82 | with the total, scan point and waiting time computed as the source does, the scan point lies in `[0, total)` and the step goes to the selected event's target after that waiting time |
| Particle.AdvanceState | rust/src/particle/mod.rs:62-93 | returns exactly the specified step: both refusals, and otherwise the scanned target after `exposure / total` |
| Particle.Scan | rust/src/particle/mod.rs:76-92 | the cumulative-rate loop returns the selected index, and its fall-through is proved unreachable |
| Powers.PowNonNegative | rust/src/particle/interfering.rs:114-118 | a power of a non-negative base is non-negative |
| MonoLigandParticle.IsAttached | rust/src/particle/mono_ligand.rs:15-19 | attached exactly in the attached state |
| MonoLigandParticle.Toggle | rust/src/particle/mono_ligand.rs:27-31 | toggling flips attachment |
| MonoLigandParticle.ToggleInvolution | rust/src/particle/mono_ligand.rs:27-31 | toggling twice is the identity, and toggling always changes the state |
| MonoLigandParticle.Events | rust/src/particle/mono_ligand.rs:62-74 | a single toggle event, at the off rate when attached and at on rate × receptor density × binding strength when free |
| MonoLigandParticle.NewState | rust/src/particle/mono_ligand.rs:76-78 | a new particle is free |
| MonoLigandParticle.States | rust/src/particle/mono_ligand.rs:82-87 | exactly two distinct states, the attached one first |
| MonoLigandParticle.StatesComplete | rust/src/particle/mono_ligand.rs:82-87 | every state is listed |
| MonoLigandParticle.EventsWellFormed | rust/src/particle/mono_ligand.rs:62-74 | with non-negative parameters the events are well formed for the simulations |
| MonoLigandParticle.AdvanceToggles | rust/src/particle/mono_ligand.rs:62-74 | a step fails exactly when the toggle rate is zero, and otherwise toggles |
| MultiLigandParticle.IsAttached | rust/src/particle/multi_ligand.rs:20-24 | attached exactly when some ligand is bound |
| MultiLigandParticle.Bind | rust/src/particle/multi_ligand.rs:29-34 | binding adds one bound ligand and keeps the total |
| MultiLigandParticle.Unbind | rust/src/particle/multi_ligand.rs:36-41 | unbinding removes one bound ligand and keeps the total |
| MultiLigandParticle.BindUnbind | rust/src/particle/multi_ligand.rs:29-41 | bind and unbind undo each other |
| MultiLigandParticle.New | rust/src/particle/multi_ligand.rs:120-138 | construction fails exactly when the on-rate and off-rate lists differ in length, and otherwise keeps all four parameters |
| MultiLigandParticle.TotalLigands | rust/src/particle/multi_ligand.rs:140-143 | the number of rate pairs, truncated to 16 bits; exact below 65536 |
| MultiLigandParticle.AttachRate | rust/src/particle/multi_ligand.rs:74-80 | the first ligand binds at its rate × receptor density × binding strength; later ones at their rate × binding strength |
| MultiLigandParticle.Events | rust/src/particle/multi_ligand.rs:70-96 | a bind event while ligands remain free and an unbind event while any is bound, at the listed rates |
| MultiLigandParticle.EventsKeepInvariant | rust/src/particle/multi_ligand.rs:70-96 | every event moves the bound count by one, keeps the total and stays within `0..=total` |
| MultiLigandParticle.EventsAtBoundaries | rust/src/particle/multi_ligand.rs:71-95 | two events strictly inside the range, one at either end, none when there are no ligands |
| MultiLigandParticle.NewState | rust/src/particle/multi_ligand.rs:98-103 | a new particle is free and within range |
| MultiLigandParticle.EventsWellFormed | rust/src/particle/multi_ligand.rs:70-96 | with non-negative parameters the events are well formed on in-range states |
| MultiLigandParticle.States | rust/src/particle/multi_ligand.rs:107-114 | lists every in-range state once, by bound count, and nothing else |
| InterferingParticle.IsAttached | rust/src/particle/interfering.rs:20-24 | attached exactly when entered |
| InterferingParticle.ToggleEntered | rust/src/particle/interfering.rs:27-32 | flips "entered" and changes nothing else |
| InterferingParticle.Bind | rust/src/particle/interfering.rs:34-39 | adds one bound ligand and changes nothing else |
| InterferingParticle.Unbind | rust/src/particle/interfering.rs:41-54 | removes one bound ligand; the particle has exited afterwards exactly if it had before or this was the last ligand |
| InterferingParticle.FreeLigands | rust/src/particle/interfering.rs:196-198 | free and bound ligands add up to the total |
| InterferingParticle.Events | rust/src/particle/interfering.rs:101-133 | an absorbing state offers one zero-rate self-loop; otherwise three events with ligands bound and one without, the bind event last |
| InterferingParticle.NewState | rust/src/particle/interfering.rs:135-141 | a new particle has no bound ligands and has neither entered nor exited |
| InterferingParticle.AbsorbingStuck | rust/src/particle/interfering.rs:102-107 | a step from an absorbing state always fails with "total rate 0" |
| InterferingParticle.NeverEnteredAndExited | rust/src/particle/interfering.rs:101-133 | no event leads to a state that has both entered and exited |
| InterferingParticle.EventsKeepInvariant | rust/src/particle/interfering.rs:101-133 | rates are non-negative and every target stays within the ligand count |
| InterferingParticle.EventsWellFormed | rust/src/particle/interfering.rs:101-133 | the events are well formed for the simulations |
| InterferingParticle.StateSpace | rust/src/particle/interfering.rs:145-160 | the state list has `4 × (total + 1)` entries |
| InterferingParticle.StateSpaceMembers | rust/src/particle/interfering.rs:145-160 | a state is listed exactly when its bound count is at most the total |
| InterferingParticle.States | rust/src/particle/interfering.rs:145-160 | the nested loops build exactly that list |
| InterferingParticle.AppendHalf | rust/src/particle/interfering.rs:148-156 | the middle loop pushes the states with `has_entered` fixed, `has_exited` true then false |
| InterferingParticle.AppendBlock | rust/src/particle/interfering.rs:149-155 | the inner loop pushes the states with both flags fixed, every attached count in ascending order |
| FatiguingParticle.IsAttached | rust/src/particle/fatiguing.rs:21-25 | attached exactly when entered |
| FatiguingParticle.ToggleEntered | rust/src/particle/fatiguing.rs:28-33 | flips "entered" and changes nothing else |
| FatiguingParticle.BindRegular | rust/src/particle/fatiguing.rs:35-40 | binds one fresh ligand and changes nothing else |
| FatiguingParticle.BindFatigued | rust/src/particle/fatiguing.rs:42-48 | rebinds one fatigued ligand |
| FatiguingParticle.Unbind | rust/src/particle/fatiguing.rs:50-64 | the last ligand to leave makes the particle exit; any other becomes fatigued |
| FatiguingParticle.FreeLigands | rust/src/particle/fatiguing.rs:254-256 | free, bound and fatigued ligands add up to the total |
| FatiguingParticle.CollisionFactor | rust/src/particle/fatiguing.rs:154-160 | the initial collision factor applies only with no ligand bound, and 1 otherwise |
| FatiguingParticle.Events | rust/src/particle/fatiguing.rs:125-181 | an absorbing state offers one zero-rate self-loop; otherwise, in this order: enter and unbind (with ligands bound), regular binding, then fatigued rebinding (with fatigued ligands) |
| FatiguingParticle.NewState | rust/src/particle/fatiguing.rs:183-190 | a new particle has no bound or fatigued ligands and has neither entered nor exited |
| FatiguingParticle.AbsorbingStuck | rust/src/particle/fatiguing.rs:126-131 | a step from an absorbing state always fails with "total rate 0" |
| FatiguingParticle.EventsMoveLigands | rust/src/particle/fatiguing.rs:125-181 | no event reaches a state that has both entered and exited; bound plus fatigued ligands change only by a regular bind (+1) or by losing the last bound ligand (−1) |
| FatiguingParticle.EventsKeepInvariant | rust/src/particle/fatiguing.rs:125-181 | rates are non-negative and bound plus fatigued ligands stay within the total |
| FatiguingParticle.EventsWellFormed | rust/src/particle/fatiguing.rs:125-181 | the events are well formed for the simulations |
| FatiguingParticle.StateSpaceSize | rust/src/particle/fatiguing.rs:194-216 | the state list has `2 × (total + 1) × (total + 2)` entries |
| FatiguingParticle.StateSpaceMembers | rust/src/particle/fatiguing.rs:194-216 | a state is listed exactly when bound plus fatigued ligands are at most the total |
| FatiguingParticle.States | rust/src/particle/fatiguing.rs:194-216 | the nested loops build exactly that list |
| FatiguingParticle.AppendColumn | rust/src/particle/fatiguing.rs:201-212 | the loop over fatigued counts pushes, for a fixed attached count, every fatigued count in `0..n` with its four flag combinations |
| FatiguingParticle.AppendQuad | rust/src/particle/fatiguing.rs:202-211 | the two flag loops push the four flag combinations of one pair of counts in loop order |
| SingleSimulation.Fresh | rust/src/simulation/single.rs:20-32 | a new timeline is at time 0, with an empty history and the initial state pending at time 0 |
| SingleSimulation.RunUntil | rust/src/simulation/single.rs:43-63 | the pending state always satisfies the particle's invariant |
| SingleSimulation.RunUntilStep | rust/src/simulation/single.rs:47-58 | when the pending transition is due and the next draw advances, the run equals the run from the timeline with that transition recorded, the new state pending at the clock plus the waiting time, and the draw consumed; the new state keeps the invariant |
| SingleSimulation.RunUntilSucceeds | rust/src/simulation/single.rs:43-63 | after a successful run the clock is the target time and the pending transition lies strictly after it |
| SingleSimulation.RunUntilAppends | rust/src/simulation/single.rs:47-49 | the run only appends to the history, and only transitions at or before the target time; a target before the pending transition changes only the clock; otherwise the first appended entry is the old pending transition |
| SingleSimulation.RunUntilFails | rust/src/simulation/single.rs:49-51 | after a failed run the transition that could not be advanced is both the last history entry and still pending; the clock was not set to the target |
| SingleSimulation.RunUntilIncreasing | rust/src/simulation/single.rs:47-58 | within one run that starts with the clock at the pending transition, the appended transitions have strictly increasing times |
| SingleSimulation.RunUntilBeforePending | rust/src/simulation/single.rs:47-58 | within such a run no appended transition is after the one left pending, and on success every one is strictly before it |
| SingleSimulation.RunUntilNextNotEarlier | rust/src/simulation/single.rs:53-58 | within a run that starts with the clock at the pending transition, the pending transition never moves earlier (across calls it can: see `TimelineExamples.SecondCallGoesBackInTime`) |
| SingleSimulation.LastTransitionAt | rust/src/simulation/single.rs:80-97 | a transition found is in the history and not after the queried time |
| SingleSimulation.LookupWithinRange | rust/src/simulation/single.rs:80-97 | every time from the first transition up to the pending one has a transition |
| SingleSimulation.LookupBeforeStart | rust/src/simulation/single.rs:80-97 | before the first transition there is none |
| SingleSimulation.LookupOrdered | rust/src/simulation/single.rs:80-97 | on an ordered history, entry `i` is found exactly for times from its own up to the next one |
| SingleSimulation.LookupAfterEnd | rust/src/simulation/single.rs:80-97 | at or after the pending transition there is none |
| SingleSimulation.SimulationSingle.constructor | rust/src/simulation/single.rs:20-32 | the new simulation is the fresh timeline |
| SingleSimulation.SimulationSingle.AdvanceUntil | rust/src/simulation/single.rs:43-63 | the loop leaves the state and result that `RunUntil` specifies |
| SingleSimulation.SimulationSingle.AdvanceOnce | rust/src/simulation/single.rs:48-58 | one pass of the loop either fails with the result `RunUntil` specifies, or consumes a draw and leaves a timeline whose run to `t` is the same as before |
| SingleSimulation.SimulationSingle.LastTransitionAtTime | rust/src/simulation/single.rs:80-97 | the loop returns the specified lookup |
| SingleSimulation.SimulationSingle.StateAtTime | rust/src/simulation/single.rs:100-102 | the state at a time is that of the transition found, if any |
| SingleSimulation.SimulationSingle.LastState | rust/src/simulation/single.rs:105-108 | the state at the clock |
| SingleSimulation.FreshRunOrdered | rust/src/simulation/single.rs:43-63 | one successful run from a fresh timeline leaves an ordered history |
| SingleSimulation.FreshStateAtZero | rust/src/simulation/single.rs:116-128 | after any run from a fresh timeline to `t >= 0` the state at time 0 exists and is the initial state |
| TimelineExamples.SecondCallGoesBackInTime | rust/src/simulation/single.rs:53-61 | two consecutive runs on unit rates give a history whose times are 0, 2, 1.5 |
| ManySimulation.RunUntilStarts | rust/src/simulation/many.rs:67-72 | runs keep a timeline starting at time 0, and a successful run to `t >= 0` leaves it started |
| ManySimulation.StartedLookup | rust/src/simulation/many.rs:67-72 | a started timeline has a state at every time from 0 to its clock |
| ManySimulation.StatesAtPrefix | rust/src/simulation/many.rs:72-77 | no states if any timeline has none at that time, otherwise each timeline's state in order |
| ManySimulation.CountAttached | rust/src/simulation/many.rs:98-108 | the count is at most the ensemble size, and zero exactly when no state is attached |
| ManySimulation.Theta | rust/src/simulation/many.rs:98-108 | θ lies in `[0, 1]` and θ × size is the attached count |
| ManySimulation.SampleTimes | rust/src/simulation/many.rs:79-85 | `k` evenly spaced sample times: the first is 0, consecutive ones are `time / k` apart, and all lie within `[0, time]` |
| ManySimulation.SampleSpacing | rust/src/simulation/many.rs:82-85 | sample times `i - 1` and `i` differ by exactly `time / k` |
| ManySimulation.SampleBounds | rust/src/simulation/many.rs:79-85 | for a non-negative time, every sample time lies within `[0, time]` |
| ManySimulation.AllStartedLookup | rust/src/simulation/many.rs:71-77 | on an ensemble started up to its clock, states exist at every time in `[0, clock]` |
| ManySimulation.SampleDefined | rust/src/simulation/many.rs:81-88 | every sample time of such an ensemble has states |
| ManySimulation.Sample | rust/src/simulation/many.rs:81-88 | the `k` samples are the ensemble's states at the sample times, one state per timeline |
| ManySimulation.Thetas | rust/src/simulation/many.rs:111-120 | one θ per sample, each in `[0, 1]` and the attached fraction of that sample |
| ManySimulation.RunAll | rust/src/simulation/many.rs:48-58 | the ensemble keeps its size and every pending state keeps the invariant |
| ManySimulation.RunAllUntouched | rust/src/simulation/many.rs:48-58 | timelines not yet reached are unchanged |
| ManySimulation.RunAllOk | rust/src/simulation/many.rs:48-58 | the run succeeds exactly when every timeline's run succeeds, and then each timeline is its own run |
| ManySimulation.RunAllOkAt | rust/src/simulation/many.rs:48-58 | in a successful run, timeline `i`'s own run succeeded and the timeline is what that run leaves |
| ManySimulation.RunAllSucceeds | rust/src/simulation/many.rs:48-58 | when every timeline's own run succeeds, the run of them all succeeds |
| ManySimulation.RunAllNext | rust/src/simulation/many.rs:54-57 | after `n` successful runs, the next iteration runs timeline `n` on what the earlier ones left and records its result |
| ManySimulation.RunAllErr | rust/src/simulation/many.rs:48-58 | a failure names the first timeline that failed |
| ManySimulation.RunAllStops | rust/src/simulation/many.rs:48-58 | after a failure the later timelines are not run |
| ManySimulation.RunAllSameTime | rust/src/simulation/many.rs:48-58 | after a successful run every timeline is at the target time, and started up to it when the time is non-negative |
| ManySimulation.Simulation.constructor | rust/src/simulation/many.rs:27-37 | `n` newly allocated simulations of the same particle, each a fresh timeline |
| ManySimulation.Simulation.AdvanceUntil | rust/src/simulation/many.rs:48-58 | the loop leaves exactly the timelines and result `RunAll` specifies; after a successful call with `t >= 0` the clock is `t` and the states there exist |
| ManySimulation.FreshHasNoStatesAtClock | rust/src/simulation/many.rs:27-36 | a new ensemble's clock is 0 and it has no states there, against the promise of many.rs:71 |
| ManySimulation.NegativeClockHasNoStates | rust/src/simulation/many.rs:48-58 | after a successful call with `t < 0` the clock is `t` and there are no states there, against the same promise |
| ManySimulation.AdvancedHasStatesAtClock | rust/src/simulation/many.rs:69-72 | after a successful call with `t >= 0` the clock is `t` and the states there exist, so `last_states` and `last_theta` do not panic |
| ManySimulation.Simulation.AdvanceOne | rust/src/simulation/many.rs:56 | one simulation advances exactly as `RunUntil` specifies, the others are untouched, and the ensemble is then what `RunAll` gives for one more timeline |
| ManySimulation.Simulation.StatesAtTime | rust/src/simulation/many.rs:72-77 | the ensemble's states at a time |
| ManySimulation.Simulation.LastTheta | rust/src/simulation/many.rs:98-108 | θ at the clock lies in `[0, 1]` |
| PyLists.SliceBound | src/indecision/simulation/convergence.py:54-55 | a bound in `[-n, n]` counts from the end when negative; a bound above `n` becomes `n` and one below `-n` becomes 0 |
| PyLists.PySlice | src/indecision/simulation/convergence.py:54-55 | a slice is never longer than the list |
| PyLists.PySliceCases | src/indecision/simulation/convergence.py:54-55 | in-range non-negative bounds give the plain subsequence, negative ones count both ends from the end (`xs[-w:]`, `xs[-2w:-w]`), `xs[0:k]` takes the first `min(k, len)` items, and a stop not past the start gives `[]` |
| PyLists.PyIndex | src/particle.py:77-84 | an index is valid exactly from `-len` to `len - 1`, and a negative one counts from the end |
| PyParticle.Offered | src/indecision/particle/core.py:27-31 | each Python event offers its rate and the state its transition produces |
| PyParticle.PickedChoice | src/indecision/particle/core.py:42-47 | the loop applies the transition of the first event whose running sum exceeds `r`, or leaves the state as it was |
| PyParticle.PickedAt | src/indecision/particle/core.py:42-47 | when event `k` is the first above `r`, its transition is the one applied |
| PyParticle.PickedNone | src/indecision/particle/core.py:42-49 | when no running sum exceeds `r` the state is unchanged |
| PyParticle.Applied | src/indecision/particle/core.py:27-49 | the step fails exactly on no events or a zero total rate, with the matching error |
| PyParticle.AppliedOk | src/indecision/particle/core.py:39-49 | otherwise it applies the picked transition and returns `exposure / total` |
| PyParticle.AppliedAgreesWithAdvanced | src/indecision/particle/core.py:27-49 | with non-negative rates the Python step and the Rust step agree on success, target and waiting time |
| PyParticle.NegativeRateFallsThrough | src/indecision/particle/core.py:35-49 | a single negative-rate event is not refused; the state stays put and the returned time is negative |
| PyParticle.SingleEventRefused | src/indecision/particle/core.py:31-37 | a single event is refused exactly when its rate is 0 |
| PyParticle.SingleEventFires | src/indecision/particle/core.py:42-49 | a single event with a positive rate always fires, after `exposure / rate` |
| PyParticle.ParticleAdvanceState | src/indecision/particle/core.py:27-49 | the loop returns the specified step |
| PyParticle.AppliedKeeps | src/indecision/particle/core.py:42-47 | if the events are closed under an invariant, a successful step keeps it |
| PyParticle.ParticleInstance.constructor | src/indecision/particle/core.py:62-64 | an instance starts in the given default state |
| PyParticle.ParticleInstance.AdvanceState | src/indecision/particle/core.py:66-67 | advancing updates the held state as the specification's step does and returns its time |
| PyMonoLigand.Toggle | src/indecision/particle/mono_ligand.py:10-11 | `toggle` flips attachment |
| PyMonoLigand.ToggleInvolution | src/indecision/particle/mono_ligand.py:10-11 | toggling twice is the identity |
| PyMonoLigand.Events | src/indecision/particle/mono_ligand.py:31-44 | one toggle event, at off rate × binding strength when attached and on rate × density × strength when free |
| PyMonoLigand.StepToggles | src/indecision/particle/mono_ligand.py:31-44 | a step with a positive rate toggles the state after `exposure / rate` |
| PyMonoLigand.RatesAgainstRust | src/indecision/particle/mono_ligand.py:33-38 | the Python attach rate equals the Rust one, while the detach rate is the Rust one times the binding strength |
| PyMonoLigand.EventsClosed | src/indecision/particle/mono_ligand.py:31-44 | every transition keeps a mono-ligand state |
| PyMultiLigand.Attach | src/indecision/particle/multi_ligand.py:10-11 | `attach` adds one bound ligand |
| PyMultiLigand.Detach | src/indecision/particle/multi_ligand.py:13-14 | `detach` removes one bound ligand |
| PyMultiLigand.Events | src/indecision/particle/multi_ligand.py:36-46 | an attach event at the current step's on rate while below the top, and a detach event at the step below's off rate while above zero |
| PyMultiLigand.EventsIgnoreDensity | src/indecision/particle/multi_ligand.py:24-46 | the receptor density has no effect on the events |
| PyMultiLigand.EventsClosed | src/indecision/particle/multi_ligand.py:36-46 | every transition keeps the count within `0..=len(rates)` |
| PyMultiLigand.StepStaysInRange | src/indecision/particle/multi_ligand.py:36-46 | a successful step keeps the count within range |
| PyConvergence.FlattenSplit | src/indecision/simulation/convergence.py:36-38 | flattening keeps the snapshots in order, each one whole |
| PyConvergence.Empirical | src/indecision/simulation/convergence.py:27-39 | the empirical sample is the first `sample_size` states of the flattened window |
| PyConvergence.ConvergedNeedsTwoWindows | src/indecision/simulation/convergence.py:51-58 | with fewer than two windows of history the criterion never reports convergence |
| PyConvergence.ConvergedWindows | src/indecision/simulation/convergence.py:54-64 | otherwise it compares the last `w` records with the `w` before them, and converges exactly when their distance is below the tolerance |
| PyConvergence.ConvergenceCriterion.constructor | src/indecision/simulation/convergence.py:6-25 | keeps the parameters, with an empty history |
| PyConvergence.ConvergenceCriterion.HasConverged | src/indecision/simulation/convergence.py:41-64 | appends the argument to the history and answers the criterion on the new history |
| PySimulation.DueStep | src/indecision/simulation/__init__.py:31-34 | the lists stay parallel and every state keeps the invariant |
| PySimulation.TickUpTo | src/indecision/simulation/__init__.py:29-36 | a pass keeps the lists parallel and of the same length |
| PySimulation.TickChangesOnlyDue | src/indecision/simulation/__init__.py:31-34 | particles not due at `t` are untouched |
| PySimulation.TickKeeps | src/indecision/simulation/__init__.py:31-34 | one particle that is not due, or not yet reached, keeps its three entries |
| PySimulation.TickNext | src/indecision/simulation/__init__.py:31-34 | after `n` visits without error, the next visit swaps and advances particle `n` exactly when it is due |
| PySimulation.TickAdvancesDue | src/indecision/simulation/__init__.py:31-34 | a due particle takes its pending state, advances it, and moves its time by the step's waiting time |
| PySimulation.AppliedTakesTime | src/indecision/simulation/__init__.py:34 | with non-negative rates every step takes positive time |
| PySimulation.TickTimesIncrease | src/indecision/simulation/__init__.py:34 | a pass never moves a transition time back, and strictly increases those it advances |
| PySimulation.TickIdleWhenNoneDue | src/indecision/simulation/__init__.py:29-36 | when no transition time equals the integer `t` exactly, the pass changes nothing and raises nothing |
| PySimulation.TickStops | src/indecision/simulation/__init__.py:29-36 | after a failing particle the pass stops |
| PySimulation.Ensemble.constructor | src/indecision/simulation/__init__.py:20-24 | the ensemble holds the given lists at time 0 |
| PySimulation.Ensemble.Tick | src/indecision/simulation/__init__.py:29-36 | the loop leaves the lists the pass specifies and advances the clock only on success |
| PySimulation.Ensemble.Visit | src/indecision/simulation/__init__.py:31-34 | a particle not due is untouched; a due one is swapped and advanced as `DueStep` specifies |
| PySimulation.Simulate | src/indecision/simulation/__init__.py:9-26 | `n` default states, each pending state its copy advanced once, and the waiting times as transition times; fails exactly when that first step fails |
| PySimulation.SimulateUntil | src/indecision/simulation/__init__.py:39-49 | the counter never moves, so it yields every snapshot its consumer asks for when `steps > 0` and none otherwise |
| PySimulation.Shown | src/indecision/simulation/__init__.py:60-65 | the histories shown to the criterion: each check's record is the list of snapshots so far |
| PySimulation.ShownWindowsDiffer | src/indecision/simulation/__init__.py:60-65 | with such records, the two compared windows hold records of different lengths, so they always differ entry by entry |
| PySimulation.ShownAliased | src/indecision/simulation/__init__.py:60-65 | the histories the source actually shows: every record is the one list object, seen at its final contents |
| PySimulation.AliasedConvergesEarly | src/indecision/simulation/__init__.py:60-65 | there is a run where the aliased history converges while the intended one does not |
| PySimulation.SimulateUntilConverge | src/indecision/simulation/__init__.py:52-68 | yields a prefix of the snapshots; none of the checks before the stop converged; if it stopped early, the last check converged on the history shown |
| PySimulationExamples.PendingStateSkipped | src/indecision/simulation/__init__.py:31-34 | a concrete pass in which a particle's pending state is swapped in and advanced at once, so the snapshot never shows it |
| LegacyParticle.AdvanceState | src/particle.py:30-36 | advancing always fails as not implemented |
| LegacyParticle.OneOnRate | src/particle.py:44-46 | the on rate is zero when attached and `on` otherwise |
| LegacyParticle.OneOffRate | src/particle.py:48-50 | the off rate is `off` when attached and zero otherwise |
| LegacyParticle.OneDirectionOnly | src/particle.py:44-50 | at most one of the two rates is non-zero, and each applies in its own state |
| LegacyParticle.MultiOnRate | src/particle.py:66-77 | zero at the top, an error above it, the current step's rate below it, and a Python negative index below zero |
| LegacyParticle.MultiOffRate | src/particle.py:79-84 | zero at or below zero bound, the step below's off rate in range, an index error above |
| LegacyParticle.MultiRatesMatchEvents | src/particle.py:66-84 | in range, the two rates are the rates of the later multi-ligand particle's attach and detach events |
| LegacyMultiLigand.Attach | src/particle/multi_ligand.py:10-11 | `attach` adds one bound ligand |
| LegacyMultiLigand.Detach | src/particle/multi_ligand.py:13-14 | `detach` also adds one bound ligand, as written |
| LegacyMultiLigand.Events | src/particle/multi_ligand.py:36-51 | the lookups fail exactly when the count is above `len(rates)` or below `-len(rates)`; in range, an attach event below the top and a detach event above zero, at the listed rates |
| LegacyMultiLigand.DetachLeavesRange | src/particle/multi_ligand.py:13-14 | detaching from a fully bound particle leaves the documented range, and the next events call fails |
| LegacyMultiLigand.OnlyDetachDiffers | src/particle/multi_ligand.py:36-51 | against the later particle, only the detach transition differs |

## Left out

- Random number generation is not modelled. Each step takes a `Draw` parameter. In Rust, a timeline draws from a finite `entropy` sequence.
  - Running out of draws is the model-only error `RandomExhausted`.
  - `-log2(u)` (Rust) and `-ln(u)` (Python) become one positive `exposure`.
- Floating point is modelled as exact reals.
  - IEEE-754 rounding, NaN and infinities are not modelled.
  - `powi` is the exact power `Powers.Pow`.
- `rayon`'s parallel iteration in `Simulation::advance_until` is modelled as a sequential run that stops at the first failing timeline. Which error a parallel run reports, and whether later timelines were advanced, is not modelled.
- Python's in-place mutation is modelled on values.
  - A transition is a function from state to state.
  - `ParticleInstance` and the simulation lists hold states as values.
  - Aliasing between `states` and `next_states` after the swap is therefore not modelled.
- `simulate` yields the same list object every time. The model yields values and models the consequence for `simulate_until_converge` separately (`PySimulation.ShownAliased`, see Findings).
- The labels that `mono_ligand.py` and `multi_ligand.py` pass to `Event` (`repr=`, a third positional argument) are dropped. The `Event` dataclass in `core.py` has only two fields, so those calls would raise `TypeError`; the model builds the two-field event.
- The `u16` counters are `nat`s with preconditions against underflow, except the truncating `as u16` cast in `total_ligands`, which is written out.
- The Python generators run forever. `simulate` is modelled by its set-up (`Simulate`) and its passes (`Ensemble.Tick`); `simulate_until` and `simulate_until_converge` are modelled over a finite demand or a finite list of snapshots.
- `wasserstein_distance` is an abstract distance parameter. The criterion's `metric` is stored but unused, as in the source.
- Not part of this model:
  - the `pyo3` bindings (`rust/src/lib.rs`);
  - `rust/src/simulation/markov.rs`;
  - the notebooks and examples;
  - the abstract stubs in `src/particle/core.py`;
  - `Simulation::transition_histories` and `Simulation::last_states`, which are one-line accessors.
- ManySimulation.Simulation.Time has no contract; it returns the first timeline's clock.
- Particle.Advanced: requires non-negative rates. With a negative rate the Rust loop can fall through to `unreachable_unchecked`, whose behaviour is undefined; the Python step, which has no such precondition, is modelled in `PyParticle.Applied`.
- ManySimulation.Simulation.LastTheta: states only that θ lies in `[0, 1]`. That it is the attached fraction at the clock is stated by `ManySimulation.Theta`, which it applies. It requires the states at the clock to exist; the source panics otherwise, which happens on a new ensemble and after a call with `t < 0` (see Findings).
- PyMultiLigand.Events: requires the count to be within `0..=len(rates)`, the range the source documents as its invariant; `PyMultiLigand.EventsClosed` proves the transitions keep it.
- InterferingParticle.Events, FatiguingParticle.Events: require the bound (and fatigued) ligands to be at most the total. Outside that range the `u16` subtraction in `free_ligands` would underflow.
- SingleSimulation.SimulationSingle.LastState: requires a state at the clock. The source panics with `expect` otherwise.

## Findings

| source | as written | input that shows it | evidently intended | confidence | as-written member | corrected member |
|---|---|---|---|---|---|---|
| src/indecision/simulation/__init__.py:60-65 | `recent_states.append(states)` appends the one list object that `simulate` keeps mutating, and the criterion's history stores that same growing `recent_states` list at every check, so all records are one list seen at its final contents | window 1, tolerance 1, snapshots `[0, 1]` with distance 0 for equal inputs and 2 otherwise: the second check converges | each check compares snapshots of different times, so the two windows differ and this run does not converge | medium, not executed | PySimulation.AliasedConvergesEarly | PySimulation.ShownWindowsDiffer |
| src/particle/multi_ligand.py:13-14 | `detach` adds one to `attached_ligands` | a particle with one rate pair, fully bound, then detached: the count becomes 2 and the next `events` call fails | `detach` subtracts one, as in `src/indecision/particle/multi_ligand.py` | high, not executed | LegacyMultiLigand.DetachLeavesRange | PyMultiLigand.StepStaysInRange |
| rust/src/simulation/many.rs:71 | the documentation promises that `states_at_time(self.time())` is always `Some`, and `last_states` and `last_theta` `expect` it | a new ensemble (clock 0, empty histories), or a successful `advance_until(t)` with `t < 0`: the lookup is `None` and `last_theta` panics | the promise holds once the ensemble has been advanced to a time `>= 0` | high, not executed | ManySimulation.FreshHasNoStatesAtClock | ManySimulation.AdvancedHasStatesAtClock |
