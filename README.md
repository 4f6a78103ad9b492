# Blood-flow simulation steppers in Dafny

This project models the explicit finite-difference solvers of the blood-flow-simulation backend: the
one-dimensional linear wave pair for the cross-sectional area `A` and the flow `Q` of an artery.
Each modelled script gets its own module:

- `sim1.py` (module `Sim1MacCormack`): ghost-cell MacCormack with reflecting boundaries. It records a
  frame every `save_every` passes.
- `TestC1.py` (`TestC1MacCormack`): vectorised MacCormack with `np.roll`. It stores every time level.
- `test1_z.py` (`Test1ZMacCormack`): the same scheme, with tuple-assignment boundary patches and
  snapshots at a list of save times.
- `Test_model_laxw_half_step.py` (`HalfStepLaxWendroff`): two-step Lax-Wendroff with characteristic
  boundaries.
- `health_wk_laxw.py` (`WindkesselLaxWendroff`): Taylor-form Lax-Wendroff with a Blackman-Harris
  inlet pressure and a four-element Windkessel outlet. The run is a class whose fields are updated in
  place.
- `backend/simulation.py` (`DampedPressureTable`): the shift-and-damp pressure table.
- `backend/app/simulation/healthy.py` (`DemoPressureField`): the closed-form demonstration field.

Shared modules:

- `Numerics`: Python's `int()` and float `%`, the frame-counting arithmetic, the clock, and the
  transcendental functions passed in as a record.
- `Grid`: `linspace`, cell centres, and the two time-step adjustments.
- `FieldArrays`: the `(A, Q)` pair, and array copies.
- `Reflecting`: the copy-neighbour boundary condition in its sequential and simultaneous forms.
- `CosineBump`: the raised-cosine initial data.

Every loop that rewrites arrays in place is a method over `array<real>`. Each such method is proved
against a specification function on sequences. The lemmas about those functions carry the
properties: fixed points, boundary behaviour, locality, frame counts and snapshot contents.

## Model

| member | source | states |
|---|---|---|
| Numerics.Trunc | backend/simulations/sim1.py:21 | `int(x)` truncates toward zero: for `x >= 0` it is the largest integer at most `x`, for `x < 0` the smallest at least `x` |
| Numerics.FloatMod | backend/simulations/health_wk_laxw.py:108 | Python's `t % T` for a positive period lies in `[0, T)` |
| Numerics.FloatModPeriodic | backend/simulations/health_wk_laxw.py:108 | shifting `t` by whole periods does not change `t % T` |
| Numerics.ClipBelowZero | backend/app/simulation/healthy.py:51 | `np.clip(v, 0, None)` is never negative, keeps a non-negative value and turns a negative one into 0 |
| Numerics.MultiplesBelowStep | backend/simulations/sim1.py:80-85 | one more pass adds a recorded frame exactly when the pass index is a multiple of the stride |
| Numerics.MultiplesUpTo | backend/simulations/sim1.py:80-85 | over the passes `0..Nt` there are `Nt // e + 1` multiples of a positive stride `e` |
| Numerics.ModNegativeDivisor | backend/simulations/sim1.py:82 | with a negative `save_every`, `n % save_every == 0` holds at the same `n` as with its magnitude |
| Numerics.Magnitude | backend/simulations/sim1.py:82 | the stride of a non-zero `save_every` is positive and is `save_every` or its negation |
| Numerics.FrameCount | backend/simulations/sim1.py:80-85 | a run records at least one frame |
| Numerics.ClockIsProduct | backend/simulations/sim1.py:78-89 | the time `tau` after `i` additions of `dt` equals `i * dt` |
| Grid.Linspace | backend/simulations/TestC1.py:24 | `np.linspace(start, stop, num)` has `num` points, the first `start` and the last `stop` |
| Grid.LinspaceIncreasing | backend/simulations/TestC1.py:24 | over an interval of positive length the grid is strictly increasing |
| Grid.LinspaceFromStart | backend/app/simulation/healthy.py:19 | no grid point lies left of the start |
| Grid.CellCentres | backend/simulations/sim1.py:16 | `x[i] = (i + 0.5) dx` for each of the `N` cells |
| Grid.CellCentresIncreasing | backend/simulations/sim1.py:16 | with positive `dx` the cell centres are positive and strictly increasing |
| Grid.FlooredTimeGrid | backend/simulations/sim1.py:20-22 | `Nt = int(tau_final / (CFL dx))` is 0, and `tau_final / Nt` raises `ZeroDivisionError`, exactly when `tau_final < CFL dx`; otherwise `Nt >= 1`, `Nt dt = tau_final` and `dt >= CFL dx` |
| Grid.FlooredCount | backend/simulations/sim1.py:21-22 | the floored count is 0 exactly when the final time is below `dt0`; otherwise the adjusted step is at least `dt0` and `Nt` of them reach the final time |
| Grid.CeilTimeGrid | backend/simulations/TestC1.py:28-30 | `Nt = int(Tfinal / dt0) + 1` is at least 1, `Nt dt = Tfinal`, and the adjusted `dt` is below `CFL dz / c` |
| Grid.CeilCount | backend/simulations/TestC1.py:29-30 | the same facts for any positive `dt0` |
| Grid.CeilGridReachesFinal | backend/test1_z.py:13-15 | the clock after `Nt` steps of the adjusted `dt` reads `Tfinal` |
| FieldArrays.Zeros | backend/simulations/sim1.py:25-26 | `np.zeros(n)` has `n` entries, all 0 |
| FieldArrays.CopyOf | backend/simulations/sim1.py:51-52 | `a.copy()` is a new array with the same contents |
| Reflecting.CopyNeighbours | backend/simulations/sim1.py:41-45 | `apply_bc` keeps every interior node, copies node 1 into node 0 and node `-2` into node `-1`, and leaves the field reflected |
| Reflecting.ReflectBoth | backend/simulations/sim1.py:41-45 | both fields come out reflected with their lengths unchanged |
| Reflecting.CopyNeighboursKeepsInterior | backend/simulations/sim1.py:41-45 | the boundary copy leaves the slice `[1:-1]` unchanged |
| Reflecting.CopyNeighboursIdempotent | backend/simulations/sim1.py:41-45 | applying the boundary copy twice is the same as once |
| Reflecting.CopyNeighboursKeepsConstant | backend/simulations/sim1.py:41-45 | a constant field stays constant |
| Reflecting.CopyNeighboursIgnoresFirst | backend/simulations/sim1.py:41-45 | the old value of node 0 does not matter |
| Reflecting.CopyNeighboursAtOnce | backend/test1_z.py:46-47 | the tuple assignment `Q[0], Q[-1] = Q[1], Q[-2]` reads both sources before writing |
| Reflecting.AtOnceIgnoresEnds | backend/test1_z.py:46-47 | the old end values do not matter to the tuple-assignment patch |
| Reflecting.AtOnceAgreesFromThreeNodes | backend/test1_z.py:46-47 | from three nodes on, the tuple assignment agrees with the sequential copy of `apply_bc` |
| Reflecting.AtOnceSwapsTwoNodes | backend/test1_z.py:46-47 | on two nodes the tuple assignment swaps them, while the sequential copy duplicates node 1 |
| Reflecting.ApplyReflecting | backend/simulations/sim1.py:41-45 | the in-place `apply_bc(a, q)` leaves both arrays equal to the boundary copy of their old contents |
| Reflecting.ApplyReflectingAtOnce | backend/test1_z.py:46-47 | the in-place tuple assignments leave both arrays equal to the simultaneous patch of their old contents |
| CosineBump.BumpAt | backend/simulations/sim1.py:29-34 | `bump` is nonzero only where `abs((x - center) / width) < 1`, and there it is `amp 0.5 (1 + cos(pi s))` |
| CosineBump.Bump | backend/simulations/sim1.py:29-34 | the vectorised bump has one entry per point, each the pointwise bump, and 0 outside the mask |
| Sim1MacCormack.Predictor | backend/simulations/sim1.py:51-57 | the predictor copies hold the forward-difference update at cells `1..N` and the input values at both ghosts |
| Sim1MacCormack.Corrector | backend/simulations/sim1.py:62-69 | the corrector copies hold the averaged backward-difference update at cells `1..N` and the old values at both ghosts |
| Sim1MacCormack.MacCormackOf | backend/simulations/sim1.py:50-71 | `mac_cormack` returns fields of the same length whose two ghost entries are those of its input |
| Sim1MacCormack.MacCormackFixesRest | backend/simulations/sim1.py:50-71 | a reflected uniform area with zero flow is a fixed point of `mac_cormack`, for any `K3` |
| Sim1MacCormack.MacCormackFixesUniformUndamped | backend/simulations/sim1.py:50-71 | with `K3 = 0`, every reflected uniform state is a fixed point of `mac_cormack` |
| Sim1MacCormack.StepKeepsRest | backend/simulations/sim1.py:87-88 | a pass (`apply_bc`, then `mac_cormack`) from a uniform area at rest ends at rest with the same area |
| Sim1MacCormack.IterateKeepsRest | backend/simulations/sim1.py:80-89 | a uniform area at rest, including all zeros, stays unchanged for any number of passes |
| Sim1MacCormack.PredictorPass | backend/simulations/sim1.py:51-57 | the predictor loop over arrays produces `Predictor` of the array contents |
| Sim1MacCormack.CorrectorPass | backend/simulations/sim1.py:61-69 | the corrector loop over arrays produces `Corrector` of the old and predicted contents |
| Sim1MacCormack.MacCormack | backend/simulations/sim1.py:50-71 | the array `mac_cormack` produces new arrays equal to `MacCormackOf` of its input, ghosts unchanged |
| Sim1MacCormack.DefaultConfig | backend/simulations/sim1.py:13-38 | the hard-coded constants are a valid configuration with 400 cells |
| Sim1MacCormack.Spacing | backend/simulations/sim1.py:15 | `dx = 1/N` is positive |
| Sim1MacCormack.InitialFields | backend/simulations/sim1.py:25-38 | the ghost-padded arrays have `N + 2` nodes, and cell `i + 1` holds the area and flow bumps at `x[i]` |
| Sim1MacCormack.StartState | backend/simulations/sim1.py:47 | the state after the first `apply_bc` has `N + 2` nodes |
| Sim1MacCormack.StartStateInterior | backend/simulations/sim1.py:37-47 | the first `apply_bc` leaves the cells `1..N` holding the initial bumps |
| Sim1MacCormack.Advance | backend/simulations/sim1.py:87-88 | one pass over arrays takes the state after `i` passes to the state after `i + 1` |
| Sim1MacCormack.RecordFrame | backend/simulations/sim1.py:82-85 | the `n % save_every == 0` test appends the time and the ghost-free state exactly at the multiples of the stride |
| Sim1MacCormack.SavedFramesStart | backend/simulations/sim1.py:78-85 | the first recorded frame is the ghost-free start state at time 0 |
| Sim1MacCormack.RecordedAlongIterates | backend/simulations/sim1.py:80-89 | the frames recorded over `Nt + 1` passes are `Nt // e + 1` frames; frame `k` is the state after `k e` passes, at time `k e dt` |
| Sim1MacCormack.RecordAndAdvance | backend/simulations/sim1.py:80-89 | pass `i` (record, `apply_bc`, `mac_cormack`, `tau += dt`) extends the record by one pass and moves to the next state and `tau` |
| Sim1MacCormack.RecordingLoop | backend/simulations/sim1.py:78-89 | the loop `for n in range(Nt + 1)` records exactly the frames of the passes it goes through |
| Sim1MacCormack.TimeLoop | backend/simulations/sim1.py:74-93 | the time loop returns `Nt // e + 1` frames; frame `k` is the state after `k e` passes with the ghosts stripped, at time `k e dt`; the first frame is the start state at time 0 |
| Sim1MacCormack.InitialArrays | backend/simulations/sim1.py:25-38 | the arrays hold `InitialFields` |
| Sim1MacCormack.StartArrays | backend/simulations/sim1.py:25-47 | the arrays after the first `apply_bc` hold `StartState` |
| Sim1MacCormack.RunOnGrid | backend/simulations/sim1.py:74-95 | the output keeps `x` and holds the saved frames of the run from the start state, the first at time 0 |
| Sim1MacCormack.RunSimulation | backend/simulations/sim1.py:4-95 | it raises `ZeroDivisionError` exactly when `save_every == 0` or `Nt == 0`; otherwise it returns the cell centres and the `Nt // e + 1` frames, frame `k` being the state after `k e` passes at time `k e dt`, the first being the initial bumps at time 0 |
| TestC1MacCormack.Roll | backend/simulations/TestC1.py:69-70 | `np.roll(s, 1)` moves every entry up one place and wraps the last entry round to index 0 |
| TestC1MacCormack.Predictor | backend/simulations/TestC1.py:62-65 | `Qp[:-1]`, `Ap[:-1]` hold the forward-difference update, and the last node keeps the input value |
| TestC1MacCormack.Corrector | backend/simulations/TestC1.py:69-70 | the whole-array corrector at node `i` uses the neighbour below from `np.roll`, which at node 0 is the last node |
| TestC1MacCormack.StepOf | backend/simulations/TestC1.py:59-71 | a pass leaves both fields reflected at both ends |
| TestC1MacCormack.WrapTermOverwritten | backend/simulations/TestC1.py:69-71 | the wrapped-round `np.roll` term reaches only node 0, which the final `apply_BC` overwrites |
| TestC1MacCormack.StepKeepsRest | backend/simulations/TestC1.py:58-71 | a pass from a uniform area at rest stays at rest with the same area |
| TestC1MacCormack.StepFixesRest | backend/simulations/TestC1.py:58-71 | a uniform area at rest is a fixed point of a pass |
| TestC1MacCormack.IterateStaysAtRest | backend/simulations/TestC1.py:58-73 | every state of a run from a uniform area at rest is at rest with that area |
| TestC1MacCormack.IterateKeepsRest | backend/simulations/TestC1.py:58-73 | such a state stays unchanged for any number of passes |
| TestC1MacCormack.PredictorArrays | backend/simulations/TestC1.py:62-65 | the array predictor produces `Predictor` of the contents |
| TestC1MacCormack.CorrectFlows | backend/simulations/TestC1.py:69 | the new flow array holds the corrected flow at every node |
| TestC1MacCormack.CorrectAreas | backend/simulations/TestC1.py:70 | the new area array holds the corrected area at every node |
| TestC1MacCormack.CorrectorArrays | backend/simulations/TestC1.py:69-70 | the array corrector produces `Corrector` of the old and predicted contents |
| TestC1MacCormack.StepArrays | backend/simulations/TestC1.py:59-71 | one pass over arrays produces `StepOf` of the old contents |
| TestC1MacCormack.StoreRow | backend/simulations/TestC1.py:72-73 | `store[n, :] = row` sets row `n` and leaves every other row as it was |
| TestC1MacCormack.StoreLevel | backend/simulations/TestC1.py:72-73 | after storing level `n`, rows `0..n` of both stores hold the states after `0..n` passes |
| TestC1MacCormack.StepAndStore | backend/simulations/TestC1.py:58-73 | pass `n` leaves the state after `n` passes in the arrays and in row `n` of both stores |
| TestC1MacCormack.TimeLoop | backend/simulations/TestC1.py:47-73 | the `(Nt + 1) x (Nx + 1)` stores hold in row `n` the state after `n` passes |
| TestC1MacCormack.Rows | backend/simulations/TestC1.py:78-79 | the rows of a store as lists, entry for entry |
| TestC1MacCormack.Offset | backend/simulations/TestC1.py:78 | `A_ref + A_store[n, :]` shifts every entry by `A_ref` |
| TestC1MacCormack.Times | backend/simulations/TestC1.py:77 | `[i*dt for i in range(Nt + 1)]` has `Nt + 1` entries, entry `i` the time of `i` steps |
| TestC1MacCormack.DefaultConfig | backend/simulations/TestC1.py:15-32 | the hard-coded constants are a valid configuration with `Nx = 400` |
| TestC1MacCormack.Spacing | backend/simulations/TestC1.py:23 | `dz = L / Nx` is positive |
| TestC1MacCormack.Scaled | backend/simulations/TestC1.py:44-45 | `amp * bump(...)` scales every entry by `amp` |
| TestC1MacCormack.InitialFields | backend/simulations/TestC1.py:41-45 | node `i` of the `Nx + 1` nodes holds `amp_A` and `amp_Q` times the bumps at `z[i]` |
| TestC1MacCormack.LevelsShape | backend/simulations/TestC1.py:75-80 | level 0 is the initial state (areas shifted by `A_ref`) at time 0, and every later level is reflected at both ends |
| TestC1MacCormack.Assemble | backend/simulations/TestC1.py:75-80 | the output is `x = z`, the times `i dt`, and the stored rows, with areas shifted by `A_ref` |
| TestC1MacCormack.RunSimulation | backend/simulations/TestC1.py:3-80 | the output holds `Nt + 1` levels from the adjusted grid with `Nt dt = Tfinal`; level `n` holds the state after `n` passes at time `n dt`; positions are `linspace(0, L, Nx + 1)` |
| Test1ZMacCormack.Flux | backend/test1_z.py:39-40 | `flux(Q, A)` is the pair `(A, Q)` |
| Test1ZMacCormack.PredictorIsFluxForm | backend/test1_z.py:50-57 | the predictor takes forward differences of `flux(Q, A)`, which is the TestC1 predictor |
| Test1ZMacCormack.CorrectorIsFluxForm | backend/test1_z.py:64-68 | the corrector takes backward differences of `flux(Qp, Ap)` against its roll |
| Test1ZMacCormack.PatchAtOnce | backend/test1_z.py:46-47 | the tuple-assignment patch keeps the lengths and, from three nodes on, reflects both fields |
| Test1ZMacCormack.StepOf | backend/test1_z.py:43-70 | a pass keeps the node count |
| Test1ZMacCormack.StepEndsUnpatched | backend/test1_z.py:67-70 | the state a pass leaves is not re-patched: node 0 holds the corrector value built from the last node of the patched predictor |
| Test1ZMacCormack.StepThroughPatch | backend/test1_z.py:46-47 | a pass sees its input only through the patched input |
| Test1ZMacCormack.StepIgnoresEnds | backend/test1_z.py:46-47 | from three nodes on, the end values a pass starts from do not change its result |
| Test1ZMacCormack.StepKeepsRest | backend/test1_z.py:43-70 | a pass from a uniform area at rest stays at rest with the same area |
| Test1ZMacCormack.StepFixesRest | backend/test1_z.py:43-70 | a uniform area at rest is a fixed point of a pass |
| Test1ZMacCormack.IterateStaysAtRest | backend/test1_z.py:43-70 | every state of a run from rest is at rest |
| Test1ZMacCormack.IterateKeepsRest | backend/test1_z.py:43-70 | such a state stays unchanged for any number of passes |
| Test1ZMacCormack.StepArrays | backend/test1_z.py:46-70 | one pass over arrays produces `StepOf` of the old contents |
| Test1ZMacCormack.FirstReach | backend/test1_z.py:71-76 | the first step whose time `k dt` passes `t >= ts - 1e-6` is the least such step, or none exists |
| Test1ZMacCormack.SaveAt | backend/test1_z.py:74-76 | the save loop keeps the keys, fills an empty entry whose save time is passed, and leaves every other entry alone |
| Test1ZMacCormack.SaveSnapshots | backend/test1_z.py:74-76 | the loop over the list of save times computes `SaveAt` |
| Test1ZMacCormack.SavedFrom | backend/test1_z.py:35-37 | the `saved` dictionary has exactly the save times and 0 as keys |
| Test1ZMacCormack.SavedAtStart | backend/test1_z.py:35-37 | the initial dictionary is all `None` except key 0, which holds the initial snapshot |
| Test1ZMacCormack.SaveAdvances | backend/test1_z.py:71-76 | the save loop after pass `n` turns the record of `n - 1` passes into that of `n` |
| Test1ZMacCormack.StepAndSave | backend/test1_z.py:43-76 | pass `n` leaves the state after `n` passes, the dictionary of `n` passes, and `t = n dt` |
| Test1ZMacCormack.Run | backend/test1_z.py:42-76 | the loop ends with the state after `Nt` passes, the dictionary of the whole run, and `t = Nt dt` |
| Test1ZMacCormack.SavedUpToFinal | backend/test1_z.py:71-76 | when `Nt dt = Tfinal`, a save time up to `Tfinal` has a snapshot |
| Test1ZMacCormack.DefaultConfig | backend/test1_z.py:5-35 | the hard-coded constants are valid, with 400 intervals and six save times, the first 0, all at most `Tfinal` |
| Test1ZMacCormack.Spacing | backend/test1_z.py:7 | `dz = L / Nx` is positive |
| Test1ZMacCormack.InitialFields | backend/test1_z.py:29-31 | node `i` holds the flow and area bumps at `z[i]` |
| Test1ZMacCormack.InitialArrays | backend/test1_z.py:29-31 | the arrays hold `InitialFields` |
| Test1ZMacCormack.AllSavedUpToFinal | backend/test1_z.py:35-76 | every save time up to `Tfinal` gets its snapshot |
| Test1ZMacCormack.Script | backend/test1_z.py:4-76 | the script's loop ends at `t = Tfinal` with a snapshot for every save time up to `Tfinal` |
| HalfStepLaxWendroff.HalfOfQuotient | backend/simulations/Test_model_laxw_half_step.py:39-40 | the area `x / (2c)` given to a boundary node, times `c`, is `x / 2` |
| HalfStepLaxWendroff.InletBc | backend/simulations/Test_model_laxw_half_step.py:37-40 | `inlet_bc` writes node 0 only; there `W+ = 0` and `W-` equals that of node 1 |
| HalfStepLaxWendroff.OutletBc | backend/simulations/Test_model_laxw_half_step.py:42-45 | `outlet_bc` writes the last node only; there `W- = 0` and `W+` equals that of the node before |
| HalfStepLaxWendroff.InletBcIdempotent | backend/simulations/Test_model_laxw_half_step.py:37-40 | applying `inlet_bc` twice is the same as once |
| HalfStepLaxWendroff.OutletBcIdempotent | backend/simulations/Test_model_laxw_half_step.py:42-45 | applying `outlet_bc` twice is the same as once |
| HalfStepLaxWendroff.BcsCommute | backend/simulations/Test_model_laxw_half_step.py:56-57 | from three nodes on, the order of the two conditions does not matter |
| HalfStepLaxWendroff.BcsOnTwoNodes | backend/simulations/Test_model_laxw_half_step.py:56-57 | on two nodes the outlet condition overwrites the inlet node, leaving both characteristics 0 there |
| HalfStepLaxWendroff.HalfStep | backend/simulations/Test_model_laxw_half_step.py:59-70 | `A_half`, `Q_half` have `N - 1` entries, edge `i` computed from nodes `i` and `i + 1` |
| HalfStepLaxWendroff.HalfStepLocal | backend/simulations/Test_model_laxw_half_step.py:62-70 | edge `i` depends only on nodes `i` and `i + 1` |
| HalfStepLaxWendroff.FullStep | backend/simulations/Test_model_laxw_half_step.py:72-80 | the copies hold the full-step update at nodes `1..N-2` and the old values at the ends |
| HalfStepLaxWendroff.FullStepKeepsEnds | backend/simulations/Test_model_laxw_half_step.py:72-80 | the full step leaves the two end nodes as they were |
| HalfStepLaxWendroff.FullStepLocal | backend/simulations/Test_model_laxw_half_step.py:75-80 | an interior node depends only on its old value and the two edges beside it |
| HalfStepLaxWendroff.HalfStepOfConstant | backend/simulations/Test_model_laxw_half_step.py:62-70 | without damping, a constant state has constant edge values |
| HalfStepLaxWendroff.FullStepOfConstantEdges | backend/simulations/Test_model_laxw_half_step.py:75-80 | without damping, constant edges leave every node unchanged |
| HalfStepLaxWendroff.StepOf | backend/simulations/Test_model_laxw_half_step.py:56-85 | a pass keeps the node count |
| HalfStepLaxWendroff.StepCharacteristics | backend/simulations/Test_model_laxw_half_step.py:82-83 | after a pass on three or more nodes, the inlet carries `W+ = 0` and the `W-` of node 1, and the outlet carries `W- = 0` and the `W+` of the node before |
| HalfStepLaxWendroff.StepKeepsZero | backend/simulations/Test_model_laxw_half_step.py:54-85 | the all-zero state stays zero |
| HalfStepLaxWendroff.BcsKeepZero | backend/simulations/Test_model_laxw_half_step.py:37-45 | both conditions keep the all-zero state |
| HalfStepLaxWendroff.HalfStepOfZero | backend/simulations/Test_model_laxw_half_step.py:62-70 | the edges of the zero state are zero, with or without damping |
| HalfStepLaxWendroff.FullStepOfZero | backend/simulations/Test_model_laxw_half_step.py:75-80 | the full step from zero with zero edges is zero |
| HalfStepLaxWendroff.ApplyInletBc | backend/simulations/Test_model_laxw_half_step.py:37-40 | in place, the arrays become `InletBc` of their old contents |
| HalfStepLaxWendroff.ApplyOutletBc | backend/simulations/Test_model_laxw_half_step.py:42-45 | in place, the arrays become `OutletBc` of their old contents |
| HalfStepLaxWendroff.HalfStepArrays | backend/simulations/Test_model_laxw_half_step.py:59-70 | the half-step loop fills new arrays with `HalfStep` |
| HalfStepLaxWendroff.FullStepArrays | backend/simulations/Test_model_laxw_half_step.py:72-80 | the full-step loop on copies produces `FullStep` |
| HalfStepLaxWendroff.StepArrays | backend/simulations/Test_model_laxw_half_step.py:56-85 | one pass over arrays produces `StepOf` of the old contents |
| HalfStepLaxWendroff.RecordSnapshot | backend/simulations/Test_model_laxw_half_step.py:87-90 | `n % snap_every == 0` appends the state after pass `n` and the label `n dt`, exactly at the multiples |
| HalfStepLaxWendroff.Run | backend/simulations/Test_model_laxw_half_step.py:54-94 | the loop takes `ceil(Nt / snap_every)` snapshots; snapshot `k` holds the state after `k e + 1` passes and is labelled `k e dt` |
| HalfStepLaxWendroff.SnapshotLabelLagsState | backend/simulations/Test_model_laxw_half_step.py:85-90 | a snapshot's label is one `dt` behind the state it holds |
| WindkesselLaxWendroff.BhWindow | backend/simulations/health_wk_laxw.py:88-98 | the window is 0 outside `[0, T_heart]` and the four-term Blackman-Harris sum inside |
| WindkesselLaxWendroff.MaxOf | backend/simulations/health_wk_laxw.py:102 | the maximum is an element, and no element exceeds it |
| WindkesselLaxWendroff.WindowSamples | backend/simulations/health_wk_laxw.py:100-101 | 2001 samples of the window on `linspace(0, T_heart, 2001)` |
| WindkesselLaxWendroff.SampledWindowMax | backend/simulations/health_wk_laxw.py:100-102 | `w_max` is attained at a sample and bounds every sample |
| WindkesselLaxWendroff.Pulse | backend/simulations/health_wk_laxw.py:110-112 | a pulse of positive length is 0 before its onset and after its window of `len / c_rel` periods has ended |
| WindkesselLaxWendroff.InletPressure | backend/simulations/health_wk_laxw.py:104-117 | within each beat the inlet pressure is the diastolic `P_dias` before the first onset (`tD`) and after the last pulse ends (`tP + LP`) |
| WindkesselLaxWendroff.InletPressurePeriodic | backend/simulations/health_wk_laxw.py:104-117 | `inlet_pressure` is periodic with the heart period |
| WindkesselLaxWendroff.ScriptPhysics | backend/simulations/health_wk_laxw.py:33-143 | the derived coefficients are positive, `lambda_A Rd Cw = 1`, `c0 alpha = 1/Cw + Rp/(Rd Cw)` and `c2 alpha = Lint` |
| WindkesselLaxWendroff.InletArea | backend/simulations/health_wk_laxw.py:175-176 | `P_ref + alpha A~[0]` recovers the prescribed inlet pressure |
| WindkesselLaxWendroff.LwArea | backend/simulations/health_wk_laxw.py:187-193 | the area update at an interior node keeps a uniform area under uniform flow |
| WindkesselLaxWendroff.LwFlow | backend/simulations/health_wk_laxw.py:187-197 | the flow update at an interior node, on uniform area and flow, only damps the flow by `1 - dt delta` |
| WindkesselLaxWendroff.LwInterior | backend/simulations/health_wk_laxw.py:182-197 | the copies hold the Lax-Wendroff update at nodes `1..Nx-2` and the old values at the ends |
| WindkesselLaxWendroff.LwInteriorKeepsEnds | backend/simulations/health_wk_laxw.py:182-185 | the interior loop keeps the end values of its copies |
| WindkesselLaxWendroff.LwInteriorLocal | backend/simulations/health_wk_laxw.py:185-197 | node `i` reads only the old values at `i - 1`, `i`, `i + 1` |
| WindkesselLaxWendroff.LwInteriorConstant | backend/simulations/health_wk_laxw.py:187-197 | on constant fields the interior keeps `A` and scales `Q` by `1 - dt delta`; with `delta = 0` nothing changes |
| WindkesselLaxWendroff.BoundaryFlow | backend/simulations/health_wk_laxw.py:199-205 | the one-sided boundary flow update, on a flat area, only damps the flow by `1 - dt delta` |
| WindkesselLaxWendroff.WindkesselEuler | backend/simulations/health_wk_laxw.py:220-225 | the new outlet area solves the forward-difference form of `dA/dt + lambda_A A = c2 Q'' + c1 Q' + c0 Q` at the old area |
| WindkesselLaxWendroff.FlowDerivatives | backend/simulations/health_wk_laxw.py:212-218 | cold start: both derivatives are exactly 0 for `n < 2`; afterwards they are the backward differences of the history |
| WindkesselLaxWendroff.PatchedArea | backend/simulations/health_wk_laxw.py:175-179 | only the two ends of `A~` change: the inlet area and the Windkessel state |
| WindkesselLaxWendroff.Advance | backend/simulations/health_wk_laxw.py:171-232 | a pass keeps the shapes of the state |
| WindkesselLaxWendroff.AdvanceBoundaries | backend/simulations/health_wk_laxw.py:175-228 | after a pass: the inlet area carries the inlet pressure, both boundary flows follow the one-sided rule, the register is `[Q_new[-1], old[0], old[1]]`, and the outlet area is the Euler-updated Windkessel state |
| WindkesselLaxWendroff.AdvanceInterior | backend/simulations/health_wk_laxw.py:182-197 | away from the ends a pass is the Lax-Wendroff update of the patched arrays |
| WindkesselLaxWendroff.ColdStartIgnoresHistory | backend/simulations/health_wk_laxw.py:207-225 | for `n < 2` the outlet area does not depend on the flow history, and it is one Euler step using `c0 Q_new[-1]` only |
| WindkesselLaxWendroff.RestIsFixedPoint | backend/simulations/health_wk_laxw.py:148-155 | the initial all-zero state with the reference inlet pressure is a fixed point of a pass |
| WindkesselLaxWendroff.AdvanceAtRest | backend/simulations/health_wk_laxw.py:171-232 | any zero state with a zero register is left unchanged by a pass at the reference pressure |
| WindkesselLaxWendroff.PassOf | backend/simulations/health_wk_laxw.py:171-175 | pass `n` uses the inlet pressure at `t = n dt` and keeps the shapes |
| WindkesselLaxWendroff.Evolve | backend/simulations/health_wk_laxw.py:171 | the state after `k` passes keeps the shapes |
| WindkesselLaxWendroff.FollowsExtend | backend/simulations/health_wk_laxw.py:171-232 | appending the next pass keeps a list of states a run of the loop |
| WindkesselLaxWendroff.FollowsEvolves | backend/simulations/health_wk_laxw.py:171-232 | every state along such a list is the state after that many passes |
| WindkesselLaxWendroff.EvolveInletPressure | backend/simulations/health_wk_laxw.py:172-176 | after pass `k`, the inlet node carries the inlet pressure of time `(k - 1) dt` |
| WindkesselLaxWendroff.PassInletPressure | backend/simulations/health_wk_laxw.py:172-176 | pass `n` leaves the inlet pressure of time `n dt` at the inlet node |
| WindkesselLaxWendroff.LaxWendroffInterior | backend/simulations/health_wk_laxw.py:182-197 | the interior loop over arrays produces `LwInterior` of the contents |
| WindkesselLaxWendroff.PatchEnds | backend/simulations/health_wk_laxw.py:175-179 | in place, only the two ends of `A~` change, to the inlet area and the Windkessel state |
| WindkesselLaxWendroff.BoundaryFlows | backend/simulations/health_wk_laxw.py:199-205 | `Q_new[0]` and `Q_new[-1]` get the one-sided updates; nothing else changes |
| WindkesselLaxWendroff.ShiftIn | backend/simulations/health_wk_laxw.py:208-210 | the register becomes `[v, old[0], old[1]]` |
| WindkesselLaxWendroff.OutletUpdate | backend/simulations/health_wk_laxw.py:212-225 | the new Windkessel state is one Euler step with the flow derivatives of the shifted register |
| WindkesselLaxWendroff.InteriorArrays | backend/simulations/health_wk_laxw.py:175-205 | the patch in place, then the interior and boundary flows into new arrays |
| WindkesselLaxWendroff.AdvanceArrays | backend/simulations/health_wk_laxw.py:171-232 | one pass over arrays produces `Advance` of the old state |
| WindkesselLaxWendroff.RecordedAlongExtend | backend/simulations/health_wk_laxw.py:234-240 | one more pass with its recording extends the record by one |
| WindkesselLaxWendroff.RecordedAlongEvolves | backend/simulations/health_wk_laxw.py:171-240 | a record along the states passed through is the record of the run |
| WindkesselLaxWendroff.WindkesselRun.State | backend/simulations/health_wk_laxw.py:148-155 | the solver state keeps the shapes |
| WindkesselLaxWendroff.WindkesselRun.constructor | backend/simulations/health_wk_laxw.py:148-167 | zero perturbations, Windkessel state and register, and empty histories |
| WindkesselLaxWendroff.WindkesselRun.Step | backend/simulations/health_wk_laxw.py:171-240 | pass `n` moves the state by `Advance` with the inlet pressure at `n dt` and appends the time `n dt + dt` and the three readings |
| WindkesselLaxWendroff.WindkesselRun.Pass | backend/simulations/health_wk_laxw.py:174-232 | the numerical part of a pass moves the state by `Advance` and leaves the histories |
| WindkesselLaxWendroff.WindkesselRun.Record | backend/simulations/health_wk_laxw.py:235-240 | appends `t` and, at each monitored node, `A_ref + A~`, `Q~` and `P_ref + alpha A~` |
| WindkesselLaxWendroff.WindkesselRun.StepAlong | backend/simulations/health_wk_laxw.py:171-240 | pass `n` with its recording extends the run's list of states and its record by one |
| WindkesselLaxWendroff.WindkesselRun.Run | backend/simulations/health_wk_laxw.py:171-240 | the script's one loop, passes numbered from 0 on a run that has recorded nothing yet: `Nt` passes end in the state after `Nt` passes, and the histories hold one reading per pass at time `(k + 1) dt`, taken from the state after `k + 1` passes |
| DampedPressureTable.InletPressure | backend/simulation.py:15-16 | `13300 + 2000 sin(2 pi 1.5 t)` lies between 11300 and 15300 wherever `sin` lies in `[-1, 1]` |
| DampedPressureTable.Entry | backend/simulation.py:13-21 | the entry the row-by-row loop leaves at `P[n, i]` is 0 wherever `i >= n`, ahead of the damping front |
| DampedPressureTable.EntryClosedForm | backend/simulation.py:13-21 | `P[n, i] = 0` when `i >= n` (row 0 in particular); otherwise `P[n, i] = 0.98^i inlet_pressure((n - i) dt)` |
| DampedPressureTable.FillRow | backend/simulation.py:19-21 | row `n` becomes the inlet pressure at `n dt` followed by the damped row above, shifted one column; the rows below are untouched |
| DampedPressureTable.PressureTable | backend/simulation.py:13-21 | the `(Nt, Nz)` table holds `Entry` everywhere |
| DampedPressureTable.TimeAxis | backend/simulation.py:22 | `np.arange(Nt) * dt` has `Nt` entries, entry `k` being `k dt` |
| DampedPressureTable.RunSimulation | backend/simulation.py:4-23 | `z = linspace(0, L, Nz)`, the `(Nt, Nz)` table, and `P[n, 0]` equal to the inlet pressure at `time[n]` for `n >= 1` |
| DampedPressureTable.TableAlongTimeAxis | backend/simulation.py:13-22 | read against the time axis, `P[n, i]` is 0 ahead of the front and otherwise `0.98^i` times the inlet pressure at `time[n - i]` |
| DemoPressureField.ModeOf | backend/app/simulation/healthy.py:28-44 | each known kind selects its fixed tuple; any other kind raises `ValueError("Unknown simulation kind: ...")`; every mode has `0 < amp < P0` and `decay > 0` |
| DemoPressureField.RawPressure | backend/app/simulation/healthy.py:47-49 | with `amp >= 0`, the envelope in `(0, 1]` and the sine in `[-1, 1]`, the unclipped field lies within `amp` of `P0` |
| DemoPressureField.Field | backend/app/simulation/healthy.py:47-51 | `P` has shape `(num_t, num_z)`, is never negative, equals the raw formula wherever that is non-negative, and is exactly 0 wherever it is negative |
| DemoPressureField.BaseSimulation | backend/app/simulation/healthy.py:4-53 | it errs exactly for an unknown kind; otherwise `z` and `t` are the two `linspace` grids, `P` has shape `(num_t, num_z)`, is non-negative, and `P[j][i]` depends on `t[j]` and `z[i]` only |
| DemoPressureField.SimulateT | backend/app/simulation/healthy.py:56-57 | the default `"t"` run succeeds on the 240 by 160 grid |
| DemoPressureField.SimulateZ | backend/app/simulation/healthy.py:60-61 | the default `"z"` run succeeds on the 240 by 160 grid |
| DemoPressureField.SimulateWk | backend/app/simulation/healthy.py:64-65 | the default `"wk"` run succeeds on the 240 by 160 grid |
| DemoPressureField.DampedSwingBound | backend/app/simulation/healthy.py:47 | an envelope in `[0, 1]` times a sine in `[-1, 1]` swings the pressure by at most `amp` |
| DemoPressureField.RawWithinSwing | backend/app/simulation/healthy.py:47-49 | on the artery the raw field stays within `amp` of `P0`, never below `P0 - amp` |
| DemoPressureField.ClipInactive | backend/app/simulation/healthy.py:47-51 | for every known kind the clip never changes a value, since the field stays at or above `P0 - amp > 0` |

## Left out

- Floating point: all arithmetic is over exact reals. Rounding, CFL stability, order of accuracy and
  approximate conservation are not stated. Identities such as `Nt dt = Tfinal` and `tau = i dt` hold
  exactly here, and may fail by a rounding error in the scripts.
- `cos`, `sin`, `exp` and `pi` are fields of a `Transcendentals` record passed in. Nothing is assumed
  about them except the bounds on `sin` and on `exp` of a non-positive argument in
  `DemoPressureField.ClipInactive` and `DemoPressureField.RawWithinSwing`, and `pi > 0` in
  `WindkesselLaxWendroff.ScriptPhysics`.
- `np.sqrt` and the wave speed of `health_wk_laxw.py`: line 143 rebinds `c0` to the Windkessel
  coefficient, so the stencil uses that value, and the model does the same. The square root of line 59
  is never read after that.
- `np.argmin` for the monitored nodes of `health_wk_laxw.py`: the three node indices are a parameter.
- Plotting (`matplotlib`, sliders), `print` diagnostics, the HTTP servers, the module registry and the
  front end are not part of this model.
- The Gaussian initial data of `Test_model_laxw_half_step.py`: `HalfStepLaxWendroff.Run` starts from
  any arrays of at least two nodes.
- The fixed sizes of `health_wk_laxw.py` (`Nx = int(L/dz) + 1`, `Nt = int(T_final/dt)`) and of
  `Test_model_laxw_half_step.py`: the models take the node and step counts as parameters.
  `HalfStepLaxWendroff.Run` also takes the snapshot stride as a parameter and requires it to be at
  least 1. The script fixes `snap_every = 10`, so its zero and negative cases are not modelled.
- `Numerics.Clock`: `tau += dt` is modelled as repeated addition, and `Numerics.ClockIsProduct` proves
  it equal to `i * dt` over the reals.
- `WindkesselLaxWendroff.FlowDerivatives`: the division by `dt**2` is written as two divisions by `dt`,
  which is equal over the reals.
- `Sim1MacCormack.RunSimulation`: for `save_every == 0` the first `n % save_every` raises before
  anything is recorded. The model returns the error before the loop, with the same result.
- `HalfStepLaxWendroff.Valid` requires `c` and `dz` non-zero, and `WindkesselLaxWendroff.Valid`
  requires `dt` and `dz` positive and `alpha` non-zero. The scripts fix these to constants that meet
  the requirements.
- `WindkesselLaxWendroff.WindkesselRun`: the window maximum `w_max` must be non-zero; it is computed
  from the window samples (`WindkesselLaxWendroff.SampledWindowMax`).
- The `ValueError` text of `DemoPressureField.ModeOf` is the message string only; the exception type
  is the `ValueError` constructor.
- `DampedPressureTable.PressureTable` requires at least one column; the script has 100, and with none
  the write to `P[n, 0]` would raise.
