/** test1_z.py: the module-level MacCormack loop for the same wave pair as TestC1.py, with the boundary
    patched by simultaneous tuple assignments at the start of the step and after the predictor but not
    after the corrector, and snapshots kept at a list of save times. */
module Test1ZMacCormack {
  import opened Numerics
  import opened Grid
  import opened FieldArrays
  import opened Reflecting
  import opened CosineBump
  import C1 = TestC1MacCormack

  /** `flux(Q, A)`: the flux vector `F = (A, Q)`, so the flux of the flow is the area and the flux of
      the area is the flow. */
  function Flux(q: seq<real>, a: seq<real>): (r: (seq<real>, seq<real>))
    ensures r.0 == a && r.1 == q
  {
    (a, q)
  }

  /** The predictor of TestC1MacCormack takes the forward differences of this flux: the flow update
      differences `F_Q`, the area update differences `F_A`. */
  lemma PredictorIsFluxForm(p: C1.Params, f: Fields, i: nat)
    requires p.dz != 0.0 && |f.a| >= 2 && f.HasNodes(|f.a|) && i < |f.a| - 1
    ensures var fl := Flux(f.q, f.a);
            C1.Predictor(p, f).q[i] == C1.PredictFlow(p, f.q[i], fl.0[i], fl.0[i + 1]) &&
            C1.Predictor(p, f).a[i] == C1.PredictArea(p, f.a[i], fl.1[i], fl.1[i + 1])
  {
  }

  /** The corrector takes the backward differences of the predicted flux `flux(Qp, Ap)` against its
      `np.roll` by one. */
  lemma CorrectorIsFluxForm(p: C1.Params, f: Fields, fp: Fields, i: nat)
    requires p.dz != 0.0 && |f.a| >= 2 && f.HasNodes(|f.a|) && fp.HasNodes(|f.a|) && i < |f.a|
    ensures var fl := Flux(fp.q, fp.a);
            C1.Corrector(p, f, fp).q[i] == C1.CorrectFlow(p, f.q[i], fp.q[i], fl.0[i], C1.Roll(fl.0)[i]) &&
            C1.Corrector(p, f, fp).a[i] == C1.CorrectArea(p, f.a[i], fp.a[i], fl.1[i], C1.Roll(fl.1)[i])
  {
  }

  /** `Q[0], Q[-1] = Q[1], Q[-2]` and `A[0], A[-1] = A[1], A[-2]`. */
  function PatchAtOnce(f: Fields): (r: Fields)
    requires |f.a| >= 2 && f.HasNodes(|f.a|)
    ensures r.HasNodes(|f.a|)
    ensures |f.a| >= 3 ==> Reflected(r.a) && Reflected(r.q)
  {
    Fields(CopyNeighboursAtOnce(f.a), CopyNeighboursAtOnce(f.q))
  }

  /** One pass of the loop: patch, predictor, patch of the predictor, corrector; the corrector's output
      becomes the new state as it is. */
  function StepOf(p: C1.Params, f: Fields): (r: Fields)
    requires p.dz != 0.0 && |f.a| >= 2 && f.HasNodes(|f.a|)
    ensures r.HasNodes(|f.a|)
  {
    var g := PatchAtOnce(f);
    C1.Corrector(p, g, PatchAtOnce(C1.Predictor(p, g)))
  }

  /** The state after `k` passes. */
  function Iterate(p: C1.Params, f: Fields, k: nat): (r: Fields)
    requires p.dz != 0.0 && |f.a| >= 2 && f.HasNodes(|f.a|)
    ensures r.HasNodes(|f.a|)
  {
    if k == 0 then f else StepOf(p, Iterate(p, f, k - 1))
  }

  /** The end nodes of the state a pass leaves are not patched: node 0 holds the corrector's value,
      whose neighbour below is the last node of the patched predictor. */
  lemma StepEndsUnpatched(p: C1.Params, f: Fields)
    requires p.dz != 0.0 && |f.a| >= 2 && f.HasNodes(|f.a|)
    ensures var g := PatchAtOnce(f);
            var fp := PatchAtOnce(C1.Predictor(p, g));
            var n := |f.a|;
            StepOf(p, f).q[0] == C1.CorrectFlow(p, g.q[0], fp.q[0], fp.a[0], fp.a[n - 1]) &&
            StepOf(p, f).a[0] == C1.CorrectArea(p, g.a[0], fp.a[0], fp.q[0], fp.q[n - 1])
  {
  }

  /** A pass depends on its input only through the patched input. */
  lemma StepThroughPatch(p: C1.Params, f: Fields, h: Fields)
    requires p.dz != 0.0 && |f.a| >= 2 && f.HasNodes(|f.a|) && h.HasNodes(|f.a|)
    requires PatchAtOnce(h) == PatchAtOnce(f)
    ensures StepOf(p, h) == StepOf(p, f)
  {
  }

  /** From three nodes on, the end values a pass starts from do not matter: the patch at the start of
      the next pass overwrites them, so the unpatched ends only show in the saved snapshots. */
  lemma StepIgnoresEnds(p: C1.Params, f: Fields, a0: real, aLast: real, q0: real, qLast: real)
    requires p.dz != 0.0 && |f.a| >= 3 && f.HasNodes(|f.a|)
    ensures var n := |f.a|;
            StepOf(p, Fields(f.a[0 := a0][n - 1 := aLast], f.q[0 := q0][n - 1 := qLast])) == StepOf(p, f)
  {
    var n := |f.a|;
    var h := Fields(f.a[0 := a0][n - 1 := aLast], f.q[0 := q0][n - 1 := qLast]);
    AtOnceIgnoresEnds(f.a, a0, aLast);
    AtOnceIgnoresEnds(f.q, q0, qLast);
    StepThroughPatch(p, f, h);
  }

  /** A pass leaves a uniform area at rest uniform and at rest, with the same area. */
  lemma StepKeepsRest(p: C1.Params, f: Fields, v: real)
    requires p.dz != 0.0 && |f.a| >= 2 && f.HasNodes(|f.a|)
    ensures AtRest(f, v) ==> AtRest(StepOf(p, f), v)
  {
    if AtRest(f, v) {
      var n := |f.a|;
      var g := PatchAtOnce(f);
      assert g == f;
      var pr := C1.Predictor(p, f);
      forall i | 0 <= i < n ensures pr.a[i] == v && pr.q[i] == 0.0 {
        if i < n - 1 {
          assert pr.a[i] == C1.PredictArea(p, v, 0.0, 0.0);
          assert pr.q[i] == C1.PredictFlow(p, 0.0, v, v);
        }
      }
      var fp := PatchAtOnce(pr);
      assert fp == pr;
      var co := C1.Corrector(p, f, fp);
      forall i | 0 <= i < n ensures co.a[i] == v && co.q[i] == 0.0 {
        assert co.a[i] == C1.CorrectArea(p, v, v, 0.0, 0.0);
        assert co.q[i] == C1.CorrectFlow(p, 0.0, 0.0, v, v);
      }
    }
  }

  /** A uniform area at rest is a fixed point of a pass. */
  lemma StepFixesRest(p: C1.Params, f: Fields, v: real)
    requires p.dz != 0.0 && |f.a| >= 2 && f.HasNodes(|f.a|)
    requires Constant(f.a, v) && Constant(f.q, 0.0)
    ensures StepOf(p, f) == f
  {
    StepKeepsRest(p, f, v);
    var r := StepOf(p, f);
    assert r.a == f.a && r.q == f.q;
  }

  /** Every state of a run from a uniform area at rest is uniform with that area and at rest. */
  lemma IterateStaysAtRest(p: C1.Params, f: Fields, v: real, k: nat)
    requires p.dz != 0.0 && |f.a| >= 2 && f.HasNodes(|f.a|)
    requires AtRest(f, v)
    ensures AtRest(Iterate(p, f, k), v)
  {
    var t := States(p, f, k);
    forall n | 0 < n < |t| ensures AtRest(t[n - 1], v) ==> AtRest(t[n], v) {
      IterateStepKeepsRest(p, f, v, n);
    }
    RestAlong(t, v, k);
  }

  /** The induction step of `IterateStaysAtRest`: a pass from a state at rest stays at rest. */
  lemma IterateStepKeepsRest(p: C1.Params, f: Fields, v: real, k: nat)
    requires p.dz != 0.0 && |f.a| >= 2 && f.HasNodes(|f.a|) && k > 0
    ensures AtRest(Iterate(p, f, k - 1), v) ==> AtRest(Iterate(p, f, k), v)
  {
    StepKeepsRest(p, Iterate(p, f, k - 1), v);
  }

  /** A uniform area at rest, the all-zero state in particular, stays put for any number of passes. */
  lemma IterateKeepsRest(p: C1.Params, f: Fields, v: real, k: nat)
    requires p.dz != 0.0 && |f.a| >= 2 && f.HasNodes(|f.a|)
    requires Constant(f.a, v) && Constant(f.q, 0.0)
    ensures Iterate(p, f, k) == f
  {
    IterateStaysAtRest(p, f, v, k);
    var r := Iterate(p, f, k);
    assert r.a == f.a && r.q == f.q;
  }

  /** One pass over arrays: the tuple-assignment patches in place, then predictor, patch, corrector;
      `Q, A = Q_new, A_new`. */
  method StepArrays(p: C1.Params, a: array<real>, q: array<real>) returns (aNew: array<real>, qNew: array<real>)
    requires p.dz != 0.0 && a.Length >= 2 && q.Length == a.Length && a != q
    modifies a, q
    ensures fresh(aNew) && fresh(qNew) && aNew != qNew && aNew.Length == a.Length && qNew.Length == a.Length
    ensures Fields(aNew[..], qNew[..]) == StepOf(p, Fields(old(a[..]), old(q[..])))
  {
    ApplyReflectingAtOnce(q, a);
    var ap, qp := C1.PredictorArrays(p, a, q);
    ApplyReflectingAtOnce(qp, ap);
    aNew, qNew := C1.CorrectorArrays(p, a, q, ap, qp);
  }

  /** The tolerance `1e-6` of the save test `t >= ts - 1e-6`. */
  const Tol: real := 0.000001

  /** The first step `k` in `1..n` whose time `k dt` passes the save test for `ts`, if any. */
  function FirstReach(ts: real, dt: real, n: nat): (r: Option<nat>)
    ensures r.Some? ==> 1 <= r.value <= n && Clock(r.value, dt) >= ts - Tol
    ensures r.Some? ==> forall j :: 1 <= j < r.value ==> Clock(j, dt) < ts - Tol
    ensures r.None? ==> forall j :: 1 <= j <= n ==> Clock(j, dt) < ts - Tol
  {
    if n == 0 then None
    else
      var prev := FirstReach(ts, dt, n - 1);
      if prev.Some? then prev else if Clock(n, dt) >= ts - Tol then Some(n) else None
  }

  /** Copies of `Q` and `A`, as the dictionary `saved` keeps them. */
  datatype Snapshot = Snapshot(q: seq<real>, a: seq<real>)

  /** The save loop `for ts in save_times` at time `t`: a save time whose entry is still `None` and
      that passes the test takes a copy of the state; every other entry keeps its value. */
  function SaveAt(saved: map<real, Option<Snapshot>>, saveTimes: seq<real>, t: real, cur: Snapshot): (r: map<real, Option<Snapshot>>)
    ensures r.Keys == saved.Keys
    ensures forall ts :: ts in saved ==>
      r[ts] == (if ts in saveTimes && saved[ts].None? && t >= ts - Tol then Some(cur) else saved[ts])
  {
    map ts | ts in saved :: if ts in saveTimes && saved[ts].None? && t >= ts - Tol then Some(cur) else saved[ts]
  }

  /** The save loop over the list, one save time after the other. */
  method SaveSnapshots(saved: map<real, Option<Snapshot>>, saveTimes: seq<real>, t: real, cur: Snapshot)
      returns (saved': map<real, Option<Snapshot>>)
    requires forall ts :: ts in saveTimes ==> ts in saved
    ensures saved' == SaveAt(saved, saveTimes, t, cur)
  {
    saved' := saved;
    for i := 0 to |saveTimes|
      invariant saved' == SaveAt(saved, saveTimes[..i], t, cur)
    {
      var ts := saveTimes[i];
      assert saveTimes[..i + 1] == saveTimes[..i] + [ts];
      if saved'[ts].None? && t >= ts - Tol {
        saved' := saved'[ts := Some(cur)];
      }
    }
    assert saveTimes[..|saveTimes|] == saveTimes;
  }

  /** The snapshot of a state. */
  function SnapshotOf(f: Fields): Snapshot
  {
    Snapshot(f.q, f.a)
  }

  /** `saved` after `n` passes, where `states[k]` is the snapshot after `k` passes: the key `0` holds
      the initial snapshot, every other save time the snapshot of the first pass whose time passes the
      save test, or `None`. */
  function SavedFrom(states: seq<Snapshot>, saveTimes: seq<real>, dt: real, n: nat): (r: map<real, Option<Snapshot>>)
    requires n < |states|
    ensures r.Keys == (set ts | ts in saveTimes) + {0.0}
  {
    map ts | ts in (set ts | ts in saveTimes) + {0.0} ::
      if ts == 0.0 then Some(states[0])
      else
        var k := FirstReach(ts, dt, n);
        if k.Some? then Some(states[k.value]) else None
  }

  /** `saved = {t: None for t in save_times}` followed by `saved[0] = (Q.copy(), A.copy())`. */
  lemma SavedAtStart(states: seq<Snapshot>, saveTimes: seq<real>, dt: real)
    requires |states| >= 1
    ensures (map ts | ts in saveTimes :: None)[0.0 := Some(states[0])] == SavedFrom(states, saveTimes, dt, 0)
  {
  }

  /** The save loop after pass `n` turns the record of `n - 1` passes into that of `n`. */
  lemma SaveAdvances(states: seq<Snapshot>, saveTimes: seq<real>, dt: real, n: nat)
    requires 1 <= n < |states|
    ensures SaveAt(SavedFrom(states, saveTimes, dt, n - 1), saveTimes, Clock(n, dt), states[n]) ==
            SavedFrom(states, saveTimes, dt, n)
  {
    var before, after := SavedFrom(states, saveTimes, dt, n - 1), SavedFrom(states, saveTimes, dt, n);
    var r := SaveAt(before, saveTimes, Clock(n, dt), states[n]);
    forall ts | ts in r ensures r[ts] == after[ts] {
      if ts != 0.0 {
        assert FirstReach(ts, dt, n) ==
          (if FirstReach(ts, dt, n - 1).Some? then FirstReach(ts, dt, n - 1)
           else if Clock(n, dt) >= ts - Tol then Some(n) else None);
      }
    }
  }

  /** The states after `0..nt` passes. */
  ghost function States(p: C1.Params, f: Fields, nt: nat): (r: seq<Fields>)
    requires p.dz != 0.0 && |f.a| >= 2 && f.HasNodes(|f.a|)
    ensures |r| == nt + 1 && forall n :: 0 <= n <= nt ==> r[n] == Iterate(p, f, n)
  {
    seq(nt + 1, n requires 0 <= n <= nt => Iterate(p, f, n))
  }

  /** The snapshots of the first `nt + 1` states of a run from `f`. */
  ghost function Trajectory(p: C1.Params, f: Fields, nt: nat): (r: seq<Snapshot>)
    requires p.dz != 0.0 && |f.a| >= 2 && f.HasNodes(|f.a|)
    ensures |r| == nt + 1 && forall k :: 0 <= k <= nt ==> r[k] == SnapshotOf(Iterate(p, f, k))
  {
    seq(nt + 1, k requires 0 <= k <= nt => SnapshotOf(Iterate(p, f, k)))
  }

  /** A pass of the loop over arrays followed by the save loop. */
  method StepAndSave(p: C1.Params, ghost f: Fields, ghost states: seq<Snapshot>, saveTimes: seq<real>, n: nat,
                     a: array<real>, q: array<real>, saved: map<real, Option<Snapshot>>)
      returns (aNew: array<real>, qNew: array<real>, saved': map<real, Option<Snapshot>>, t: real)
    requires p.dz != 0.0 && |f.a| >= 2 && f.HasNodes(|f.a|) && 1 <= n < |states|
    requires states[n] == SnapshotOf(Iterate(p, f, n))
    requires a.Length == |f.a| && q.Length == |f.a| && a != q
    requires Fields(a[..], q[..]) == Iterate(p, f, n - 1) && saved == SavedFrom(states, saveTimes, p.dt, n - 1)
    modifies a, q
    ensures fresh(aNew) && fresh(qNew) && aNew != qNew && aNew.Length == |f.a| && qNew.Length == |f.a|
    ensures Fields(aNew[..], qNew[..]) == Iterate(p, f, n) && saved' == SavedFrom(states, saveTimes, p.dt, n)
    ensures t == Clock(n, p.dt)
  {
    aNew, qNew := StepArrays(p, a, q);
    t := Clock(n, p.dt);
    saved' := SaveSnapshots(saved, saveTimes, t, Snapshot(qNew[..], aNew[..]));
    SaveAdvances(states, saveTimes, p.dt, n);
  }

  /** The loop `for n in range(1, Nt + 1)` from the initial state with the save times `saveTimes`:
      the final state, the `saved` dictionary and the last time `t = Nt dt`. */
  method Run(p: C1.Params, q0: seq<real>, a0: seq<real>, nt: nat, saveTimes: seq<real>)
      returns (q: seq<real>, a: seq<real>, saved: map<real, Option<Snapshot>>, t: real)
    requires p.dz != 0.0 && |a0| >= 2 && |q0| == |a0|
    ensures Fields(a, q) == Iterate(p, Fields(a0, q0), nt)
    ensures saved == SavedFrom(Trajectory(p, Fields(a0, q0), nt), saveTimes, p.dt, nt)
    ensures t == Clock(nt, p.dt)
  {
    ghost var f := Fields(a0, q0);
    ghost var states := Trajectory(p, f, nt);
    var qArr := ArrayOf(q0);
    var aArr := ArrayOf(a0);
    saved := map ts | ts in saveTimes :: None;
    saved := saved[0.0 := Some(Snapshot(qArr[..], aArr[..]))];
    SavedAtStart(states, saveTimes, p.dt);
    t := 0.0;
    for n := 1 to nt + 1
      invariant aArr.Length == |a0| && qArr.Length == |a0| && aArr != qArr && fresh(aArr) && fresh(qArr)
      invariant Fields(aArr[..], qArr[..]) == Iterate(p, f, n - 1) && saved == SavedFrom(states, saveTimes, p.dt, n - 1)
      invariant t == Clock(n - 1, p.dt)
    {
      aArr, qArr, saved, t := StepAndSave(p, f, states, saveTimes, n, aArr, qArr, saved);
    }
    q, a := qArr[..], aArr[..];
  }

  /** When `Nt dt = Tfinal`, a save time up to `Tfinal` has a snapshot: the one of the first pass that
      reaches it. */
  lemma SavedUpToFinal(states: seq<Snapshot>, saveTimes: seq<real>, dt: real, nt: nat, tFinal: real, ts: real)
    requires 1 <= nt < |states| && Clock(nt, dt) == tFinal && ts in saveTimes && ts <= tFinal
    ensures SavedFrom(states, saveTimes, dt, nt)[ts].Some?
  {
    if ts != 0.0 {
      assert Clock(nt, dt) >= ts - Tol;
      assert FirstReach(ts, dt, nt).Some?;
    }
  }

  /** The script's constants: node count `Nx + 1`, domain length, final time, CFL target, wave speed,
      bump width and centres, and the save times. */
  datatype Config = Config(nx: nat, length: real, tFinal: real, cfl: real, c: real,
                           eps: real, centerQ: real, centerA: real, saveTimes: seq<real>)
  {
    predicate Valid() { nx >= 1 && length > 0.0 && tFinal >= 0.0 && cfl > 0.0 && c > 0.0 && eps != 0.0 }
  }

  /** The values test1_z.py hard-codes; every save time is at most the final time. */
  function DefaultConfig(): (c: Config)
    ensures c.Valid() && c.nx == 400 && |c.saveTimes| == 6 && c.saveTimes[0] == 0.0
    ensures forall ts :: ts in c.saveTimes ==> ts <= c.tFinal
  {
    Config(400, 1.0, 2.6, 0.4, 1.0, 0.02, 0.4, 0.7, [0.0, 0.25, 0.5, 1.0, 1.7, 2.6])
  }

  /** `dz = L / Nx`. */
  function Spacing(c: Config): (dz: real)
    requires c.Valid()
    ensures dz > 0.0
  {
    c.length / c.nx as real
  }

  /** `Q = bump(z, 0.4, epsilon)` and `A = bump(z, 0.7, epsilon)` on `z = np.linspace(0, L, Nx + 1)`. */
  function InitialFields(tr: Transcendentals, c: Config): (f: Fields)
    requires c.Valid()
    ensures f.HasNodes(c.nx + 1)
    ensures forall i :: 0 <= i <= c.nx ==>
      f.q[i] == BumpAt(tr, Linspace(0.0, c.length, c.nx + 1)[i], c.centerQ, c.eps, 1.0) &&
      f.a[i] == BumpAt(tr, Linspace(0.0, c.length, c.nx + 1)[i], c.centerA, c.eps, 1.0)
  {
    var z := Linspace(0.0, c.length, c.nx + 1);
    Fields(seq(c.nx + 1, i requires 0 <= i <= c.nx => BumpAt(tr, z[i], c.centerA, c.eps, 1.0)),
           seq(c.nx + 1, i requires 0 <= i <= c.nx => BumpAt(tr, z[i], c.centerQ, c.eps, 1.0)))
  }

  /** `z = np.linspace(0, L, Nx + 1)` and the two bumps on it. */
  method InitialArrays(tr: Transcendentals, c: Config) returns (q0: seq<real>, a0: seq<real>)
    requires c.Valid()
    ensures Fields(a0, q0) == InitialFields(tr, c)
  {
    var z := Linspace(0.0, c.length, c.nx + 1);
    q0 := Bump(tr, z, c.centerQ, c.eps, 1.0);
    a0 := Bump(tr, z, c.centerA, c.eps, 1.0);
    ghost var f := InitialFields(tr, c);
    assert q0 == f.q && a0 == f.a;
  }

  /** When `Nt dt = Tfinal`, every save time up to `Tfinal` has a snapshot. */
  lemma AllSavedUpToFinal(states: seq<Snapshot>, saveTimes: seq<real>, dt: real, nt: nat, tFinal: real)
    requires 1 <= nt < |states| && Clock(nt, dt) == tFinal
    ensures forall ts :: ts in saveTimes && ts <= tFinal ==>
      ts in SavedFrom(states, saveTimes, dt, nt) && SavedFrom(states, saveTimes, dt, nt)[ts].Some?
  {
    forall ts | ts in saveTimes && ts <= tFinal
      ensures ts in SavedFrom(states, saveTimes, dt, nt) && SavedFrom(states, saveTimes, dt, nt)[ts].Some?
    {
      SavedUpToFinal(states, saveTimes, dt, nt, tFinal, ts);
    }
  }

  /** The whole script: the adjusted time grid, the initial bumps, the loop and its snapshots. The loop
      ends at `t = Tfinal`, and every save time up to `Tfinal` has its snapshot. */
  method Script(tr: Transcendentals, c: Config) returns (saved: map<real, Option<Snapshot>>, t: real)
    requires c.Valid()
    ensures var g := CeilTimeGrid(c.tFinal, c.cfl, Spacing(c), c.c);
            saved == SavedFrom(Trajectory(C1.Params(g.dt, Spacing(c)), InitialFields(tr, c), g.steps), c.saveTimes, g.dt, g.steps)
    ensures t == c.tFinal
    ensures forall ts :: ts in c.saveTimes && ts <= c.tFinal ==> ts in saved && saved[ts].Some?
  {
    var dz := Spacing(c);
    var g := CeilTimeGrid(c.tFinal, c.cfl, dz, c.c);
    var p := C1.Params(g.dt, dz);
    var q0, a0 := InitialArrays(tr, c);
    var q, a;
    q, a, saved, t := Run(p, q0, a0, g.steps, c.saveTimes);
    CeilGridReachesFinal(c.tFinal, c.cfl, dz, c.c);
    AllSavedUpToFinal(Trajectory(p, InitialFields(tr, c), g.steps), c.saveTimes, g.dt, g.steps, c.tFinal);
  }
}
