/** sim1.py: the ghost-cell MacCormack solver of the undamped-flux wave pair
    `a_t + q_x = 0`, `q_t + a_x = -K3 q`, with reflecting boundaries and frames every `save_every` steps. */
module Sim1MacCormack {
  import opened Numerics
  import opened Grid
  import opened FieldArrays
  import opened Reflecting
  import opened CosineBump

  /** Step size, grid spacing and damping coefficient `K3`. */
  datatype Params = Params(dt: real, dx: real, k3: real)

  /** Predictor area at a cell, from the forward difference of the flow. */
  function PredictArea(p: Params, ai: real, qi: real, qNext: real): real
    requires p.dx != 0.0
  {
    ai - (p.dt / p.dx) * (qNext - qi)
  }

  /** Predictor flow at a cell, from the forward difference of the area, damped by `dt*K3*q`. */
  function PredictFlow(p: Params, qi: real, ai: real, aNext: real): real
    requires p.dx != 0.0
  {
    qi - (p.dt / p.dx) * (aNext - ai) - p.dt * p.k3 * qi
  }

  /** Corrector area: the average of old and predicted area, less the backward difference of predicted flow. */
  function CorrectArea(p: Params, ai: real, api: real, qpi: real, qpPrev: real): real
    requires p.dx != 0.0
  {
    0.5 * (ai + api - (p.dt / p.dx) * (qpi - qpPrev))
  }

  /** Corrector flow: the average of old and predicted flow, less the backward difference of predicted
      area and the damping of the predicted flow. */
  function CorrectFlow(p: Params, qi: real, qpi: real, api: real, apPrev: real): real
    requires p.dx != 0.0
  {
    0.5 * (qi + qpi - (p.dt / p.dx) * (api - apPrev) - p.dt * p.k3 * qpi)
  }

  /** Predictor area at node `i`: the update at cells `1..N`, the input at the two ghosts. */
  function PredictedArea(p: Params, f: Fields, i: nat): real
    requires p.dx != 0.0 && f.HasNodes(|f.a|) && i < |f.a|
  {
    if 1 <= i < |f.a| - 1 then PredictArea(p, f.a[i], f.q[i], f.q[i + 1]) else f.a[i]
  }

  /** Predictor flow at node `i`. */
  function PredictedFlow(p: Params, f: Fields, i: nat): real
    requires p.dx != 0.0 && f.HasNodes(|f.a|) && i < |f.a|
  {
    if 1 <= i < |f.a| - 1 then PredictFlow(p, f.q[i], f.a[i], f.a[i + 1]) else f.q[i]
  }

  /** The predictor copies of `mac_cormack`: cells `1..N` (the array has `N + 2` entries) are
      overwritten, the two ghost entries keep the input's values. */
  function Predictor(p: Params, f: Fields): (r: Fields)
    requires p.dx != 0.0 && |f.a| >= 2 && f.HasNodes(|f.a|)
    ensures r.HasNodes(|f.a|)
    ensures forall i :: 0 <= i < |f.a| ==> r.a[i] == PredictedArea(p, f, i) && r.q[i] == PredictedFlow(p, f, i)
  {
    var n := |f.a|;
    Fields(seq(n, i requires 0 <= i < n => PredictedArea(p, f, i)), seq(n, i requires 0 <= i < n => PredictedFlow(p, f, i)))
  }

  /** Corrector area at node `i`, from the old state `f` and the patched predictor `fp`. */
  function CorrectedArea(p: Params, f: Fields, fp: Fields, i: nat): real
    requires p.dx != 0.0 && f.HasNodes(|f.a|) && fp.HasNodes(|f.a|) && i < |f.a|
  {
    if 1 <= i < |f.a| - 1 then CorrectArea(p, f.a[i], fp.a[i], fp.q[i], fp.q[i - 1]) else f.a[i]
  }

  /** Corrector flow at node `i`. */
  function CorrectedFlow(p: Params, f: Fields, fp: Fields, i: nat): real
    requires p.dx != 0.0 && f.HasNodes(|f.a|) && fp.HasNodes(|f.a|) && i < |f.a|
  {
    if 1 <= i < |f.a| - 1 then CorrectFlow(p, f.q[i], fp.q[i], fp.a[i], fp.a[i - 1]) else f.q[i]
  }

  /** The corrector copies of `mac_cormack`, from the old state `f` and the patched predictor `fp`. */
  function Corrector(p: Params, f: Fields, fp: Fields): (r: Fields)
    requires p.dx != 0.0 && |f.a| >= 2 && f.HasNodes(|f.a|) && fp.HasNodes(|f.a|)
    ensures r.HasNodes(|f.a|)
    ensures forall i :: 0 <= i < |f.a| ==> r.a[i] == CorrectedArea(p, f, fp, i) && r.q[i] == CorrectedFlow(p, f, fp, i)
  {
    var n := |f.a|;
    Fields(seq(n, i requires 0 <= i < n => CorrectedArea(p, f, fp, i)), seq(n, i requires 0 <= i < n => CorrectedFlow(p, f, fp, i)))
  }

  /** `mac_cormack(a, q)`: predictor, reflecting patch of the predictor, corrector. */
  function MacCormackOf(p: Params, f: Fields): (r: Fields)
    requires p.dx != 0.0 && |f.a| >= 2 && f.HasNodes(|f.a|)
    ensures r.HasNodes(|f.a|)
    ensures r.a[0] == f.a[0] && r.q[0] == f.q[0]
    ensures r.a[|f.a| - 1] == f.a[|f.a| - 1] && r.q[|f.a| - 1] == f.q[|f.a| - 1]
  {
    Corrector(p, f, ReflectBoth(Predictor(p, f)))
  }

  /** One pass of the time loop: `apply_bc(a, q)` and then `a, q = mac_cormack(a, q)`. */
  function StepOf(p: Params, f: Fields): (r: Fields)
    requires p.dx != 0.0 && |f.a| >= 2 && f.HasNodes(|f.a|)
    ensures r.HasNodes(|f.a|)
  {
    MacCormackOf(p, ReflectBoth(f))
  }

  /** The state after `k` passes of the time loop. */
  function Iterate(p: Params, f: Fields, k: nat): (r: Fields)
    requires p.dx != 0.0 && |f.a| >= 2 && f.HasNodes(|f.a|)
    ensures r.HasNodes(|f.a|)
  {
    if k == 0 then f else StepOf(p, Iterate(p, f, k - 1))
  }

  /** A uniform area at rest is a fixed point of `mac_cormack`, whatever the damping `K3`. */
  lemma MacCormackFixesRest(p: Params, f: Fields, v: real)
    requires p.dx != 0.0 && |f.a| >= 2 && f.HasNodes(|f.a|)
    requires Constant(f.a, v) && Constant(f.q, 0.0)
    ensures MacCormackOf(p, f) == f
  {
    var n := |f.a|;
    var fp := Predictor(p, f);
    forall i | 1 <= i < n - 1 ensures fp.a[i] == v && fp.q[i] == 0.0 {
      assert fp.a[i] == PredictArea(p, v, 0.0, 0.0);
      assert fp.q[i] == PredictFlow(p, 0.0, v, v);
    }
    var pp := ReflectBoth(fp);
    assert Constant(pp.a, v) && Constant(pp.q, 0.0);
    var r := Corrector(p, f, pp);
    forall i | 1 <= i < n - 1 ensures r.a[i] == v && r.q[i] == 0.0 {
      assert r.a[i] == CorrectArea(p, v, v, 0.0, 0.0);
      assert r.q[i] == CorrectFlow(p, 0.0, 0.0, v, v);
    }
    assert r.a == f.a && r.q == f.q;
  }

  /** Without damping (`K3 = 0`) every uniform state is a fixed point of `mac_cormack`. */
  lemma MacCormackFixesUniformUndamped(p: Params, f: Fields, v: real, w: real)
    requires p.dx != 0.0 && p.k3 == 0.0 && |f.a| >= 2 && f.HasNodes(|f.a|)
    requires Constant(f.a, v) && Constant(f.q, w)
    ensures MacCormackOf(p, f) == f
  {
    var n := |f.a|;
    var fp := Predictor(p, f);
    forall i | 1 <= i < n - 1 ensures fp.a[i] == v && fp.q[i] == w {
      assert fp.a[i] == PredictArea(p, v, w, w);
      assert fp.q[i] == PredictFlow(p, w, v, v);
    }
    var pp := ReflectBoth(fp);
    assert Constant(pp.a, v) && Constant(pp.q, w);
    var r := Corrector(p, f, pp);
    forall i | 1 <= i < n - 1 ensures r.a[i] == v && r.q[i] == w {
      assert r.a[i] == CorrectArea(p, v, v, w, w);
      assert r.q[i] == CorrectFlow(p, w, w, v, v);
    }
    assert r.a == f.a && r.q == f.q;
  }

  /** A pass of the time loop from a uniform area at rest ends where it started. */
  lemma StepKeepsRest(p: Params, f: Fields, v: real)
    requires p.dx != 0.0 && |f.a| >= 2 && f.HasNodes(|f.a|)
    ensures AtRest(f, v) ==> AtRest(StepOf(p, f), v)
  {
    if AtRest(f, v) {
      CopyNeighboursKeepsConstant(f.a, v);
      CopyNeighboursKeepsConstant(f.q, 0.0);
      var g := ReflectBoth(f);
      assert g.a == f.a && g.q == f.q;
      MacCormackFixesRest(p, g, v);
    }
  }

  /** The induction step of `IterateKeepsRest`: the pass after a state at rest stays at rest. */
  lemma IterateStepKeepsRest(p: Params, f: Fields, v: real, k: nat)
    requires p.dx != 0.0 && |f.a| >= 2 && f.HasNodes(|f.a|) && k > 0
    ensures AtRest(Iterate(p, f, k - 1), v) ==> AtRest(Iterate(p, f, k), v)
  {
    StepKeepsRest(p, Iterate(p, f, k - 1), v);
  }

  /** A uniform area at rest (in particular the all-zero state) stays put for any number of passes of
      the time loop, boundary copies included. */
  lemma IterateKeepsRest(p: Params, f: Fields, v: real, k: nat)
    requires p.dx != 0.0 && |f.a| >= 2 && f.HasNodes(|f.a|)
    requires Constant(f.a, v) && Constant(f.q, 0.0)
    ensures Iterate(p, f, k) == f
  {
    var t := Trajectory(p, f, k + 1);
    forall n | 0 < n < |t| ensures AtRest(t[n - 1], v) ==> AtRest(t[n], v) {
      IterateStepKeepsRest(p, f, v, n);
    }
    RestAlong(t, v, k);
    var r := Iterate(p, f, k);
    assert r.a == f.a && r.q == f.q;
  }

  /** The predictor loop of `mac_cormack`: copies of `a`, `q` whose cells `1..N` are overwritten. */
  method PredictorPass(p: Params, a: array<real>, q: array<real>) returns (ap: array<real>, qp: array<real>)
    requires p.dx != 0.0 && a.Length >= 2 && q.Length == a.Length
    ensures fresh(ap) && fresh(qp) && ap != qp
    ensures Fields(ap[..], qp[..]) == Predictor(p, Fields(a[..], q[..]))
  {
    var n := a.Length;
    ghost var f := Fields(a[..], q[..]);
    ghost var pr := Predictor(p, f);
    ap := CopyOf(a);
    qp := CopyOf(q);
    for i := 1 to n - 1
      invariant forall j :: 0 <= j < i ==> ap[j] == PredictedArea(p, f, j) && qp[j] == PredictedFlow(p, f, j)
      invariant forall j :: i <= j < n ==> ap[j] == a[j] && qp[j] == q[j]
    {
      ap[i] := PredictArea(p, a[i], q[i], q[i + 1]);
      qp[i] := PredictFlow(p, q[i], a[i], a[i + 1]);
    }
    assert ap[..] == pr.a;
    assert qp[..] == pr.q;
  }

  /** The corrector loop of `mac_cormack`: copies of `a`, `q` whose cells `1..N` are overwritten from
      the old values and the patched predictor `ap`, `qp`. */
  method CorrectorPass(p: Params, a: array<real>, q: array<real>, ap: array<real>, qp: array<real>)
      returns (aNew: array<real>, qNew: array<real>)
    requires p.dx != 0.0 && a.Length >= 2 && q.Length == a.Length && ap.Length == a.Length && qp.Length == a.Length
    ensures fresh(aNew) && fresh(qNew) && aNew != qNew
    ensures Fields(aNew[..], qNew[..]) == Corrector(p, Fields(a[..], q[..]), Fields(ap[..], qp[..]))
  {
    var n := a.Length;
    ghost var f, fp := Fields(a[..], q[..]), Fields(ap[..], qp[..]);
    ghost var co := Corrector(p, f, fp);
    aNew := CopyOf(a);
    qNew := CopyOf(q);
    for i := 1 to n - 1
      invariant forall j :: 0 <= j < i ==> aNew[j] == CorrectedArea(p, f, fp, j) && qNew[j] == CorrectedFlow(p, f, fp, j)
      invariant forall j :: i <= j < n ==> aNew[j] == a[j] && qNew[j] == q[j]
    {
      aNew[i] := CorrectArea(p, a[i], ap[i], qp[i], qp[i - 1]);
      qNew[i] := CorrectFlow(p, q[i], qp[i], ap[i], ap[i - 1]);
    }
    assert aNew[..] == co.a;
    assert qNew[..] == co.q;
  }

  /** `mac_cormack(a, q)` over arrays: predictor pass, boundary copy of the predictor, corrector pass.
      The result is new; its ghost entries are those of the input. */
  method MacCormack(p: Params, a: array<real>, q: array<real>) returns (aNew: array<real>, qNew: array<real>)
    requires p.dx != 0.0 && a.Length >= 2 && q.Length == a.Length
    ensures fresh(aNew) && fresh(qNew) && aNew != qNew
    ensures Fields(aNew[..], qNew[..]) == MacCormackOf(p, Fields(a[..], q[..]))
    ensures aNew[0] == a[0] && qNew[0] == q[0]
    ensures aNew[a.Length - 1] == a[a.Length - 1] && qNew[a.Length - 1] == q[a.Length - 1]
  {
    var ap, qp := PredictorPass(p, a, q);
    ApplyReflecting(ap, qp);
    aNew, qNew := CorrectorPass(p, a, q, ap, qp);
  }

  /** The script's constants: damping `K3`, cell count `N`, final time, CFL target, and the width,
      centres and amplitudes of the two initial bumps. */
  datatype Config = Config(k3: real, cells: nat, tauFinal: real, cfl: real,
                           eps: real, centerA: real, ampA: real, centerQ: real, ampQ: real)
  {
    predicate Valid() { cells >= 1 && tauFinal > 0.0 && cfl > 0.0 && eps != 0.0 }
  }

  /** The values sim1.py hard-codes. */
  function DefaultConfig(): (c: Config)
    ensures c.Valid() && c.cells == 400
  {
    Config(0.0002, 400, 2.6, 0.4, 0.020, 0.7, 0.10, 0.4, 0.02)
  }

  /** Cell width `dx = 1/N`. */
  function Spacing(c: Config): (dx: real)
    requires c.Valid()
    ensures dx > 0.0
  {
    1.0 / c.cells as real
  }

  /** The ghost-padded initial arrays, bumps in cells `1..N`, zeros in the ghosts before the first
      boundary copy. */
  function InitialFields(tr: Transcendentals, c: Config): (f: Fields)
    requires c.Valid()
    ensures f.HasNodes(c.cells + 2)
    ensures forall i :: 0 <= i < c.cells ==>
      f.a[i + 1] == BumpAt(tr, CellCentres(c.cells, Spacing(c))[i], c.centerA, c.eps, c.ampA) &&
      f.q[i + 1] == BumpAt(tr, CellCentres(c.cells, Spacing(c))[i], c.centerQ, c.eps, c.ampQ)
  {
    var xs := CellCentres(c.cells, Spacing(c));
    Fields([0.0] + seq(c.cells, i requires 0 <= i < c.cells => BumpAt(tr, xs[i], c.centerA, c.eps, c.ampA)) + [0.0],
           [0.0] + seq(c.cells, i requires 0 <= i < c.cells => BumpAt(tr, xs[i], c.centerQ, c.eps, c.ampQ)) + [0.0])
  }

  /** What `run_simulation` returns: cell centres, frame times and the ghost-free frames. */
  datatype Output = Output(x: seq<real>, times: seq<real>, aFrames: seq<seq<real>>, qFrames: seq<seq<real>>)

  /** The time grid of the run and the state it starts the loop from (after the first `apply_bc`). */
  function StartState(tr: Transcendentals, c: Config): (f: Fields)
    requires c.Valid()
    ensures f.HasNodes(c.cells + 2)
  {
    ReflectBoth(InitialFields(tr, c))
  }

  /** The first `apply_bc` only touches the ghosts: the cells of the start state are the initial bumps. */
  lemma StartStateInterior(tr: Transcendentals, c: Config)
    requires c.Valid()
    ensures StartState(tr, c).a[1..c.cells + 1] == InitialFields(tr, c).a[1..c.cells + 1]
    ensures StartState(tr, c).q[1..c.cells + 1] == InitialFields(tr, c).q[1..c.cells + 1]
  {
    var init := InitialFields(tr, c);
    CopyNeighboursKeepsInterior(init.a);
    CopyNeighboursKeepsInterior(init.q);
  }

  /** One pass of the time loop over arrays: `apply_bc(a, q)` in place, then `mac_cormack`. */
  method Advance(p: Params, ghost f: Fields, ghost i: nat, a: array<real>, q: array<real>)
      returns (aNew: array<real>, qNew: array<real>)
    requires p.dx != 0.0 && |f.a| >= 2 && f.HasNodes(|f.a|) && a != q
    requires Fields(a[..], q[..]) == Iterate(p, f, i)
    modifies a, q
    ensures fresh(aNew) && fresh(qNew) && aNew != qNew && aNew.Length == a.Length && qNew.Length == a.Length
    ensures Fields(aNew[..], qNew[..]) == Iterate(p, f, i + 1)
  {
    ApplyReflecting(a, q);
    aNew, qNew := MacCormack(p, a, q);
  }

  /** The first `len` states the time loop goes through from `f`. */
  ghost function Trajectory(p: Params, f: Fields, len: nat): (t: seq<Fields>)
    requires p.dx != 0.0 && |f.a| >= 2 && f.HasNodes(|f.a|)
    ensures |t| == len && forall n :: 0 <= n < len ==> t[n] == Iterate(p, f, n)
  {
    seq(len, n requires 0 <= n < len => Iterate(p, f, n))
  }

  /** The frames recorded by the first `i` passes of the loop over the states `traj` it goes through:
      one for each multiple `k * e` below `i`, holding the time `k * e * dt` and the ghost-free state
      `traj[k * e]`. */
  ghost predicate Recorded(traj: seq<Fields>, n: nat, e: nat, dt: real, i: nat,
                           tHist: seq<real>, aHist: seq<seq<real>>, qHist: seq<seq<real>>)
    requires e > 0
  {
    |aHist| == |qHist| == |tHist| == MultiplesBelow(i, e) &&
    forall k :: 0 <= k < |tHist| ==>
      Stride(k, e) < |traj| && traj[Stride(k, e)].HasNodes(n + 2) && tHist[k] == Clock(Stride(k, e), dt) &&
      aHist[k] == traj[Stride(k, e)].a[1..n + 1] && qHist[k] == traj[Stride(k, e)].q[1..n + 1]
  }

  /** The recording at the head of pass `i`: `if n % save_every == 0`, append the time and the
      ghost-free state. */
  method RecordFrame(ghost traj: seq<Fields>, n: nat, e: nat, dt: real, saveEvery: int, i: nat, tau: real,
                     cur: Fields, tHist: seq<real>, aHist: seq<seq<real>>, qHist: seq<seq<real>>)
      returns (tHist': seq<real>, aHist': seq<seq<real>>, qHist': seq<seq<real>>)
    requires saveEvery != 0 && e == Magnitude(saveEvery)
    requires i < |traj| && cur == traj[i] && cur.HasNodes(n + 2) && tau == Clock(i, dt)
    requires Recorded(traj, n, e, dt, i, tHist, aHist, qHist)
    ensures Recorded(traj, n, e, dt, i + 1, tHist', aHist', qHist')
  {
    MultiplesBelowStep(i, e);
    if saveEvery < 0 { ModNegativeDivisor(i, saveEvery); }
    tHist', aHist', qHist' := tHist, aHist, qHist;
    if i % saveEvery == 0 {
      var m := |aHist|;
      assert Stride(m, e) == i;
      tHist', aHist', qHist' := tHist + [tau], aHist + [cur.a[1..n + 1]], qHist + [cur.q[1..n + 1]];
    }
  }

  /** The output of the time loop from `start` with stride `e`: `count` frames, frame `k` holding the
      time `k * e * dt` and the ghost-free state after `k * e` passes. */
  ghost predicate SavedFrames(p: Params, start: Fields, e: nat, count: nat,
                              tHist: seq<real>, aHist: seq<seq<real>>, qHist: seq<seq<real>>)
    requires p.dx != 0.0 && |start.a| >= 2 && start.HasNodes(|start.a|)
  {
    var n := |start.a| - 2;
    |tHist| == |aHist| == |qHist| == count &&
    (forall k :: 0 <= k < |tHist| ==> tHist[k] == Clock(Stride(k, e), p.dt)) &&
    (forall k :: 0 <= k < |aHist| ==>
       aHist[k] == Iterate(p, start, Stride(k, e)).a[1..n + 1] && qHist[k] == Iterate(p, start, Stride(k, e)).q[1..n + 1])
  }

  /** The first saved frame is the ghost-free starting state, at time 0. */
  lemma SavedFramesStart(p: Params, start: Fields, e: nat, count: nat,
                         tHist: seq<real>, aHist: seq<seq<real>>, qHist: seq<seq<real>>)
    requires p.dx != 0.0 && |start.a| >= 2 && start.HasNodes(|start.a|) && count >= 1
    requires SavedFrames(p, start, e, count, tHist, aHist, qHist)
    ensures tHist[0] == 0.0
    ensures aHist[0] == start.a[1..|start.a| - 1] && qHist[0] == start.q[1..|start.a| - 1]
  {
    assert Stride(0, e) == 0;
  }

  /** Frames recorded along a run of the loop are the iterates at the multiples of the stride. */
  lemma RecordedAlongIterates(p: Params, start: Fields, traj: seq<Fields>, n: nat, e: nat, nt: nat,
                              tHist: seq<real>, aHist: seq<seq<real>>, qHist: seq<seq<real>>)
    requires p.dx != 0.0 && |start.a| >= 2 && start.HasNodes(|start.a|) && e > 0 && n == |start.a| - 2
    requires traj == Trajectory(p, start, nt + 2) && Recorded(traj, n, e, p.dt, nt + 1, tHist, aHist, qHist)
    ensures SavedFrames(p, start, e, FrameCount(nt, e), tHist, aHist, qHist)
    ensures tHist[0] == 0.0 && aHist[0] == start.a[1..n + 1] && qHist[0] == start.q[1..n + 1]
  {
    MultiplesUpTo(nt, e);
    forall k | 0 <= k < |aHist|
      ensures aHist[k] == Iterate(p, start, Stride(k, e)).a[1..|start.a| - 1]
      ensures qHist[k] == Iterate(p, start, Stride(k, e)).q[1..|start.a| - 1]
    {
      assert traj[Stride(k, e)] == Iterate(p, start, Stride(k, e));
    }
    SavedFramesStart(p, start, e, FrameCount(nt, e), tHist, aHist, qHist);
  }

  /** `Advance` along the states `traj` the loop goes through. */
  method AdvanceAlong(p: Params, ghost start: Fields, ghost traj: seq<Fields>, nt: nat, i: nat, a: array<real>, q: array<real>)
      returns (aNew: array<real>, qNew: array<real>)
    requires p.dx != 0.0 && |start.a| >= 2 && start.HasNodes(|start.a|) && a != q
    requires i <= nt && traj == Trajectory(p, start, nt + 2) && Fields(a[..], q[..]) == traj[i]
    modifies a, q
    ensures fresh(aNew) && fresh(qNew) && aNew != qNew && aNew.Length == a.Length && qNew.Length == a.Length
    ensures Fields(aNew[..], qNew[..]) == traj[i + 1]
  {
    assert traj[i] == Iterate(p, start, i);
    aNew, qNew := Advance(p, start, i, a, q);
    assert traj[i + 1] == Iterate(p, start, i + 1);
  }

  /** Pass `i` of the time loop over the states `traj` it goes through: the recording, then `apply_bc`
      and `mac_cormack`. */
  method RecordAndAdvance(p: Params, ghost start: Fields, ghost traj: seq<Fields>, n: nat, e: nat, nt: nat, saveEvery: int,
                          i: nat, tau: real, a: array<real>, q: array<real>,
                          tHist: seq<real>, aHist: seq<seq<real>>, qHist: seq<seq<real>>)
      returns (aNew: array<real>, qNew: array<real>,
               tau': real, tHist': seq<real>, aHist': seq<seq<real>>, qHist': seq<seq<real>>)
    requires p.dx != 0.0 && |start.a| >= 2 && start.HasNodes(|start.a|) && a != q && n == |start.a| - 2
    requires saveEvery != 0 && e == Magnitude(saveEvery)
    requires i <= nt && traj == Trajectory(p, start, nt + 2)
    requires Fields(a[..], q[..]) == traj[i] && tau == Clock(i, p.dt)
    requires Recorded(traj, n, e, p.dt, i, tHist, aHist, qHist)
    modifies a, q
    ensures fresh(aNew) && fresh(qNew) && aNew != qNew && aNew.Length == a.Length && qNew.Length == a.Length
    ensures Fields(aNew[..], qNew[..]) == traj[i + 1] && tau' == Clock(i + 1, p.dt)
    ensures Recorded(traj, n, e, p.dt, i + 1, tHist', aHist', qHist')
  {
    tHist', aHist', qHist' := RecordFrame(traj, n, e, p.dt, saveEvery, i, tau, Fields(a[..], q[..]), tHist, aHist, qHist);
    aNew, qNew := AdvanceAlong(p, start, traj, nt, i, a, q);
    tau' := tau + p.dt;
  }

  /** The time loop `for n in range(Nt + 1)` from the state `start` (after the first `apply_bc`): record
      the ghost-free state when `n % save_every == 0`, then `apply_bc` and `mac_cormack`, then
      `tau += dt`. */
  method TimeLoop(p: Params, ghost start: Fields, a: array<real>, q: array<real>, nt: nat, saveEvery: int)
      returns (tHist: seq<real>, aHist: seq<seq<real>>, qHist: seq<seq<real>>)
    requires p.dx != 0.0 && |start.a| >= 2 && start.HasNodes(|start.a|) && saveEvery != 0
    requires a != q && Fields(a[..], q[..]) == start
    modifies a, q
    ensures SavedFrames(p, start, Magnitude(saveEvery), FrameCount(nt, Magnitude(saveEvery)), tHist, aHist, qHist)
    ensures tHist[0] == 0.0 && aHist[0] == start.a[1..|start.a| - 1] && qHist[0] == start.q[1..|start.a| - 1]
  {
    ghost var traj := Trajectory(p, start, nt + 2);
    var n, e := a.Length - 2, Magnitude(saveEvery);
    tHist, aHist, qHist := RecordingLoop(p, start, traj, a, q, n, e, nt, saveEvery);
    RecordedAlongIterates(p, start, traj, n, e, nt, tHist, aHist, qHist);
  }

  /** The passes of the time loop, with the frames they record along the states `traj` they go
      through. */
  method RecordingLoop(p: Params, ghost start: Fields, ghost traj: seq<Fields>, a0: array<real>, q0: array<real>,
                       n: nat, e: nat, nt: nat, saveEvery: int)
      returns (tHist: seq<real>, aHist: seq<seq<real>>, qHist: seq<seq<real>>)
    requires p.dx != 0.0 && |start.a| >= 2 && start.HasNodes(|start.a|) && saveEvery != 0
    requires a0 != q0 && Fields(a0[..], q0[..]) == start
    requires n == |start.a| - 2 && e == Magnitude(saveEvery) && traj == Trajectory(p, start, nt + 2)
    modifies a0, q0
    ensures Recorded(traj, n, e, p.dt, nt + 1, tHist, aHist, qHist)
  {
    var a, q := a0, q0;
    aHist, qHist, tHist := [], [], [];
    var tau := 0.0;
    NoMultiplesBelowZero(e);
    for i := 0 to nt + 1
      invariant a != q
      invariant (a == a0 && q == q0) || (fresh(a) && fresh(q))
      invariant Fields(a[..], q[..]) == traj[i]
      invariant tau == Clock(i, p.dt)
      invariant Recorded(traj, n, e, p.dt, i, tHist, aHist, qHist)
    {
      a, q, tau, tHist, aHist, qHist := RecordAndAdvance(p, start, traj, n, e, nt, saveEvery, i, tau, a, q, tHist, aHist, qHist);
    }
  }

  /** `a = np.zeros(N + 2)`, `a[1:-1] = bump(x, ...)`, and the same for `q`. */
  method InitialArrays(tr: Transcendentals, c: Config, x: seq<real>) returns (a: array<real>, q: array<real>)
    requires c.Valid() && x == CellCentres(c.cells, Spacing(c))
    ensures fresh(a) && fresh(q) && a != q
    ensures Fields(a[..], q[..]) == InitialFields(tr, c)
  {
    var aInit := Bump(tr, x, c.centerA, c.eps, c.ampA);
    var qInit := Bump(tr, x, c.centerQ, c.eps, c.ampQ);
    a := ArrayOf([0.0] + aInit + [0.0]);
    q := ArrayOf([0.0] + qInit + [0.0]);
  }

  /** `run_simulation(save_every)`. The frame `k` is recorded before pass `k * save_every` of the loop,
      so it holds the state after that many passes with the ghosts stripped, at time
      `k * save_every * dt`; there are `Nt / save_every + 1` of them, the first being the initial bumps.
      A zero `save_every` and a final time shorter than `CFL * dx` both raise. */
  method RunSimulation(tr: Transcendentals, c: Config, saveEvery: int) returns (r: Result<Output>)
    requires c.Valid()
    ensures r.Err? <==> (saveEvery == 0 || FlooredTimeGrid(c.tauFinal, c.cfl, Spacing(c)).Err?)
    ensures r.Err? ==> r.error == ZeroDivisionError
    ensures r.Ok? ==>
      var g := FlooredTimeGrid(c.tauFinal, c.cfl, Spacing(c)).value;
      var e := Magnitude(saveEvery);
      var p := Params(g.dt, Spacing(c), c.k3);
      var out := r.value;
      out.x == CellCentres(c.cells, Spacing(c)) &&
      SavedFrames(p, StartState(tr, c), e, FrameCount(g.steps, e), out.times, out.aFrames, out.qFrames)
    ensures r.Ok? ==> r.value.aFrames[0] == InitialFields(tr, c).a[1..c.cells + 1]
    ensures r.Ok? ==> r.value.qFrames[0] == InitialFields(tr, c).q[1..c.cells + 1] && r.value.times[0] == 0.0
  {
    var dx := Spacing(c);
    var x := CellCentres(c.cells, dx);
    var grid := FlooredTimeGrid(c.tauFinal, c.cfl, dx);
    if grid.Err? {
      return Err(ZeroDivisionError);
    }
    var p := Params(grid.value.dt, dx, c.k3);
    if saveEvery == 0 {
      // The first `n % save_every` of the loop raises, before anything is recorded.
      return Err(ZeroDivisionError);
    }
    var out := RunOnGrid(tr, c, p, x, grid.value.steps, saveEvery);
    StartStateInterior(tr, c);
    r := Ok(out);
  }

  /** The initial arrays after the first `apply_bc`. */
  method StartArrays(tr: Transcendentals, c: Config, x: seq<real>) returns (a: array<real>, q: array<real>)
    requires c.Valid() && x == CellCentres(c.cells, Spacing(c))
    ensures fresh(a) && fresh(q) && a != q
    ensures Fields(a[..], q[..]) == StartState(tr, c)
  {
    a, q := InitialArrays(tr, c, x);
    ApplyReflecting(a, q);
  }

  /** The body of `run_simulation` once the time grid is known: the initial arrays, the first
      `apply_bc` and the time loop. */
  method RunOnGrid(tr: Transcendentals, c: Config, p: Params, x: seq<real>, nt: nat, saveEvery: int)
      returns (out: Output)
    requires c.Valid() && p.dx == Spacing(c) && x == CellCentres(c.cells, Spacing(c)) && saveEvery != 0
    ensures out.x == x
    ensures SavedFrames(p, StartState(tr, c), Magnitude(saveEvery), FrameCount(nt, Magnitude(saveEvery)),
                        out.times, out.aFrames, out.qFrames)
    ensures out.times[0] == 0.0
    ensures out.aFrames[0] == StartState(tr, c).a[1..|StartState(tr, c).a| - 1]
    ensures out.qFrames[0] == StartState(tr, c).q[1..|StartState(tr, c).a| - 1]
  {
    var a, q := StartArrays(tr, c, x);
    var tHist, aHist, qHist := TimeLoop(p, StartState(tr, c), a, q, nt, saveEvery);
    out := Output(x, tHist, aHist, qHist);
  }
}
