/** TestC1.py: the vectorised MacCormack solver of `A_t + Q_z = 0`, `Q_t + A_z = -Q/5`, which patches
    the reflecting boundary before the step, after the predictor and after the corrector, and stores
    every time level. */
module TestC1MacCormack {
  import opened Numerics
  import opened Grid
  import opened FieldArrays
  import opened Reflecting
  import opened CosineBump

  /** Step size and node spacing; the damping rate `1/5` is hard-coded. */
  datatype Params = Params(dt: real, dz: real)

  /** `np.roll(s, 1)`: every entry moves one place up and the last one wraps round to index 0. */
  function Roll(s: seq<real>): (r: seq<real>)
    requires |s| >= 1
    ensures |r| == |s| && r[0] == s[|s| - 1]
    ensures forall i :: 1 <= i < |s| ==> r[i] == s[i - 1]
  {
    [s[|s| - 1]] + s[..|s| - 1]
  }

  /** Predictor flow: forward difference of the flux `F_Q = A`, damped by `(dt/5) Q`. */
  function PredictFlow(p: Params, qi: real, ai: real, aNext: real): real
    requires p.dz != 0.0
  {
    qi - p.dt / p.dz * (aNext - ai) - (p.dt / 5.0) * qi
  }

  /** Predictor area: forward difference of the flux `F_A = Q`. */
  function PredictArea(p: Params, ai: real, qi: real, qNext: real): real
    requires p.dz != 0.0
  {
    ai - p.dt / p.dz * (qNext - qi)
  }

  /** Predictor flow at node `i`: updated at `0..N-2`, the copy of the input at the last node. */
  function PredictedFlow(p: Params, f: Fields, i: nat): real
    requires p.dz != 0.0 && f.HasNodes(|f.a|) && i < |f.a|
  {
    if i < |f.a| - 1 then PredictFlow(p, f.q[i], f.a[i], f.a[i + 1]) else f.q[i]
  }

  /** Predictor area at node `i`. */
  function PredictedArea(p: Params, f: Fields, i: nat): real
    requires p.dz != 0.0 && f.HasNodes(|f.a|) && i < |f.a|
  {
    if i < |f.a| - 1 then PredictArea(p, f.a[i], f.q[i], f.q[i + 1]) else f.a[i]
  }

  /** `Qp = Q.copy()`, `Ap = A.copy()` and the slice updates `Qp[:-1] = ...`, `Ap[:-1] = ...`. */
  function Predictor(p: Params, f: Fields): (r: Fields)
    requires p.dz != 0.0 && |f.a| >= 2 && f.HasNodes(|f.a|)
    ensures r.HasNodes(|f.a|)
    ensures forall i :: 0 <= i < |f.a| ==> r.a[i] == PredictedArea(p, f, i) && r.q[i] == PredictedFlow(p, f, i)
    ensures r.a[|f.a| - 1] == f.a[|f.a| - 1] && r.q[|f.a| - 1] == f.q[|f.a| - 1]
  {
    var n := |f.a|;
    Fields(seq(n, i requires 0 <= i < n => PredictedArea(p, f, i)), seq(n, i requires 0 <= i < n => PredictedFlow(p, f, i)))
  }

  /** Corrector flow: the average of old and predicted flow, less the difference of the predicted flux
      `F_Q = Ap` against its neighbour below and the damping `(dt/5) Qp`. */
  function CorrectFlow(p: Params, qi: real, qpi: real, api: real, apBelow: real): real
    requires p.dz != 0.0
  {
    0.5 * (qi + qpi - p.dt / p.dz * (api - apBelow) - (p.dt / 5.0) * qpi)
  }

  /** Corrector area: the average of old and predicted area, less the difference of `F_A = Qp`. */
  function CorrectArea(p: Params, ai: real, api: real, qpi: real, qpBelow: real): real
    requires p.dz != 0.0
  {
    0.5 * (ai + api - p.dt / p.dz * (qpi - qpBelow))
  }

  /** Corrector flow at node `i`: its neighbour below is node `i - 1`, and for node 0 the last node. */
  function CorrectedFlow(p: Params, f: Fields, fp: Fields, i: nat): real
    requires p.dz != 0.0 && f.HasNodes(|f.a|) && fp.HasNodes(|f.a|) && i < |f.a|
  {
    var below := if i == 0 then |f.a| - 1 else i - 1;
    CorrectFlow(p, f.q[i], fp.q[i], fp.a[i], fp.a[below])
  }

  /** Corrector area at node `i`, with the same neighbour below. */
  function CorrectedArea(p: Params, f: Fields, fp: Fields, i: nat): real
    requires p.dz != 0.0 && f.HasNodes(|f.a|) && fp.HasNodes(|f.a|) && i < |f.a|
  {
    var below := if i == 0 then |f.a| - 1 else i - 1;
    CorrectArea(p, f.a[i], fp.a[i], fp.q[i], fp.q[below])
  }

  /** The whole-array corrector, which takes the neighbour below from `np.roll(., 1)`. */
  function Corrector(p: Params, f: Fields, fp: Fields): (r: Fields)
    requires p.dz != 0.0 && |f.a| >= 2 && f.HasNodes(|f.a|) && fp.HasNodes(|f.a|)
    ensures r.HasNodes(|f.a|)
    ensures forall i :: 0 <= i < |f.a| ==> r.q[i] == CorrectedFlow(p, f, fp, i) && r.a[i] == CorrectedArea(p, f, fp, i)
  {
    var n := |f.a|;
    var ra, rq := Roll(fp.a), Roll(fp.q);
    Fields(seq(n, i requires 0 <= i < n => CorrectArea(p, f.a[i], fp.a[i], fp.q[i], rq[i])),
           seq(n, i requires 0 <= i < n => CorrectFlow(p, f.q[i], fp.q[i], fp.a[i], ra[i])))
  }

  /** One pass of the loop: `apply_BC(Q, A)`, predictor, `apply_BC(Qp, Ap)`, corrector, `apply_BC(Q, A)`.
      The state it leaves satisfies the reflecting condition at both ends of both fields. */
  function StepOf(p: Params, f: Fields): (r: Fields)
    requires p.dz != 0.0 && |f.a| >= 2 && f.HasNodes(|f.a|)
    ensures r.HasNodes(|f.a|) && Reflected(r.a) && Reflected(r.q)
  {
    var g := ReflectBoth(f);
    ReflectBoth(Corrector(p, g, ReflectBoth(Predictor(p, g))))
  }

  /** The state after `k` passes. */
  function Iterate(p: Params, f: Fields, k: nat): (r: Fields)
    requires p.dz != 0.0 && |f.a| >= 2 && f.HasNodes(|f.a|)
    ensures r.HasNodes(|f.a|)
  {
    if k == 0 then f else StepOf(p, Iterate(p, f, k - 1))
  }

  /** The wrapped-round term of `np.roll` only enters the corrector at node 0, and the final
      `apply_BC` overwrites node 0: whatever the corrector put there, the pass ends in the same state. */
  lemma WrapTermOverwritten(p: Params, f: Fields, x: real, y: real)
    requires p.dz != 0.0 && |f.a| >= 2 && f.HasNodes(|f.a|)
    ensures var g := ReflectBoth(f);
            var co := Corrector(p, g, ReflectBoth(Predictor(p, g)));
            StepOf(p, f) == ReflectBoth(Fields(co.a[0 := x], co.q[0 := y]))
  {
    var g := ReflectBoth(f);
    var co := Corrector(p, g, ReflectBoth(Predictor(p, g)));
    CopyNeighboursIgnoresFirst(co.a, x);
    CopyNeighboursIgnoresFirst(co.q, y);
  }

  /** A pass leaves a uniform area at rest uniform and at rest, with the same area. */
  lemma StepKeepsRest(p: Params, f: Fields, v: real)
    requires p.dz != 0.0 && |f.a| >= 2 && f.HasNodes(|f.a|)
    ensures AtRest(f, v) ==> AtRest(StepOf(p, f), v)
  {
    if AtRest(f, v) {
      var n := |f.a|;
      CopyNeighboursKeepsConstant(f.a, v);
      CopyNeighboursKeepsConstant(f.q, 0.0);
      var g := ReflectBoth(f);
      assert g == f;
      var fp := Predictor(p, f);
      forall i | 0 <= i < n ensures fp.a[i] == v && fp.q[i] == 0.0 {
        if i < n - 1 {
          assert fp.a[i] == PredictArea(p, v, 0.0, 0.0);
          assert fp.q[i] == PredictFlow(p, 0.0, v, v);
        }
      }
      CopyNeighboursKeepsConstant(fp.a, v);
      CopyNeighboursKeepsConstant(fp.q, 0.0);
      var pp := ReflectBoth(fp);
      var co := Corrector(p, f, pp);
      forall i | 0 <= i < n ensures co.a[i] == v && co.q[i] == 0.0 {
        assert co.a[i] == CorrectArea(p, v, v, 0.0, 0.0);
        assert co.q[i] == CorrectFlow(p, 0.0, 0.0, v, v);
      }
      CopyNeighboursKeepsConstant(co.a, v);
      CopyNeighboursKeepsConstant(co.q, 0.0);
    }
  }

  /** A uniform area at rest is a fixed point of a pass. */
  lemma StepFixesRest(p: Params, f: Fields, v: real)
    requires p.dz != 0.0 && |f.a| >= 2 && f.HasNodes(|f.a|)
    requires Constant(f.a, v) && Constant(f.q, 0.0)
    ensures StepOf(p, f) == f
  {
    StepKeepsRest(p, f, v);
    var r := StepOf(p, f);
    assert r.a == f.a && r.q == f.q;
  }

  /** Every state of a run from a uniform area at rest is uniform with that area and at rest. */
  lemma IterateStaysAtRest(p: Params, f: Fields, v: real, k: nat)
    requires p.dz != 0.0 && |f.a| >= 2 && f.HasNodes(|f.a|)
    requires AtRest(f, v)
    ensures AtRest(Iterate(p, f, k), v)
  {
    var t := Trajectory(p, f, k);
    forall n | 0 < n < |t| ensures AtRest(t[n - 1], v) ==> AtRest(t[n], v) {
      IterateStepKeepsRest(p, f, v, n);
    }
    RestAlong(t, v, k);
  }

  /** The induction step of `IterateStaysAtRest`: a pass from a state at rest stays at rest. */
  lemma IterateStepKeepsRest(p: Params, f: Fields, v: real, k: nat)
    requires p.dz != 0.0 && |f.a| >= 2 && f.HasNodes(|f.a|) && k > 0
    ensures AtRest(Iterate(p, f, k - 1), v) ==> AtRest(Iterate(p, f, k), v)
  {
    StepKeepsRest(p, Iterate(p, f, k - 1), v);
  }

  /** A uniform area at rest, the all-zero state in particular, stays put for any number of passes. */
  lemma IterateKeepsRest(p: Params, f: Fields, v: real, k: nat)
    requires p.dz != 0.0 && |f.a| >= 2 && f.HasNodes(|f.a|)
    requires Constant(f.a, v) && Constant(f.q, 0.0)
    ensures Iterate(p, f, k) == f
  {
    IterateStaysAtRest(p, f, v, k);
    var r := Iterate(p, f, k);
    assert r.a == f.a && r.q == f.q;
  }

  /** The predictor over arrays: copies of `A`, `Q` whose nodes `0..N-2` are overwritten. */
  method PredictorArrays(p: Params, a: array<real>, q: array<real>) returns (ap: array<real>, qp: array<real>)
    requires p.dz != 0.0 && a.Length >= 2 && q.Length == a.Length
    ensures fresh(ap) && fresh(qp) && ap != qp
    ensures Fields(ap[..], qp[..]) == Predictor(p, Fields(a[..], q[..]))
  {
    var n := a.Length;
    ghost var f := Fields(a[..], q[..]);
    ghost var pr := Predictor(p, f);
    qp := CopyOf(q);
    ap := CopyOf(a);
    for i := 0 to n - 1
      invariant forall j :: 0 <= j < i ==> ap[j] == PredictedArea(p, f, j) && qp[j] == PredictedFlow(p, f, j)
      invariant forall j :: i <= j < n ==> ap[j] == a[j] && qp[j] == q[j]
    {
      qp[i] := PredictFlow(p, q[i], a[i], a[i + 1]);
      ap[i] := PredictArea(p, a[i], q[i], q[i + 1]);
    }
    assert ap[..] == pr.a;
    assert qp[..] == pr.q;
  }

  /** The corrected flow, node by node into a new array, the neighbour below node 0 being the last
      node. */
  method CorrectFlows(p: Params, ghost f: Fields, ghost fp: Fields, q: array<real>, ap: array<real>, qp: array<real>)
      returns (qNew: array<real>)
    requires p.dz != 0.0 && |f.a| >= 2 && f.HasNodes(|f.a|) && fp.HasNodes(|f.a|)
    requires q[..] == f.q && ap[..] == fp.a && qp[..] == fp.q
    ensures fresh(qNew) && qNew.Length == |f.a|
    ensures forall i :: 0 <= i < |f.a| ==> qNew[i] == CorrectedFlow(p, f, fp, i)
  {
    var n := q.Length;
    qNew := new real[n];
    qNew[0] := CorrectFlow(p, q[0], qp[0], ap[0], ap[n - 1]);
    for i := 1 to n
      invariant forall j :: 0 <= j < i ==> qNew[j] == CorrectedFlow(p, f, fp, j)
    {
      qNew[i] := CorrectFlow(p, q[i], qp[i], ap[i], ap[i - 1]);
    }
  }

  /** The corrected area, node by node into a new array. */
  method CorrectAreas(p: Params, ghost f: Fields, ghost fp: Fields, a: array<real>, ap: array<real>, qp: array<real>)
      returns (aNew: array<real>)
    requires p.dz != 0.0 && |f.a| >= 2 && f.HasNodes(|f.a|) && fp.HasNodes(|f.a|)
    requires a[..] == f.a && ap[..] == fp.a && qp[..] == fp.q
    ensures fresh(aNew) && aNew.Length == |f.a|
    ensures forall i :: 0 <= i < |f.a| ==> aNew[i] == CorrectedArea(p, f, fp, i)
  {
    var n := a.Length;
    aNew := new real[n];
    aNew[0] := CorrectArea(p, a[0], ap[0], qp[0], qp[n - 1]);
    for i := 1 to n
      invariant forall j :: 0 <= j < i ==> aNew[j] == CorrectedArea(p, f, fp, j)
    {
      aNew[i] := CorrectArea(p, a[i], ap[i], qp[i], qp[i - 1]);
    }
  }

  /** The corrector over arrays: `Q = 0.5*(...)` and `A = 0.5*(...)` build new arrays. */
  method CorrectorArrays(p: Params, a: array<real>, q: array<real>, ap: array<real>, qp: array<real>)
      returns (aNew: array<real>, qNew: array<real>)
    requires p.dz != 0.0 && a.Length >= 2 && q.Length == a.Length && ap.Length == a.Length && qp.Length == a.Length
    ensures fresh(aNew) && fresh(qNew) && aNew != qNew
    ensures Fields(aNew[..], qNew[..]) == Corrector(p, Fields(a[..], q[..]), Fields(ap[..], qp[..]))
  {
    ghost var f, fp := Fields(a[..], q[..]), Fields(ap[..], qp[..]);
    qNew := CorrectFlows(p, f, fp, q, ap, qp);
    aNew := CorrectAreas(p, f, fp, a, ap, qp);
    ghost var co := Corrector(p, f, fp);
    assert aNew[..] == co.a;
    assert qNew[..] == co.q;
  }

  /** One pass over arrays; the first `apply_BC` patches the incoming arrays in place. */
  method StepArrays(p: Params, a: array<real>, q: array<real>) returns (aNew: array<real>, qNew: array<real>)
    requires p.dz != 0.0 && a.Length >= 2 && q.Length == a.Length && a != q
    modifies a, q
    ensures fresh(aNew) && fresh(qNew) && aNew != qNew && aNew.Length == a.Length && qNew.Length == a.Length
    ensures Fields(aNew[..], qNew[..]) == StepOf(p, Fields(old(a[..]), old(q[..])))
  {
    ApplyReflecting(a, q);
    var ap, qp := PredictorArrays(p, a, q);
    ApplyReflecting(ap, qp);
    aNew, qNew := CorrectorArrays(p, a, q, ap, qp);
    ApplyReflecting(aNew, qNew);
  }

  /** Row `n` of `store` holds the values of `s`. */
  ghost predicate RowHolds(store: array2<real>, n: nat, s: seq<real>)
    reads store
  {
    n < store.Length0 && store.Length1 == |s| && forall j :: 0 <= j < |s| ==> store[n, j] == s[j]
  }

  /** `store[n, :] = row`: row `n` of the store takes the values of `row`, the other rows keep theirs. */
  method StoreRow(store: array2<real>, n: nat, row: array<real>)
    requires n < store.Length0 && row.Length == store.Length1
    modifies store
    ensures RowHolds(store, n, row[..])
    ensures forall r, j :: 0 <= r < store.Length0 && r != n && 0 <= j < store.Length1 ==> store[r, j] == old(store[r, j])
  {
    for j := 0 to store.Length1
      invariant forall k :: 0 <= k < j ==> store[n, k] == row[k]
      invariant forall r, k :: 0 <= r < store.Length0 && 0 <= k < store.Length1 && (r != n || k >= j) ==>
        store[r, k] == old(store[r, k])
    {
      store[n, j] := row[j];
    }
  }

  /** The states after `0, 1, ..., nt` passes. */
  ghost function Trajectory(p: Params, f: Fields, nt: nat): (r: seq<Fields>)
    requires p.dz != 0.0 && |f.a| >= 2 && f.HasNodes(|f.a|)
    ensures |r| == nt + 1 && forall n :: 0 <= n <= nt ==> r[n] == Iterate(p, f, n)
  {
    seq(nt + 1, n requires 0 <= n <= nt => Iterate(p, f, n))
  }

  /** Row `n` of the two stores holds `states[n]`, for every `n` below `rows`. */
  ghost predicate Stored(states: seq<Fields>, rows: nat, aStore: array2<real>, qStore: array2<real>)
    reads aStore, qStore
  {
    rows <= |states| &&
    forall n :: 0 <= n < rows ==> RowHolds(aStore, n, states[n].a) && RowHolds(qStore, n, states[n].q)
  }

  /** `Q_store[n, :] = Q` and `A_store[n, :] = A`. */
  method StoreLevel(ghost states: seq<Fields>, n: nat, a: array<real>, q: array<real>,
                    aStore: array2<real>, qStore: array2<real>)
    requires aStore != qStore && n < |states| && Fields(a[..], q[..]) == states[n]
    requires n < aStore.Length0 && n < qStore.Length0 && a.Length == aStore.Length1 && q.Length == qStore.Length1
    requires Stored(states, n, aStore, qStore)
    modifies aStore, qStore
    ensures Stored(states, n + 1, aStore, qStore)
  {
    StoreRow(qStore, n, q);
    StoreRow(aStore, n, a);
  }

  /** Pass `n` of the loop: step the arrays, then store the new state in row `n`. */
  method StepAndStore(p: Params, ghost f: Fields, ghost states: seq<Fields>, n: nat, a: array<real>, q: array<real>,
                      aStore: array2<real>, qStore: array2<real>) returns (aNew: array<real>, qNew: array<real>)
    requires p.dz != 0.0 && |f.a| >= 2 && f.HasNodes(|f.a|) && aStore != qStore && a != q && n >= 1
    requires n < |states| && states[n] == Iterate(p, f, n)
    requires n < aStore.Length0 && n < qStore.Length0 && aStore.Length1 == |f.a| && qStore.Length1 == |f.a|
    requires Stored(states, n, aStore, qStore)
    requires Fields(a[..], q[..]) == Iterate(p, f, n - 1)
    modifies a, q, aStore, qStore
    ensures fresh(aNew) && fresh(qNew) && aNew != qNew && aNew.Length == a.Length && qNew.Length == a.Length
    ensures Fields(aNew[..], qNew[..]) == Iterate(p, f, n)
    ensures Stored(states, n + 1, aStore, qStore)
  {
    aNew, qNew := StepArrays(p, a, q);
    StoreLevel(states, n, aNew, qNew, aStore, qStore);
  }

  /** The time loop `for n in range(1, Nt + 1)`: row 0 holds the initial state, row `n` the state after
      pass `n`. */
  method TimeLoop(p: Params, a0: seq<real>, q0: seq<real>, nt: nat) returns (aStore: array2<real>, qStore: array2<real>)
    requires p.dz != 0.0 && |a0| >= 2 && |q0| == |a0|
    ensures fresh(aStore) && fresh(qStore) && aStore.Length0 == nt + 1 && qStore.Length0 == nt + 1
    ensures aStore.Length1 == |a0| && qStore.Length1 == |a0|
    ensures Stored(Trajectory(p, Fields(a0, q0), nt), nt + 1, aStore, qStore)
  {
    ghost var f := Fields(a0, q0);
    ghost var states := Trajectory(p, f, nt);
    var nodes := |a0|;
    qStore := new real[nt + 1, nodes]((i, j) => 0.0);
    aStore := new real[nt + 1, nodes]((i, j) => 0.0);
    var q := ArrayOf(q0);
    var a := ArrayOf(a0);
    StoreLevel(states, 0, a, q, aStore, qStore);
    for n := 1 to nt + 1
      invariant a.Length == nodes && q.Length == nodes && a != q && fresh(a) && fresh(q)
      invariant Fields(a[..], q[..]) == Iterate(p, f, n - 1)
      invariant Stored(states, n, aStore, qStore)
    {
      a, q := StepAndStore(p, f, states, n, a, q, aStore, qStore);
    }
  }

  /** `[store[n, :] for n in range(rows)]`: the rows of a store as lists. */
  method Rows(store: array2<real>) returns (rows: seq<seq<real>>)
    ensures |rows| == store.Length0
    ensures forall n :: 0 <= n < |rows| ==> |rows[n]| == store.Length1
    ensures forall n, j :: 0 <= n < |rows| && 0 <= j < store.Length1 ==> rows[n][j] == store[n, j]
  {
    rows := [];
    for n := 0 to store.Length0
      invariant |rows| == n
      invariant forall m :: 0 <= m < n ==> |rows[m]| == store.Length1
      invariant forall m, j :: 0 <= m < n && 0 <= j < store.Length1 ==> rows[m][j] == store[m, j]
    {
      var row := seq(store.Length1, j requires 0 <= j < store.Length1 reads store => store[n, j]);
      rows := rows + [row];
    }
  }

  /** `v + s` elementwise. */
  function Offset(v: real, s: seq<real>): (r: seq<real>)
    ensures |r| == |s| && forall i :: 0 <= i < |s| ==> r[i] == v + s[i]
  {
    seq(|s|, i requires 0 <= i < |s| => v + s[i])
  }

  /** `[i*dt for i in range(count)]`. */
  method Times(count: nat, dt: real) returns (times: seq<real>)
    ensures |times| == count && forall i :: 0 <= i < count ==> times[i] == Clock(i, dt)
  {
    times := [];
    for i := 0 to count
      invariant |times| == i && forall k :: 0 <= k < i ==> times[k] == Clock(k, dt)
    {
      times := times + [Clock(i, dt)];
    }
  }

  /** The script's constants: node count `Nx + 1`, domain length, final time, CFL target, wave speed,
      reference diameter, bump width, centres and the flow amplitude. */
  datatype Config = Config(nx: nat, length: real, tFinal: real, cfl: real, c: real, dRef: real,
                           eps: real, centerQ: real, centerA: real, ampQ: real)
  {
    predicate Valid() { nx >= 1 && length > 0.0 && tFinal >= 0.0 && cfl > 0.0 && c > 0.0 && eps != 0.0 }
  }

  /** The values TestC1.py hard-codes. */
  function DefaultConfig(): (c: Config)
    ensures c.Valid() && c.nx == 400
  {
    Config(400, 1.0, 2.6, 0.4, 1.0, 0.003, 0.02, 0.4, 0.7, 1.0 * 0.000001)
  }

  /** `dz = L / Nx`. */
  function Spacing(c: Config): (dz: real)
    requires c.Valid()
    ensures dz > 0.0
  {
    c.length / c.nx as real
  }

  /** `A_ref = pi * R_ref**2` with `R_ref = D_ref / 2`. */
  function AreaRef(tr: Transcendentals, c: Config): real
  {
    var r := c.dRef / 2.0;
    tr.pi * (r * r)
  }

  /** `amp * s` elementwise. */
  function Scaled(amp: real, s: seq<real>): (r: seq<real>)
    ensures |r| == |s| && forall i :: 0 <= i < |s| ==> r[i] == amp * s[i]
  {
    seq(|s|, i requires 0 <= i < |s| => amp * s[i])
  }

  /** `Q = amp_Q * bump(z, 0.4, epsilon)` and `A = amp_A * bump(z, 0.7, epsilon)` with `amp_A = 1 * A_ref`
      on `z = np.linspace(0, L, Nx + 1)`. */
  function InitialFields(tr: Transcendentals, c: Config): (f: Fields)
    requires c.Valid()
    ensures f.HasNodes(c.nx + 1)
    ensures forall i :: 0 <= i <= c.nx ==>
      var z := Linspace(0.0, c.length, c.nx + 1)[i];
      f.q[i] == c.ampQ * BumpAt(tr, z, c.centerQ, c.eps, 1.0) &&
      f.a[i] == (1.0 * AreaRef(tr, c)) * BumpAt(tr, z, c.centerA, c.eps, 1.0)
  {
    var z := Linspace(0.0, c.length, c.nx + 1);
    Fields(Scaled(1.0 * AreaRef(tr, c), seq(c.nx + 1, i requires 0 <= i <= c.nx => BumpAt(tr, z[i], c.centerA, c.eps, 1.0))),
           Scaled(c.ampQ, seq(c.nx + 1, i requires 0 <= i <= c.nx => BumpAt(tr, z[i], c.centerQ, c.eps, 1.0))))
  }

  /** What `run_simulation` returns: positions, times, absolute areas and flows of every time level. */
  datatype Output = Output(x: seq<real>, times: seq<real>, aArr: seq<seq<real>>, qArr: seq<seq<real>>)

  /** The output for the list of states `states`: one level per state, level `n` at time `n dt`,
      holding the flow of `states[n]` and its area shifted by `A_ref`. */
  ghost predicate LevelsOf(states: seq<Fields>, dt: real, aRef: real, out: Output)
  {
    |out.times| == |out.aArr| == |out.qArr| == |states| &&
    (forall i :: 0 <= i < |states| ==> out.times[i] == Clock(i, dt)) &&
    forall n :: 0 <= n < |states| ==>
      out.qArr[n] == states[n].q &&
      |out.aArr[n]| == |states[n].a| && forall j :: 0 <= j < |states[n].a| ==> out.aArr[n][j] == aRef + states[n].a[j]
  }

  /** The output of `nt` passes from `f`: `nt + 1` levels, level `n` at time `n dt`, holding the flow
      after `n` passes and the area after `n` passes shifted by `A_ref`. */
  ghost predicate Levels(p: Params, f: Fields, aRef: real, nt: nat, out: Output)
    requires p.dz != 0.0 && |f.a| >= 2 && f.HasNodes(|f.a|)
  {
    LevelsOf(Trajectory(p, f, nt), p.dt, aRef, out)
  }

  /** Level 0 is the initial state at time 0, and every later level satisfies the reflecting condition
      at both ends. */
  lemma LevelsShape(p: Params, f: Fields, aRef: real, nt: nat, out: Output, n: nat)
    requires p.dz != 0.0 && |f.a| >= 2 && f.HasNodes(|f.a|) && Levels(p, f, aRef, nt, out) && 1 <= n <= nt
    ensures out.times[0] == 0.0 && out.qArr[0] == f.q
    ensures forall j :: 0 <= j < |f.a| ==> out.aArr[0][j] == aRef + f.a[j]
    ensures Reflected(out.qArr[n]) && Reflected(out.aArr[n])
  {
    var it := Iterate(p, f, n);
    var last := |f.a| - 1;
    assert out.aArr[n][0] == aRef + it.a[0] && out.aArr[n][1] == aRef + it.a[1];
    assert out.aArr[n][last] == aRef + it.a[last] && out.aArr[n][last - 1] == aRef + it.a[last - 1];
  }

  /** The output assembly: `x = z`, the times `i dt`, and the stored rows, areas shifted by `A_ref`. */
  method Assemble(ghost states: seq<Fields>, dt: real, aRef: real, z: seq<real>,
                  aStore: array2<real>, qStore: array2<real>) returns (out: Output)
    requires aStore.Length0 == |states| && qStore.Length0 == |states| && Stored(states, |states|, aStore, qStore)
    ensures out.x == z && LevelsOf(states, dt, aRef, out)
  {
    var times := Times(aStore.Length0, dt);
    var aRows := Rows(aStore);
    var qRows := Rows(qStore);
    var aArr := seq(|aRows|, n requires 0 <= n < |aRows| => Offset(aRef, aRows[n]));
    out := Output(z, times, aArr, qRows);
    forall n | 0 <= n < |states|
      ensures qRows[n] == states[n].q
      ensures |aArr[n]| == |states[n].a| && forall j :: 0 <= j < |states[n].a| ==> aArr[n][j] == aRef + states[n].a[j]
    {
      assert RowHolds(aStore, n, states[n].a) && RowHolds(qStore, n, states[n].q);
    }
  }

  /** `run_simulation()`: the adjusted time grid with `Nt dt = Tfinal`, the initial bumps and the
      `Nt + 1` stored levels; the last level is at time `Tfinal`. */
  method RunSimulation(tr: Transcendentals, c: Config) returns (out: Output)
    requires c.Valid()
    ensures var g := CeilTimeGrid(c.tFinal, c.cfl, Spacing(c), c.c);
            Levels(Params(g.dt, Spacing(c)), InitialFields(tr, c), AreaRef(tr, c), g.steps, out) &&
            out.times[g.steps] == c.tFinal
    ensures out.x == Linspace(0.0, c.length, c.nx + 1)
  {
    var dz := Spacing(c);
    var z := Linspace(0.0, c.length, c.nx + 1);
    var g := CeilTimeGrid(c.tFinal, c.cfl, dz, c.c);
    var p := Params(g.dt, dz);
    var f := InitialFields(tr, c);
    var aStore, qStore := TimeLoop(p, f.a, f.q, g.steps);
    out := Assemble(Trajectory(p, f, g.steps), p.dt, AreaRef(tr, c), z, aStore, qStore);
    CeilGridReachesFinal(c.tFinal, c.cfl, dz, c.c);
  }
}
