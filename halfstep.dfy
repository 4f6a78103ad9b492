/** Test_model_laxw_half_step.py: two-step (half-step) Lax-Wendroff for the damped linear wave pair
    `A_t + Q_z = 0`, `Q_t + c^2 A_z + delta Q = 0`, with characteristic (non-reflecting) boundaries and
    snapshots every `snap_every` steps. */
module HalfStepLaxWendroff {
  import opened Numerics
  import opened Grid
  import opened FieldArrays

  /** The script's constants `c`, `delta`, `dt` and `dz = L / (N - 1)`. The script fixes `c = 1` and a
      positive `dz`, so neither division by `c` nor by `dz` can fail. */
  datatype Wave = Wave(c: real, delta: real, dt: real, dz: real)
  {
    predicate Valid() { c != 0.0 && dz != 0.0 }
  }

  /** `c**2`. */
  function SpeedSquared(w: Wave): real
  {
    w.c * w.c
  }

  /** The characteristic variable `W- = Q - c A`. */
  function WMinus(w: Wave, a: real, q: real): real
  {
    q - w.c * a
  }

  /** The characteristic variable `W+ = Q + c A`. */
  function WPlus(w: Wave, a: real, q: real): real
  {
    q + w.c * a
  }

  /** Dividing by `2 c` and multiplying back by `c` halves. */
  lemma HalfOfQuotient(x: real, c: real)
    requires c != 0.0
    ensures c * (x / (2.0 * c)) == x / 2.0
  {
    var y := x / (2.0 * c);
    DivMul(x, 2.0 * c);
    assert y * (2.0 * c) == 2.0 * (c * y);
  }

  /** The area `x / (2c)` a boundary node is given from the characteristic value `x` it keeps. */
  function EdgeArea(w: Wave, x: real): real
    requires w.Valid()
  {
    x / (2.0 * w.c)
  }

  /** `inlet_bc(A, Q)`: `Wm = Q[1] - c A[1]`, `A[0] = -Wm / (2c)`, `Q[0] = Wm / 2`. */
  function InletBc(w: Wave, f: Fields): (r: Fields)
    requires w.Valid() && |f.a| >= 2 && f.HasNodes(|f.a|)
    ensures r.HasNodes(|f.a|)
    ensures forall i :: 1 <= i < |f.a| ==> r.a[i] == f.a[i] && r.q[i] == f.q[i]
    ensures WMinus(w, r.a[0], r.q[0]) == WMinus(w, f.a[1], f.q[1])
    ensures WPlus(w, r.a[0], r.q[0]) == 0.0
  {
    var wm := WMinus(w, f.a[1], f.q[1]);
    HalfOfQuotient(-wm, w.c);
    Fields(f.a[0 := EdgeArea(w, -wm)], f.q[0 := wm / 2.0])
  }

  /** `outlet_bc(A, Q)`: `Wp = Q[-2] + c A[-2]`, `A[-1] = Wp / (2c)`, `Q[-1] = Wp / 2`. */
  function OutletBc(w: Wave, f: Fields): (r: Fields)
    requires w.Valid() && |f.a| >= 2 && f.HasNodes(|f.a|)
    ensures r.HasNodes(|f.a|)
    ensures forall i :: 0 <= i < |f.a| - 1 ==> r.a[i] == f.a[i] && r.q[i] == f.q[i]
    ensures WPlus(w, r.a[|f.a| - 1], r.q[|f.a| - 1]) == WPlus(w, f.a[|f.a| - 2], f.q[|f.a| - 2])
    ensures WMinus(w, r.a[|f.a| - 1], r.q[|f.a| - 1]) == 0.0
  {
    var n := |f.a|;
    var wp := WPlus(w, f.a[n - 2], f.q[n - 2]);
    HalfOfQuotient(wp, w.c);
    Fields(f.a[n - 1 := EdgeArea(w, wp)], f.q[n - 1 := wp / 2.0])
  }

  /** The inlet condition reads node 1 and writes node 0 only, so applying it twice changes nothing more. */
  lemma InletBcIdempotent(w: Wave, f: Fields)
    requires w.Valid() && |f.a| >= 2 && f.HasNodes(|f.a|)
    ensures InletBc(w, InletBc(w, f)) == InletBc(w, f)
  {
    var r := InletBc(w, f);
    var rr := InletBc(w, r);
    assert rr.a == r.a && rr.q == r.q;
  }

  /** The same for the outlet condition. */
  lemma OutletBcIdempotent(w: Wave, f: Fields)
    requires w.Valid() && |f.a| >= 2 && f.HasNodes(|f.a|)
    ensures OutletBc(w, OutletBc(w, f)) == OutletBc(w, f)
  {
    var r := OutletBc(w, f);
    var rr := OutletBc(w, r);
    assert rr.a == r.a && rr.q == r.q;
  }

  /** From three nodes on the two conditions read and write disjoint nodes, so their order does not
      matter. */
  lemma BcsCommute(w: Wave, f: Fields)
    requires w.Valid() && |f.a| >= 3 && f.HasNodes(|f.a|)
    ensures OutletBc(w, InletBc(w, f)) == InletBc(w, OutletBc(w, f))
  {
    var x := OutletBc(w, InletBc(w, f));
    var y := InletBc(w, OutletBc(w, f));
    assert x.a == y.a && x.q == y.q;
  }

  /** On two nodes they do not commute: each reads the node the other writes. Here the inlet goes first
      and then the outlet reads the new inlet node. */
  lemma BcsOnTwoNodes(w: Wave, f: Fields)
    requires w.Valid() && |f.a| == 2 && f.HasNodes(2)
    ensures WPlus(w, OutletBc(w, InletBc(w, f)).a[1], OutletBc(w, InletBc(w, f)).q[1]) == 0.0
    ensures WMinus(w, OutletBc(w, InletBc(w, f)).a[1], OutletBc(w, InletBc(w, f)).q[1]) == 0.0
  {
    var g := InletBc(w, f);
    var r := OutletBc(w, g);
    assert WPlus(w, r.a[1], r.q[1]) == WPlus(w, g.a[0], g.q[0]);
  }

  /** The edge area between nodes with areas `aL`, `aR` and flows `qL`, `qR`:
      `0.5 (aL + aR) - 0.5 dt (qR - qL) / dz`. */
  function EdgeAreaOf(w: Wave, aL: real, aR: real, qL: real, qR: real): real
    requires w.Valid()
  {
    0.5 * (aL + aR) - 0.5 * w.dt * (qR - qL) / w.dz
  }

  /** The edge flow between the same nodes:
      `0.5 (qL + qR) - 0.5 dt (c^2 (aR - aL) / dz + delta 0.5 (qL + qR))`. */
  function EdgeFlowOf(w: Wave, aL: real, aR: real, qL: real, qR: real): real
    requires w.Valid()
  {
    0.5 * (qL + qR) - 0.5 * w.dt * (SpeedSquared(w) * (aR - aL) / w.dz + w.delta * 0.5 * (qL + qR))
  }

  /** `A_half[i]`, from the nodes `i` and `i + 1`. */
  function HalfArea(w: Wave, f: Fields, i: nat): real
    requires w.Valid() && f.HasNodes(|f.a|) && i + 1 < |f.a|
  {
    EdgeAreaOf(w, f.a[i], f.a[i + 1], f.q[i], f.q[i + 1])
  }

  /** `Q_half[i]`, from the nodes `i` and `i + 1`. */
  function HalfFlow(w: Wave, f: Fields, i: nat): real
    requires w.Valid() && f.HasNodes(|f.a|) && i + 1 < |f.a|
  {
    EdgeFlowOf(w, f.a[i], f.a[i + 1], f.q[i], f.q[i + 1])
  }

  /** The edge values `A_half`, `Q_half` of length `N - 1`. */
  function HalfStep(w: Wave, f: Fields): (h: Fields)
    requires w.Valid() && |f.a| >= 1 && f.HasNodes(|f.a|)
    ensures h.HasNodes(|f.a| - 1)
    ensures forall i :: 0 <= i < |f.a| - 1 ==> h.a[i] == HalfArea(w, f, i) && h.q[i] == HalfFlow(w, f, i)
  {
    var n := |f.a|;
    Fields(seq(n - 1, i requires 0 <= i < n - 1 => HalfArea(w, f, i)),
           seq(n - 1, i requires 0 <= i < n - 1 => HalfFlow(w, f, i)))
  }

  /** Edge `i` depends on the nodes `i` and `i + 1` only. */
  lemma HalfStepLocal(w: Wave, f: Fields, g: Fields, i: nat)
    requires w.Valid() && |f.a| >= 1 && f.HasNodes(|f.a|) && g.HasNodes(|f.a|) && i + 1 < |f.a|
    requires f.a[i] == g.a[i] && f.a[i + 1] == g.a[i + 1] && f.q[i] == g.q[i] && f.q[i + 1] == g.q[i + 1]
    ensures HalfStep(w, f).a[i] == HalfStep(w, g).a[i] && HalfStep(w, f).q[i] == HalfStep(w, g).q[i]
  {
  }

  /** The new area of a node with area `a` between edges with flows `qL`, `qR`: `a - dt (qR - qL) / dz`. */
  function NodeAreaOf(w: Wave, a: real, qL: real, qR: real): real
    requires w.Valid()
  {
    a - w.dt * (qR - qL) / w.dz
  }

  /** The new flow of a node with flow `q` between edges with areas `aL`, `aR` and flows `qL`, `qR`:
      `q - dt (c^2 (aR - aL) / dz + delta 0.5 (qR + qL))`. */
  function NodeFlowOf(w: Wave, q: real, aL: real, aR: real, qL: real, qR: real): real
    requires w.Valid()
  {
    q - w.dt * (SpeedSquared(w) * (aR - aL) / w.dz + w.delta * 0.5 * (qR + qL))
  }

  /** `A_new[i] = A[i] - dt (Q_half[i] - Q_half[i-1]) / dz` at the interior nodes `1..N-2`, the old value
      at the ends. */
  function FullAreaAt(w: Wave, f: Fields, h: Fields, i: nat): real
    requires w.Valid() && |f.a| >= 1 && f.HasNodes(|f.a|) && h.HasNodes(|f.a| - 1) && i < |f.a|
  {
    if 1 <= i < |f.a| - 1 then NodeAreaOf(w, f.a[i], h.q[i - 1], h.q[i]) else f.a[i]
  }

  /** `Q_new[i] = Q[i] - dt (c^2 (A_half[i] - A_half[i-1]) / dz + delta 0.5 (Q_half[i] + Q_half[i-1]))`
      at the interior nodes, the old value at the ends. */
  function FullFlowAt(w: Wave, f: Fields, h: Fields, i: nat): real
    requires w.Valid() && |f.a| >= 1 && f.HasNodes(|f.a|) && h.HasNodes(|f.a| - 1) && i < |f.a|
  {
    if 1 <= i < |f.a| - 1 then NodeFlowOf(w, f.q[i], h.a[i - 1], h.a[i], h.q[i - 1], h.q[i]) else f.q[i]
  }

  /** The copies `A_new`, `Q_new` after the full-step loop over `1..N-2`. */
  function FullStep(w: Wave, f: Fields, h: Fields): (r: Fields)
    requires w.Valid() && |f.a| >= 1 && f.HasNodes(|f.a|) && h.HasNodes(|f.a| - 1)
    ensures r.HasNodes(|f.a|)
    ensures forall i :: 0 <= i < |f.a| ==> r.a[i] == FullAreaAt(w, f, h, i) && r.q[i] == FullFlowAt(w, f, h, i)
  {
    var n := |f.a|;
    Fields(seq(n, i requires 0 <= i < n => FullAreaAt(w, f, h, i)),
           seq(n, i requires 0 <= i < n => FullFlowAt(w, f, h, i)))
  }

  /** The full step leaves the two end nodes as they were; only the boundary conditions set them. */
  lemma FullStepKeepsEnds(w: Wave, f: Fields, h: Fields)
    requires w.Valid() && |f.a| >= 1 && f.HasNodes(|f.a|) && h.HasNodes(|f.a| - 1)
    ensures var r := FullStep(w, f, h); var n := |f.a|;
      r.a[0] == f.a[0] && r.q[0] == f.q[0] && r.a[n - 1] == f.a[n - 1] && r.q[n - 1] == f.q[n - 1]
  {
    var r, n := FullStep(w, f, h), |f.a|;
    assert r.a[0] == FullAreaAt(w, f, h, 0) && r.q[0] == FullFlowAt(w, f, h, 0);
    assert r.a[n - 1] == FullAreaAt(w, f, h, n - 1) && r.q[n - 1] == FullFlowAt(w, f, h, n - 1);
  }

  /** An interior node of the full step depends on the old node and the two edges beside it only. */
  lemma FullStepLocal(w: Wave, f: Fields, h: Fields, g: Fields, k: Fields, i: nat)
    requires w.Valid() && |f.a| >= 1 && f.HasNodes(|f.a|) && h.HasNodes(|f.a| - 1)
    requires g.HasNodes(|f.a|) && k.HasNodes(|f.a| - 1) && 1 <= i < |f.a| - 1
    requires f.a[i] == g.a[i] && f.q[i] == g.q[i]
    requires h.a[i - 1] == k.a[i - 1] && h.a[i] == k.a[i] && h.q[i - 1] == k.q[i - 1] && h.q[i] == k.q[i]
    ensures FullStep(w, f, h).a[i] == FullStep(w, g, k).a[i] && FullStep(w, f, h).q[i] == FullStep(w, g, k).q[i]
  {
  }

  /** Without damping, the edge values of a constant state are the constants. */
  lemma HalfStepOfConstant(w: Wave, f: Fields, va: real, vq: real)
    requires w.Valid() && w.delta == 0.0 && |f.a| >= 1 && f.HasNodes(|f.a|) && Constant(f.a, va) && Constant(f.q, vq)
    ensures Constant(HalfStep(w, f).a, va) && Constant(HalfStep(w, f).q, vq)
  {
    var h := HalfStep(w, f);
    forall i | 0 <= i < |h.a| ensures h.a[i] == va && h.q[i] == vq {
      assert f.a[i] == va && f.a[i + 1] == va && f.q[i] == vq && f.q[i + 1] == vq;
    }
  }

  /** With constant edge values and no damping, the full step leaves every node as it was. */
  lemma FullStepOfConstantEdges(w: Wave, f: Fields, h: Fields, ha: real, hq: real)
    requires w.Valid() && w.delta == 0.0 && |f.a| >= 1 && f.HasNodes(|f.a|) && h.HasNodes(|f.a| - 1)
    requires Constant(h.a, ha) && Constant(h.q, hq)
    ensures FullStep(w, f, h) == f
  {
    var r := FullStep(w, f, h);
    forall i | 0 <= i < |f.a| ensures r.a[i] == f.a[i] && r.q[i] == f.q[i] {
      if 1 <= i < |f.a| - 1 {
        assert h.a[i] == ha && h.a[i - 1] == ha && h.q[i] == hq && h.q[i - 1] == hq;
      }
    }
    assert r.a == f.a && r.q == f.q;
  }

  /** One pass of the time loop: both boundary conditions on the current state, the half step, the full
      step on copies, and both boundary conditions on the result. */
  function StepOf(w: Wave, f: Fields): (r: Fields)
    requires w.Valid() && |f.a| >= 2 && f.HasNodes(|f.a|)
    ensures r.HasNodes(|f.a|)
  {
    var g := OutletBc(w, InletBc(w, f));
    OutletBc(w, InletBc(w, FullStep(w, g, HalfStep(w, g))))
  }

  /** After a pass from three nodes on, both end nodes carry no incoming characteristic: `Q + c A = 0` at
      the inlet and `Q - c A = 0` at the outlet; node 0 continues the outgoing `Q - c A` of node 1 and
      the last node the outgoing `Q + c A` of the one before it. */
  lemma StepCharacteristics(w: Wave, f: Fields)
    requires w.Valid() && |f.a| >= 3 && f.HasNodes(|f.a|)
    ensures var r := StepOf(w, f); var n := |f.a|;
      WPlus(w, r.a[0], r.q[0]) == 0.0 && WMinus(w, r.a[n - 1], r.q[n - 1]) == 0.0 &&
      WMinus(w, r.a[0], r.q[0]) == WMinus(w, r.a[1], r.q[1]) &&
      WPlus(w, r.a[n - 1], r.q[n - 1]) == WPlus(w, r.a[n - 2], r.q[n - 2])
  {
    var g := OutletBc(w, InletBc(w, f));
    var full := FullStep(w, g, HalfStep(w, g));
    var inl := InletBc(w, full);
    var r := OutletBc(w, inl);
    assert r.a[0] == inl.a[0] && r.q[0] == inl.q[0] && r.a[1] == inl.a[1] && r.q[1] == inl.q[1];
  }

  /** The all-zero state stays zero. */
  lemma StepKeepsZero(w: Wave, n: nat)
    requires w.Valid() && n >= 2
    ensures StepOf(w, Fields(Zeros(n), Zeros(n))) == Fields(Zeros(n), Zeros(n))
  {
    var z := Fields(Zeros(n), Zeros(n));
    BcsKeepZero(w, z);
    var h := HalfStep(w, z);
    HalfStepOfZero(w, z);
    FullStepOfZero(w, z, h);
  }

  /** Both boundary conditions keep the all-zero state. */
  lemma BcsKeepZero(w: Wave, z: Fields)
    requires w.Valid() && |z.a| >= 2 && z.HasNodes(|z.a|) && Constant(z.a, 0.0) && Constant(z.q, 0.0)
    ensures InletBc(w, z) == z && OutletBc(w, z) == z
  {
    var i, o := InletBc(w, z), OutletBc(w, z);
    assert z.q[1] - w.c * z.a[1] == 0.0;
    assert i.a == z.a && i.q == z.q;
    assert o.a == z.a && o.q == z.q;
  }

  /** The edge values of the all-zero state are zero, with or without damping. */
  lemma HalfStepOfZero(w: Wave, z: Fields)
    requires w.Valid() && |z.a| >= 1 && z.HasNodes(|z.a|) && Constant(z.a, 0.0) && Constant(z.q, 0.0)
    ensures Constant(HalfStep(w, z).a, 0.0) && Constant(HalfStep(w, z).q, 0.0)
  {
    var h := HalfStep(w, z);
    forall i | 0 <= i < |h.a| ensures h.a[i] == 0.0 && h.q[i] == 0.0 {
      assert z.a[i] == 0.0 && z.a[i + 1] == 0.0 && z.q[i] == 0.0 && z.q[i + 1] == 0.0;
    }
  }

  /** The full step from the all-zero state with zero edge values is zero. */
  lemma FullStepOfZero(w: Wave, z: Fields, h: Fields)
    requires w.Valid() && |z.a| >= 1 && z.HasNodes(|z.a|) && h.HasNodes(|z.a| - 1)
    requires Constant(z.a, 0.0) && Constant(z.q, 0.0) && Constant(h.a, 0.0) && Constant(h.q, 0.0)
    ensures FullStep(w, z, h) == z
  {
    var r := FullStep(w, z, h);
    forall i | 0 <= i < |z.a| ensures r.a[i] == z.a[i] && r.q[i] == z.q[i] {
      if 1 <= i < |z.a| - 1 {
        assert h.a[i] == 0.0 && h.a[i - 1] == 0.0 && h.q[i] == 0.0 && h.q[i - 1] == 0.0;
      }
    }
    assert r.a == z.a && r.q == z.q;
  }

  /** The state after `k` passes from `f`. */
  function Iterate(w: Wave, f: Fields, k: nat): (r: Fields)
    requires w.Valid() && |f.a| >= 2 && f.HasNodes(|f.a|)
    ensures r.HasNodes(|f.a|)
  {
    if k == 0 then f else StepOf(w, Iterate(w, f, k - 1))
  }

  /** `inlet_bc(A, Q)` on the arrays, in place. */
  method ApplyInletBc(w: Wave, a: array<real>, q: array<real>)
    requires w.Valid() && a.Length >= 2 && q.Length == a.Length && a != q
    modifies a, q
    ensures Fields(a[..], q[..]) == InletBc(w, Fields(old(a[..]), old(q[..])))
  {
    ghost var f := Fields(a[..], q[..]);
    var wm := WMinus(w, a[1], q[1]);
    a[0] := EdgeArea(w, -wm);
    q[0] := wm / 2.0;
    assert a[..] == f.a[0 := EdgeArea(w, -wm)] && q[..] == f.q[0 := wm / 2.0];
  }

  /** `outlet_bc(A, Q)` on the arrays, in place. */
  method ApplyOutletBc(w: Wave, a: array<real>, q: array<real>)
    requires w.Valid() && a.Length >= 2 && q.Length == a.Length && a != q
    modifies a, q
    ensures Fields(a[..], q[..]) == OutletBc(w, Fields(old(a[..]), old(q[..])))
  {
    ghost var f := Fields(a[..], q[..]);
    var n := a.Length;
    var wp := WPlus(w, a[n - 2], q[n - 2]);
    a[n - 1] := EdgeArea(w, wp);
    q[n - 1] := wp / 2.0;
    assert a[..] == f.a[n - 1 := EdgeArea(w, wp)] && q[..] == f.q[n - 1 := wp / 2.0];
  }

  /** `A_half = np.zeros(N - 1)`, `Q_half = np.zeros(N - 1)` and the loop over `range(N - 1)`. */
  method HalfStepArrays(w: Wave, a: array<real>, q: array<real>) returns (aHalf: array<real>, qHalf: array<real>)
    requires w.Valid() && a.Length >= 1 && q.Length == a.Length
    ensures fresh(aHalf) && fresh(qHalf)
    ensures Fields(aHalf[..], qHalf[..]) == HalfStep(w, Fields(a[..], q[..]))
  {
    ghost var f := Fields(a[..], q[..]);
    var n := a.Length;
    aHalf := new real[n - 1](i => 0.0);
    qHalf := new real[n - 1](i => 0.0);
    for i := 0 to n - 1
      invariant forall j :: 0 <= j < i ==> aHalf[j] == HalfArea(w, f, j) && qHalf[j] == HalfFlow(w, f, j)
    {
      aHalf[i] := EdgeAreaOf(w, a[i], a[i + 1], q[i], q[i + 1]);
      qHalf[i] := EdgeFlowOf(w, a[i], a[i + 1], q[i], q[i + 1]);
      assert aHalf[i] == HalfArea(w, f, i) && qHalf[i] == HalfFlow(w, f, i) by {
        assert a[i] == f.a[i] && a[i + 1] == f.a[i + 1] && q[i] == f.q[i] && q[i + 1] == f.q[i + 1];
      }
    }
    assert aHalf[..] == HalfStep(w, f).a;
    assert qHalf[..] == HalfStep(w, f).q;
  }

  /** `A_new = A.copy()`, `Q_new = Q.copy()` and the loop over `range(1, N - 1)`. */
  method FullStepArrays(w: Wave, a: array<real>, q: array<real>, aHalf: array<real>, qHalf: array<real>)
      returns (aNew: array<real>, qNew: array<real>)
    requires w.Valid() && a.Length >= 2 && q.Length == a.Length
    requires aHalf.Length == a.Length - 1 && qHalf.Length == a.Length - 1
    ensures fresh(aNew) && fresh(qNew) && aNew != qNew
    ensures Fields(aNew[..], qNew[..]) == FullStep(w, Fields(a[..], q[..]), Fields(aHalf[..], qHalf[..]))
  {
    ghost var f, h := Fields(a[..], q[..]), Fields(aHalf[..], qHalf[..]);
    var n := a.Length;
    aNew := CopyOf(a);
    qNew := CopyOf(q);
    for i := 1 to n - 1
      invariant forall j :: 0 <= j < i ==> aNew[j] == FullAreaAt(w, f, h, j) && qNew[j] == FullFlowAt(w, f, h, j)
      invariant forall j :: i <= j < n ==> aNew[j] == f.a[j] && qNew[j] == f.q[j]
    {
      aNew[i] := NodeAreaOf(w, a[i], qHalf[i - 1], qHalf[i]);
      qNew[i] := NodeFlowOf(w, q[i], aHalf[i - 1], aHalf[i], qHalf[i - 1], qHalf[i]);
      assert aNew[i] == FullAreaAt(w, f, h, i) && qNew[i] == FullFlowAt(w, f, h, i) by {
        assert a[i] == f.a[i] && q[i] == f.q[i];
        assert aHalf[i] == h.a[i] && aHalf[i - 1] == h.a[i - 1] && qHalf[i] == h.q[i] && qHalf[i - 1] == h.q[i - 1];
      }
    }
    assert aNew[..] == FullStep(w, f, h).a;
    assert qNew[..] == FullStep(w, f, h).q;
  }

  /** One pass of `for n in range(Nt)` on the arrays: both conditions in place on the current arrays,
      the half and full steps into new arrays, both conditions in place on those. */
  method StepArrays(w: Wave, a: array<real>, q: array<real>) returns (aNew: array<real>, qNew: array<real>)
    requires w.Valid() && a.Length >= 2 && q.Length == a.Length && a != q
    modifies a, q
    ensures fresh(aNew) && fresh(qNew) && aNew != qNew && aNew.Length == a.Length && qNew.Length == a.Length
    ensures Fields(aNew[..], qNew[..]) == StepOf(w, Fields(old(a[..]), old(q[..])))
  {
    ApplyInletBc(w, a, q);
    ApplyOutletBc(w, a, q);
    var aHalf, qHalf := HalfStepArrays(w, a, q);
    aNew, qNew := FullStepArrays(w, a, q, aHalf, qHalf);
    ApplyInletBc(w, aNew, qNew);
    ApplyOutletBc(w, aNew, qNew);
  }

  /** The snapshots the first `n` passes of the loop from `f` take: one for each multiple `k e` below
      `n`, taken after that pass, so holding the state after `k e + 1` passes, and labelled `k e dt`. */
  ghost predicate Snapshots(w: Wave, f: Fields, e: nat, n: nat,
                            aSnap: seq<seq<real>>, qSnap: seq<seq<real>>, times: seq<real>)
    requires w.Valid() && |f.a| >= 2 && f.HasNodes(|f.a|) && e >= 1
  {
    |aSnap| == |qSnap| == |times| == MultiplesBelow(n, e) &&
    (forall k :: 0 <= k < |times| ==> times[k] == Clock(Stride(k, e), w.dt)) &&
    forall k :: 0 <= k < |aSnap| ==> Fields(aSnap[k], qSnap[k]) == Iterate(w, f, Stride(k, e) + 1)
  }

  /** `if n % snap_every == 0`: append copies of the state after pass `n` and the label `n dt`. */
  method RecordSnapshot(ghost w: Wave, ghost f: Fields, e: nat, dt: real, n: nat, cur: Fields,
                        aSnap: seq<seq<real>>, qSnap: seq<seq<real>>, times: seq<real>)
      returns (aSnap': seq<seq<real>>, qSnap': seq<seq<real>>, times': seq<real>)
    requires w.Valid() && |f.a| >= 2 && f.HasNodes(|f.a|) && e >= 1 && dt == w.dt
    requires cur == Iterate(w, f, n + 1) && Snapshots(w, f, e, n, aSnap, qSnap, times)
    ensures Snapshots(w, f, e, n + 1, aSnap', qSnap', times')
  {
    MultiplesBelowStep(n, e);
    aSnap', qSnap', times' := aSnap, qSnap, times;
    if n % e == 0 {
      assert Stride(|times|, e) == n;
      aSnap', qSnap', times' := aSnap + [cur.a], qSnap + [cur.q], times + [Clock(n, dt)];
    }
  }

  /** The script's time loop `for n in range(Nt)` from the initial arrays, with snapshots every
      `snap_every` passes. There are `ceil(Nt / snap_every)` of them; snapshot `k` holds the state after
      `k snap_every + 1` passes and carries the label `k snap_every dt`. */
  method Run(w: Wave, a0: seq<real>, q0: seq<real>, nt: nat, snapEvery: nat)
      returns (aSnap: seq<seq<real>>, qSnap: seq<seq<real>>, times: seq<real>)
    requires w.Valid() && |a0| >= 2 && |q0| == |a0| && snapEvery >= 1
    ensures Snapshots(w, Fields(a0, q0), snapEvery, nt, aSnap, qSnap, times)
  {
    ghost var f := Fields(a0, q0);
    var a := ArrayOf(a0);
    var q := ArrayOf(q0);
    aSnap, qSnap, times := [], [], [];
    NoMultiplesBelowZero(snapEvery);
    for n := 0 to nt
      invariant a.Length == |a0| && q.Length == |a0| && a != q && fresh(a) && fresh(q)
      invariant Fields(a[..], q[..]) == Iterate(w, f, n)
      invariant Snapshots(w, f, snapEvery, n, aSnap, qSnap, times)
    {
      a, q := StepArrays(w, a, q);
      aSnap, qSnap, times := RecordSnapshot(w, f, snapEvery, w.dt, n, Fields(a[..], q[..]), aSnap, qSnap, times);
    }
  }

  /** The label of a snapshot is the time before the pass that produced it: snapshot `k` holds the
      state after `k e + 1` passes, which is one `dt` later than its label. */
  lemma SnapshotLabelLagsState(w: Wave, f: Fields, e: nat, nt: nat,
                               aSnap: seq<seq<real>>, qSnap: seq<seq<real>>, times: seq<real>, k: nat)
    requires w.Valid() && |f.a| >= 2 && f.HasNodes(|f.a|) && e >= 1
    requires Snapshots(w, f, e, nt, aSnap, qSnap, times) && k < |times|
    ensures times[k] + w.dt == Clock(Stride(k, e) + 1, w.dt)
    ensures Fields(aSnap[k], qSnap[k]) == Iterate(w, f, Stride(k, e) + 1)
  {
  }
}
