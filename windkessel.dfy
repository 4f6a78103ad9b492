/** health_wk_laxw.py: Taylor-form Lax-Wendroff for the perturbations `A~`, `Q~` of a single artery, with
    a Blackman-Harris inlet pressure and a four-element Windkessel outlet. */
module WindkesselLaxWendroff {
  import opened Numerics
  import opened Grid
  import opened FieldArrays

  // Heart period and the Blackman-Harris window coefficients.
  const T_HEART: real := 1.0
  const BH_A0: real := 0.35875
  const BH_A1: real := 0.48829
  const BH_A2: real := 0.14128
  const BH_A3: real := 0.01168

  // Pulse timing (lengths, onsets, weights) at 60 beats per minute, and the amplitudes in Pa.
  const LD: real := 0.60
  const LP: real := 0.55
  const LT: real := 0.55
  const TP: real := 0.38
  const TD: real := 0.05
  const TT: real := 0.20
  const BETA_D: real := 0.4
  const BETA_P: real := 1.0
  const BETA_T: real := 0.3
  const C_REL: real := 60.0 / 60.0
  const MMHG_TO_PA: real := 133.322
  const PULSE_AMPLITUDE: real := 50.0 * MMHG_TO_PA
  const P_DIAS: real := 87.0 * MMHG_TO_PA

  // Geometry, blood and wall properties, Windkessel elements.
  const D_REF: real := 0.003
  const YOUNG: real := 1500000.0
  const WALL: real := 0.0003
  const RHO: real := 1060.0
  const MU: real := 0.0035
  const RP: real := 670000000.0
  const RD: real := 10000000000.0
  const CW: real := 0.000000000015
  const LINT: real := 10000.0
  const DT: real := 0.00001
  const DZ: real := 0.001

  /** The four-term Blackman-Harris expression at the normalised time `tau`. */
  function BhFormula(tr: Transcendentals, tau: real): real
  {
    BH_A0 - BH_A1 * tr.cos(2.0 * tr.pi * tau) + BH_A2 * tr.cos(4.0 * tr.pi * tau) - BH_A3 * tr.cos(6.0 * tr.pi * tau)
  }

  /** `bh_window(t_local)`: the window on `[0, T_heart]` and 0 outside it. */
  function BhWindow(tr: Transcendentals, tLocal: real): (w: real)
    ensures tLocal < 0.0 || tLocal > T_HEART ==> w == 0.0
    ensures 0.0 <= tLocal <= T_HEART ==> w == BhFormula(tr, tLocal / T_HEART)
  {
    if tLocal < 0.0 || tLocal > T_HEART then 0.0 else BhFormula(tr, tLocal / T_HEART)
  }

  /** The largest of `s`. */
  function MaxOf(s: seq<real>): (m: real)
    requires |s| >= 1
    ensures m in s && forall x :: x in s ==> x <= m
  {
    if |s| == 1 then s[0]
    else
      var rest := MaxOf(s[1..]);
      assert forall x :: x in s ==> x == s[0] || x in s[1..];
      if s[0] >= rest then s[0] else rest
  }

  /** The window sampled on `linspace(0, T_heart, 2001)`. */
  function WindowSamples(tr: Transcendentals): (s: seq<real>)
    ensures |s| == 2001
    ensures forall i :: 0 <= i < 2001 ==> s[i] == BhWindow(tr, Linspace(0.0, T_HEART, 2001)[i])
  {
    var grid := Linspace(0.0, T_HEART, 2001);
    seq(2001, i requires 0 <= i < 2001 => BhWindow(tr, grid[i]))
  }

  /** `w_max = np.max(w_vals)`: the largest sample, attained at one of them. */
  function SampledWindowMax(tr: Transcendentals): (m: real)
    ensures m in WindowSamples(tr)
    ensures forall x :: x in WindowSamples(tr) ==> x <= m
  {
    MaxOf(WindowSamples(tr))
  }

  /** One Blackman-Harris pulse of `inlet_pressure`, normalised by the window maximum. */
  function Pulse(tr: Transcendentals, wMax: real, tMod: real, amp: real, beta: real, len: real, onset: real): (r: real)
    requires wMax != 0.0 && len != 0.0
    ensures len > 0.0 && tMod < onset ==> r == 0.0
    ensures len > 0.0 && tMod > onset + len / C_REL * T_HEART ==> r == 0.0
  {
    amp * beta * BhWindow(tr, (tMod - onset) / (len / C_REL)) / wMax
  }

  /** `inlet_pressure(t)`: diastolic pressure plus the P, D and T pulses of the time within the beat.
      Before the first onset and after the last pulse has ended, the inlet is at diastolic pressure. */
  function InletPressure(tr: Transcendentals, wMax: real, t: real): (p: real)
    requires wMax != 0.0
    ensures FloatMod(t, T_HEART) < TD ==> p == P_DIAS
    ensures FloatMod(t, T_HEART) > TP + LP ==> p == P_DIAS
  {
    var tMod := FloatMod(t, T_HEART);
    P_DIAS + Pulse(tr, wMax, tMod, PULSE_AMPLITUDE, BETA_P, LP, TP)
           + Pulse(tr, wMax, tMod, PULSE_AMPLITUDE, BETA_D, LD, TD)
           + Pulse(tr, wMax, tMod, PULSE_AMPLITUDE, BETA_T, LT, TT)
  }

  /** The inlet pressure is periodic with the heart period: it sees `t` only through `t % T_heart`. */
  lemma InletPressurePeriodic(tr: Transcendentals, wMax: real, t: real, k: int)
    requires wMax != 0.0
    ensures InletPressure(tr, wMax, t + k as real * T_HEART) == InletPressure(tr, wMax, t)
  {
    FloatModPeriodic(t, T_HEART, k);
  }

  /** The solver's coefficients: step sizes, tube-law stiffness `alpha`, reference pressure and area,
      damping `delta`, and the Windkessel coefficients `lambda_A`, `c2`, `c1`, `c0`. The stencil reads
      `c0` too: the script assigns the Windkessel coefficient to the name of the wave speed. */
  datatype Physics = Physics(dt: real, dz: real, alpha: real, pRef: real, aRef: real, delta: real,
                             lambdaA: real, c2: real, c1: real, c0: real)
  {
    predicate Valid() { dt > 0.0 && dz > 0.0 && alpha != 0.0 }
  }

  /** The coefficients as the script derives them from its constants; only pi is external. */
  function ScriptPhysics(tr: Transcendentals): (ph: Physics)
    requires tr.pi > 0.0
    ensures ph.Valid() && ph.alpha > 0.0 && ph.aRef > 0.0 && ph.pRef == P_DIAS
    ensures ph.lambdaA > 0.0 && ph.c2 > 0.0 && ph.c1 > 0.0 && ph.c0 > 0.0
    ensures ph.lambdaA * (RD * CW) == 1.0
    ensures ph.c0 * ph.alpha == 1.0 / CW + RP / (RD * CW)
    ensures ph.c2 * ph.alpha == LINT
  {
    var r := D_REF / 2.0;
    var aRef := tr.pi * (r * r);
    var alpha := YOUNG * WALL / (2.0 * tr.pi * (r * r * r));
    var delta := 8.0 * tr.pi * MU / (RHO * aRef);
    MulPos(tr.pi, r * r);
    MulPos(2.0 * tr.pi, r * r * r);
    assert alpha > 0.0;
    var ph := Physics(DT, DZ, alpha, P_DIAS, aRef, delta, 1.0 / (RD * CW), LINT / alpha,
                      (RP + LINT / (RD * CW)) / alpha, (1.0 / CW + RP / (RD * CW)) / alpha);
    DivMul(1.0 / CW + RP / (RD * CW), alpha);
    DivMul(LINT, alpha);
    ph
  }

  /** Inlet area `A~[0] = (P_in - P_ref) / alpha` from the prescribed pressure. */
  function InletArea(ph: Physics, pIn: real): (a: real)
    requires ph.Valid()
    ensures ph.pRef + ph.alpha * a == pIn
  {
    DivMul(pIn - ph.pRef, ph.alpha);
    (pIn - ph.pRef) / ph.alpha
  }

  /** Centred first difference `(u[i+1] - u[i-1]) / (2 dz)`. */
  function CentralDiff(ph: Physics, um: real, up: real): real
    requires ph.Valid()
  {
    (up - um) / (2.0 * ph.dz)
  }

  /** Second difference `(u[i+1] - 2 u[i] + u[i-1]) / dz^2`. */
  function SecondDiff(ph: Physics, um: real, u: real, up: real): real
    requires ph.Valid()
  {
    (up - 2.0 * u + um) / (ph.dz * ph.dz)
  }

  /** The Lax-Wendroff area update at an interior node. */
  function LwArea(ph: Physics, am: real, a: real, ap: real, qm: real, qp: real): (r: real)
    requires ph.Valid()
    ensures am == a == ap && qm == qp ==> r == a
  {
    a - ph.dt * CentralDiff(ph, qm, qp) + 0.5 * (ph.dt * ph.dt) * (ph.c0 * ph.c0) * SecondDiff(ph, am, a, ap)
  }

  /** The Lax-Wendroff flow update at an interior node, with the damping `-dt delta Q`. */
  function LwFlow(ph: Physics, am: real, ap: real, qm: real, q: real, qp: real): (r: real)
    requires ph.Valid()
    ensures am == ap && qm == q == qp ==> r == (1.0 - ph.dt * ph.delta) * q
  {
    q - ph.dt * (ph.c0 * ph.c0) * CentralDiff(ph, am, ap)
      + 0.5 * (ph.dt * ph.dt) * (ph.c0 * ph.c0) * SecondDiff(ph, qm, q, qp)
      - ph.dt * ph.delta * q
  }

  /** `A_new[i]`: the update at nodes `1..Nx-2`, the copied old value at the two ends. */
  function LwAreaAt(ph: Physics, a: seq<real>, q: seq<real>, i: nat): real
    requires ph.Valid() && |q| == |a| && i < |a|
  {
    if 1 <= i < |a| - 1 then LwArea(ph, a[i - 1], a[i], a[i + 1], q[i - 1], q[i + 1]) else a[i]
  }

  /** `Q_new[i]` after the interior loop. */
  function LwFlowAt(ph: Physics, a: seq<real>, q: seq<real>, i: nat): real
    requires ph.Valid() && |q| == |a| && i < |a|
  {
    if 1 <= i < |a| - 1 then LwFlow(ph, a[i - 1], a[i + 1], q[i - 1], q[i], q[i + 1]) else q[i]
  }

  /** The copies `A_new`, `Q_new` after the interior loop over `1..Nx-2`. */
  function LwInterior(ph: Physics, a: seq<real>, q: seq<real>): (r: (seq<real>, seq<real>))
    requires ph.Valid() && |q| == |a|
    ensures |r.0| == |a| && |r.1| == |a|
    ensures forall i :: 0 <= i < |a| ==> r.0[i] == LwAreaAt(ph, a, q, i) && r.1[i] == LwFlowAt(ph, a, q, i)
  {
    (seq(|a|, i requires 0 <= i < |a| => LwAreaAt(ph, a, q, i)), seq(|a|, i requires 0 <= i < |a| => LwFlowAt(ph, a, q, i)))
  }

  /** The interior loop keeps the end values of its input copies. */
  lemma LwInteriorKeepsEnds(ph: Physics, a: seq<real>, q: seq<real>)
    requires ph.Valid() && |q| == |a| >= 1
    ensures LwInterior(ph, a, q).0[0] == a[0] && LwInterior(ph, a, q).1[0] == q[0]
    ensures LwInterior(ph, a, q).0[|a| - 1] == a[|a| - 1] && LwInterior(ph, a, q).1[|a| - 1] == q[|a| - 1]
  {
    var r := LwInterior(ph, a, q);
    assert r.0[0] == LwAreaAt(ph, a, q, 0) && r.1[0] == LwFlowAt(ph, a, q, 0);
    assert r.0[|a| - 1] == LwAreaAt(ph, a, q, |a| - 1) && r.1[|a| - 1] == LwFlowAt(ph, a, q, |a| - 1);
  }

  /** Node `i` of the interior update reads only the old values at `i - 1`, `i`, `i + 1`. */
  lemma LwInteriorLocal(ph: Physics, a: seq<real>, q: seq<real>, a': seq<real>, q': seq<real>, i: nat)
    requires ph.Valid() && |q| == |a| && |a'| == |a| && |q'| == |a| && 1 <= i < |a| - 1
    requires a'[i - 1] == a[i - 1] && a'[i] == a[i] && a'[i + 1] == a[i + 1]
    requires q'[i - 1] == q[i - 1] && q'[i] == q[i] && q'[i + 1] == q[i + 1]
    ensures LwInterior(ph, a', q').0[i] == LwInterior(ph, a, q).0[i]
    ensures LwInterior(ph, a', q').1[i] == LwInterior(ph, a, q).1[i]
  {
    assert LwInterior(ph, a', q').0[i] == LwAreaAt(ph, a', q', i);
    assert LwInterior(ph, a, q).0[i] == LwAreaAt(ph, a, q, i);
    assert LwInterior(ph, a', q').1[i] == LwFlowAt(ph, a', q', i);
    assert LwInterior(ph, a, q).1[i] == LwFlowAt(ph, a, q, i);
  }

  /** On spatially constant fields the interior keeps the area and only damps the flow by
      `1 - dt delta`; without damping nothing changes. */
  lemma LwInteriorConstant(ph: Physics, a: seq<real>, q: seq<real>, v: real, w: real)
    requires ph.Valid() && |q| == |a|
    requires forall i :: 0 <= i < |a| ==> a[i] == v && q[i] == w
    ensures forall i :: 1 <= i < |a| - 1 ==>
      LwInterior(ph, a, q).0[i] == v && LwInterior(ph, a, q).1[i] == (1.0 - ph.dt * ph.delta) * w
    ensures ph.delta == 0.0 ==> LwInterior(ph, a, q) == (a, q)
  {
    var r := LwInterior(ph, a, q);
    assert CentralDiff(ph, v, v) == 0.0 && CentralDiff(ph, w, w) == 0.0;
    assert SecondDiff(ph, v, v, v) == 0.0 && SecondDiff(ph, w, w, w) == 0.0;
    forall i | 1 <= i < |a| - 1 ensures r.0[i] == v && r.1[i] == (1.0 - ph.dt * ph.delta) * w {
      assert r.0[i] == LwArea(ph, v, v, v, w, w);
      assert r.1[i] == LwFlow(ph, v, v, w, w, w);
      Distrib(1.0, -(ph.dt * ph.delta), w);
    }
    if ph.delta == 0.0 {
      forall i | 0 <= i < |a| ensures r.0[i] == a[i] && r.1[i] == q[i] {
        if 1 <= i < |a| - 1 {
          assert r.1[i] == (1.0 - ph.dt * ph.delta) * w;
        }
      }
      assert r.0 == a && r.1 == q;
    }
  }

  /** One-sided flow update `Q + dt (-c0^2 (A_right - A_left)/dz - delta Q)`: at the inlet with the
      forward difference `(A[1] - A[0])/dz`, at the outlet with the backward one `(A[-1] - A[-2])/dz`. */
  function BoundaryFlow(ph: Physics, aLeft: real, aRight: real, q: real): (r: real)
    requires ph.Valid()
    ensures aLeft == aRight ==> r == (1.0 - ph.dt * ph.delta) * q
  {
    q + ph.dt * (-(ph.c0 * ph.c0) * ((aRight - aLeft) / ph.dz) - ph.delta * q)
  }

  /** The first and second backward differences of the outlet-flow history `[Q^n, Q^{n-1}, Q^{n-2}]`,
      both 0 during the first two steps. The division by `dt**2` is written as two divisions by `dt`,
      which is the same over the reals; the second difference is then the change of the first. */
  function FlowDerivatives(ph: Physics, n: nat, hist: seq<real>): (d: (real, real))
    requires ph.Valid() && |hist| == 3
    ensures n < 2 ==> d == (0.0, 0.0)
    ensures n >= 2 ==> d.0 * ph.dt == hist[0] - hist[1]
    ensures n >= 2 ==> d.1 * ph.dt == d.0 - (hist[1] - hist[2]) / ph.dt
  {
    if n >= 2 then
      DivMul(hist[0] - hist[1], ph.dt);
      DivMul((hist[0] - 2.0 * hist[1] + hist[2]) / ph.dt, ph.dt);
      ((hist[0] - hist[1]) / ph.dt, (hist[0] - 2.0 * hist[1] + hist[2]) / ph.dt / ph.dt)
    else (0.0, 0.0)
  }

  /** One explicit Euler step of `dA/dt = -lambda_A A + c2 Q'' + c1 Q' + c0 Q`: the forward
      difference of the outlet area over the step satisfies the Windkessel equation at the old area. */
  function WindkesselEuler(ph: Physics, aOut: real, d: (real, real), qOut: real): (r: real)
    ensures ph.dt != 0.0 ==> (r - aOut) / ph.dt + ph.lambdaA * aOut == ph.c2 * d.1 + ph.c1 * d.0 + ph.c0 * qOut
  {
    aOut + ph.dt * (-ph.lambdaA * aOut + (ph.c2 * d.1 + ph.c1 * d.0 + ph.c0 * qOut))
  }

  /** The solver state between steps: the perturbation arrays, the Windkessel outlet area and the
      outlet-flow shift register. */
  datatype WkState = WkState(a: seq<real>, q: seq<real>, aOut: real, hist: seq<real>)
  {
    predicate Valid(nx: nat) { nx >= 2 && |a| == nx && |q| == nx && |hist| == 3 }
  }

  /** `A~[0] = (P_in - P_ref)/alpha` and `A~[-1] = A_out_state`, written into the old array before
      it is copied. */
  function PatchedArea(ph: Physics, s: WkState, pIn: real): (a: seq<real>)
    requires ph.Valid() && s.Valid(|s.a|)
    ensures |a| == |s.a| && a[0] == InletArea(ph, pIn) && a[|a| - 1] == s.aOut
    ensures forall i :: 1 <= i < |a| - 1 ==> a[i] == s.a[i]
  {
    s.a[0 := InletArea(ph, pIn)][|s.a| - 1 := s.aOut]
  }

  /** One pass of the time loop at step `n` with inlet pressure `pIn`: patch the ends of `A~`,
      Lax-Wendroff interior, one-sided boundary flows, shift the outlet flow in, advance the
      Windkessel state and make it the new outlet area. */
  function Advance(ph: Physics, n: nat, pIn: real, s: WkState): (r: WkState)
    requires ph.Valid() && s.Valid(|s.a|)
    ensures r.Valid(|s.a|)
  {
    var nx := |s.a|;
    var a := PatchedArea(ph, s, pIn);
    var lw := LwInterior(ph, a, s.q);
    var qIn := BoundaryFlow(ph, a[0], a[1], s.q[0]);
    var qOut := BoundaryFlow(ph, a[nx - 2], a[nx - 1], s.q[nx - 1]);
    var hist := [qOut, s.hist[0], s.hist[1]];
    var aOut := WindkesselEuler(ph, s.aOut, FlowDerivatives(ph, n, hist), qOut);
    WkState(lw.0[nx - 1 := aOut], lw.1[0 := qIn][nx - 1 := qOut], aOut, hist)
  }

  /** What a step leaves at the boundaries: the inlet area carries the prescribed pressure
      (`P_ref + alpha A~[0]` recovers it), both boundary flows follow the one-sided rule, the shift
      register holds `[Q_new[-1], old[0], old[1]]`, and the outlet area is the Windkessel state after
      one Euler step. */
  lemma AdvanceBoundaries(ph: Physics, n: nat, pIn: real, s: WkState)
    requires ph.Valid() && s.Valid(|s.a|)
    ensures var r := Advance(ph, n, pIn, s); var nx := |s.a|; var a := PatchedArea(ph, s, pIn);
      r.a[0] == InletArea(ph, pIn) && ph.pRef + ph.alpha * r.a[0] == pIn &&
      r.q[0] == BoundaryFlow(ph, a[0], a[1], s.q[0]) &&
      r.q[nx - 1] == BoundaryFlow(ph, a[nx - 2], a[nx - 1], s.q[nx - 1]) &&
      r.hist == [r.q[nx - 1], s.hist[0], s.hist[1]] &&
      r.aOut == WindkesselEuler(ph, s.aOut, FlowDerivatives(ph, n, r.hist), r.q[nx - 1]) &&
      r.a[nx - 1] == r.aOut
  {
    var a := PatchedArea(ph, s, pIn);
    LwInteriorKeepsEnds(ph, a, s.q);
  }

  /** Away from the ends a step is the Lax-Wendroff update of the patched old arrays. */
  lemma AdvanceInterior(ph: Physics, n: nat, pIn: real, s: WkState, i: nat)
    requires ph.Valid() && s.Valid(|s.a|) && 1 <= i < |s.a| - 1
    ensures Advance(ph, n, pIn, s).a[i] == LwAreaAt(ph, PatchedArea(ph, s, pIn), s.q, i)
    ensures Advance(ph, n, pIn, s).q[i] == LwFlowAt(ph, PatchedArea(ph, s, pIn), s.q, i)
  {
  }

  /** Cold start: in the first two steps the flow history does not reach the Windkessel update, so
      states differing only in the history give the same outlet area. */
  lemma ColdStartIgnoresHistory(ph: Physics, n: nat, pIn: real, s: WkState, h: seq<real>)
    requires ph.Valid() && s.Valid(|s.a|) && |h| == 3 && n < 2
    ensures Advance(ph, n, pIn, s.(hist := h)).aOut == Advance(ph, n, pIn, s).aOut
    ensures Advance(ph, n, pIn, s).aOut ==
      s.aOut + ph.dt * (-ph.lambdaA * s.aOut + ph.c0 * Advance(ph, n, pIn, s).q[|s.a| - 1])
  {
    var qOut := Advance(ph, n, pIn, s).q[|s.a| - 1];
    AdvanceBoundaries(ph, n, pIn, s);
    AdvanceBoundaries(ph, n, pIn, s.(hist := h));
    assert PatchedArea(ph, s.(hist := h), pIn) == PatchedArea(ph, s, pIn);
  }

  /** The zero state with an empty flow history and the reference inlet pressure is at rest. */
  lemma RestIsFixedPoint(ph: Physics, n: nat, nx: nat)
    requires ph.Valid() && nx >= 2
    ensures var z := WkState(seq(nx, i => 0.0), seq(nx, i => 0.0), 0.0, [0.0, 0.0, 0.0]);
      Advance(ph, n, ph.pRef, z) == z
  {
    var z := WkState(seq(nx, i => 0.0), seq(nx, i => 0.0), 0.0, [0.0, 0.0, 0.0]);
    AdvanceAtRest(ph, n, z);
  }

  /** A state with zero perturbations, a zero Windkessel state and a zero register is left as it is by a
      pass with the reference inlet pressure. */
  lemma AdvanceAtRest(ph: Physics, n: nat, z: WkState)
    requires ph.Valid() && z.Valid(|z.a|) && Constant(z.a, 0.0) && Constant(z.q, 0.0)
    requires z.aOut == 0.0 && z.hist == [0.0, 0.0, 0.0]
    ensures Advance(ph, n, ph.pRef, z) == z
  {
    var a := PatchedArea(ph, z, ph.pRef);
    assert InletArea(ph, ph.pRef) == 0.0;
    assert a == z.a;
    LwInteriorConstant(ph, z.a, z.q, 0.0, 0.0);
    var r := Advance(ph, n, ph.pRef, z);
    AdvanceBoundaries(ph, n, ph.pRef, z);
    assert BoundaryFlow(ph, 0.0, 0.0, 0.0) == 0.0;
    assert r.hist == z.hist;
    assert r.aOut == 0.0;
    assert r.a == z.a;
    assert r.q == z.q;
  }

  /** Pass `n` of the time loop from `s`, with the inlet pressure at `t = n dt`. */
  function PassOf(ph: Physics, tr: Transcendentals, wMax: real, n: nat, s: WkState): (r: WkState)
    requires ph.Valid() && wMax != 0.0 && s.Valid(|s.a|)
    ensures r.Valid(|s.a|)
  {
    Advance(ph, n, InletPressure(tr, wMax, Clock(n, ph.dt)), s)
  }

  /** The states of the time loop from `s`: the state after `k` passes. */
  function Evolve(ph: Physics, tr: Transcendentals, wMax: real, s: WkState, k: nat): (r: WkState)
    requires ph.Valid() && wMax != 0.0 && s.Valid(|s.a|)
    ensures r.Valid(|s.a|)
  {
    if k == 0 then s else PassOf(ph, tr, wMax, k - 1, Evolve(ph, tr, wMax, s, k - 1))
  }

  /** `traj` lists the states the loop goes through from `s0`, one pass apart. */
  ghost predicate Follows(ph: Physics, tr: Transcendentals, wMax: real, s0: WkState, traj: seq<WkState>)
  {
    ph.Valid() && wMax != 0.0 && s0.Valid(|s0.a|) && |traj| >= 1 && traj[0] == s0 &&
    (forall j :: 0 <= j < |traj| ==> traj[j].Valid(|s0.a|)) &&
    forall j {:trigger PassOf(ph, tr, wMax, j, traj[j])} :: 0 <= j < |traj| - 1 ==>
      traj[j + 1] == PassOf(ph, tr, wMax, j, traj[j])
  }

  /** Appending the next pass keeps the list a run of the loop. */
  lemma FollowsExtend(ph: Physics, tr: Transcendentals, wMax: real, s0: WkState, traj: seq<WkState>, r: WkState)
    requires Follows(ph, tr, wMax, s0, traj) && r == PassOf(ph, tr, wMax, |traj| - 1, traj[|traj| - 1])
    ensures Follows(ph, tr, wMax, s0, traj + [r])
  {
    var t := traj + [r];
    assert forall j :: 0 <= j < |traj| ==> t[j] == traj[j];
    assert forall j {:trigger PassOf(ph, tr, wMax, j, t[j])} :: 0 <= j < |t| - 1 ==> t[j + 1] == PassOf(ph, tr, wMax, j, t[j]) by {
      forall j | 0 <= j < |t| - 1 ensures t[j + 1] == PassOf(ph, tr, wMax, j, t[j]) {
        if j < |traj| - 1 {
          assert PassOf(ph, tr, wMax, j, traj[j]) == traj[j + 1];
        }
      }
    }
  }

  /** Every state along such a list is the state after that many passes. */
  lemma {:induction false} FollowsEvolves(ph: Physics, tr: Transcendentals, wMax: real, s0: WkState, traj: seq<WkState>, j: nat)
    requires Follows(ph, tr, wMax, s0, traj) && j < |traj|
    ensures traj[j] == Evolve(ph, tr, wMax, s0, j)
  {
    if j > 0 {
      FollowsEvolves(ph, tr, wMax, s0, traj, j - 1);
      assert traj[j] == PassOf(ph, tr, wMax, j - 1, traj[j - 1]);
    }
  }

  /** After every pass the inlet node carries the prescribed pressure of that pass. */
  lemma EvolveInletPressure(ph: Physics, tr: Transcendentals, wMax: real, s: WkState, k: nat)
    requires ph.Valid() && wMax != 0.0 && s.Valid(|s.a|) && k >= 1
    ensures Evolve(ph, tr, wMax, s, k).a[0] == InletArea(ph, InletPressure(tr, wMax, Clock(k - 1, ph.dt)))
  {
    PassInletPressure(ph, tr, wMax, k - 1, Evolve(ph, tr, wMax, s, k - 1));
  }

  /** Pass `n` leaves the inlet pressure of time `n dt` at the inlet node. */
  lemma PassInletPressure(ph: Physics, tr: Transcendentals, wMax: real, n: nat, s: WkState)
    requires ph.Valid() && wMax != 0.0 && s.Valid(|s.a|)
    ensures PassOf(ph, tr, wMax, n, s).a[0] == InletArea(ph, InletPressure(tr, wMax, Clock(n, ph.dt)))
  {
    AdvanceBoundaries(ph, n, InletPressure(tr, wMax, Clock(n, ph.dt)), s);
  }

  /** `A_new = A_tilde.copy()`, `Q_new = Q_tilde.copy()` and the loop over `i in range(1, Nx-1)`. */
  method LaxWendroffInterior(ph: Physics, a: array<real>, q: array<real>) returns (aNew: array<real>, qNew: array<real>)
    requires ph.Valid() && a.Length >= 2 && q.Length == a.Length
    ensures fresh(aNew) && fresh(qNew) && aNew != qNew
    ensures (aNew[..], qNew[..]) == LwInterior(ph, a[..], q[..])
  {
    ghost var oldA, oldQ := a[..], q[..];
    var nx := a.Length;
    aNew := CopyOf(a);
    qNew := CopyOf(q);
    for i := 1 to nx - 1
      invariant forall j :: 0 <= j < i ==> aNew[j] == LwAreaAt(ph, oldA, oldQ, j) && qNew[j] == LwFlowAt(ph, oldA, oldQ, j)
      invariant forall j :: i <= j < nx ==> aNew[j] == oldA[j] && qNew[j] == oldQ[j]
    {
      aNew[i] := LwArea(ph, a[i - 1], a[i], a[i + 1], q[i - 1], q[i + 1]);
      qNew[i] := LwFlow(ph, a[i - 1], a[i + 1], q[i - 1], q[i], q[i + 1]);
    }
    assert aNew[..] == LwInterior(ph, oldA, oldQ).0;
    assert qNew[..] == LwInterior(ph, oldA, oldQ).1;
  }

  /** The total pressure `P_ref + alpha A~` at a node with area perturbation `aTilde`. */
  function Pressure(ph: Physics, aTilde: real): real
  {
    ph.pRef + ph.alpha * aTilde
  }

  /** `A_tilde[0] = (P_in - P_ref) / alpha` and `A_tilde[-1] = A_out_state`, in place. */
  method PatchEnds(ph: Physics, a: array<real>, pIn: real, aOut: real)
    requires ph.Valid() && a.Length >= 2
    modifies a
    ensures a[..] == old(a[..])[0 := InletArea(ph, pIn)][a.Length - 1 := aOut]
  {
    a[0] := (pIn - ph.pRef) / ph.alpha;
    a[a.Length - 1] := aOut;
  }

  /** The one-sided boundary flows `Q_new[0]` and `Q_new[-1]`, from the patched area and the old flow. */
  method BoundaryFlows(ph: Physics, a: array<real>, q: array<real>, qNew: array<real>)
    requires ph.Valid() && a.Length >= 2 && q.Length == a.Length && qNew.Length == a.Length
    requires qNew != a && qNew != q
    modifies qNew
    ensures qNew[..] == old(qNew[..])[0 := BoundaryFlow(ph, a[0], a[1], q[0])]
      [a.Length - 1 := BoundaryFlow(ph, a[a.Length - 2], a[a.Length - 1], q[a.Length - 1])]
  {
    var nx := a.Length;
    var aZIn := (a[1] - a[0]) / ph.dz;
    qNew[0] := q[0] + ph.dt * (-(ph.c0 * ph.c0) * aZIn - ph.delta * q[0]);
    var aZOut := (a[nx - 1] - a[nx - 2]) / ph.dz;
    qNew[nx - 1] := q[nx - 1] + ph.dt * (-(ph.c0 * ph.c0) * aZOut - ph.delta * q[nx - 1]);
    assert qNew[0] == BoundaryFlow(ph, a[0], a[1], q[0]);
    assert qNew[nx - 1] == BoundaryFlow(ph, a[nx - 2], a[nx - 1], q[nx - 1]);
  }

  /** `Q_out_hist[2] = Q_out_hist[1]; Q_out_hist[1] = Q_out_hist[0]; Q_out_hist[0] = v`. */
  method ShiftIn(hist: array<real>, v: real)
    requires hist.Length == 3
    modifies hist
    ensures hist[..] == [v, old(hist[0]), old(hist[1])]
  {
    hist[2] := hist[1];
    hist[1] := hist[0];
    hist[0] := v;
  }

  /** The finite-difference flow derivatives and the Euler step of the Windkessel state. */
  method OutletUpdate(ph: Physics, n: nat, aOut: real, hist: array<real>, qOut: real) returns (aOutNew: real)
    requires ph.Valid() && hist.Length == 3
    ensures aOutNew == WindkesselEuler(ph, aOut, FlowDerivatives(ph, n, hist[..]), qOut)
  {
    ghost var h := hist[..];
    assert h == [hist[0], hist[1], hist[2]];
    var dQdt, d2Qdt2 := 0.0, 0.0;
    if n >= 2 {
      dQdt := (hist[0] - hist[1]) / ph.dt;
      d2Qdt2 := (hist[0] - 2.0 * hist[1] + hist[2]) / ph.dt / ph.dt;
    }
    assert (dQdt, d2Qdt2) == FlowDerivatives(ph, n, h);
    var rhs := ph.c2 * d2Qdt2 + ph.c1 * dQdt + ph.c0 * qOut;
    var dAdt := -ph.lambdaA * aOut + rhs;
    aOutNew := aOut + ph.dt * dAdt;
  }

  /** The first part of a pass on the arrays: patch the ends of `A~` in place, copy and update the
      interior, set the boundary flows. */
  method InteriorArrays(ph: Physics, pIn: real, a: array<real>, q: array<real>, aOut: real)
    returns (aNew: array<real>, qNew: array<real>)
    requires ph.Valid() && a.Length >= 2 && q.Length == a.Length && a != q
    modifies a
    ensures fresh(aNew) && fresh(qNew) && aNew != qNew
    ensures a[..] == old(a[..])[0 := InletArea(ph, pIn)][a.Length - 1 := aOut]
    ensures aNew[..] == LwInterior(ph, a[..], q[..]).0
    ensures qNew[..] == LwInterior(ph, a[..], q[..]).1[0 := BoundaryFlow(ph, a[0], a[1], q[0])]
      [a.Length - 1 := BoundaryFlow(ph, a[a.Length - 2], a[a.Length - 1], q[a.Length - 1])]
  {
    PatchEnds(ph, a, pIn, aOut);
    aNew, qNew := LaxWendroffInterior(ph, a, q);
    BoundaryFlows(ph, a, q, qNew);
  }

  /** The body of one pass of the time loop on the arrays: patch the ends of `A~` in place, copy and
      update the interior, set the boundary flows, shift the outlet flow into the register in place
      and take the Euler step of the Windkessel state, which becomes the new outlet area. */
  method AdvanceArrays(ph: Physics, n: nat, pIn: real, a: array<real>, q: array<real>, aOut: real, hist: array<real>)
    returns (aNew: array<real>, qNew: array<real>, aOutNew: real)
    requires ph.Valid() && a.Length >= 2 && q.Length == a.Length && hist.Length == 3
    requires a != q && a != hist && q != hist
    modifies a, hist
    ensures fresh(aNew) && fresh(qNew) && aNew != qNew
    ensures WkState(aNew[..], qNew[..], aOutNew, hist[..])
      == Advance(ph, n, pIn, WkState(old(a[..]), q[..], aOut, old(hist[..])))
  {
    ghost var s := WkState(a[..], q[..], aOut, hist[..]);
    var nx := a.Length;
    aNew, qNew := InteriorArrays(ph, pIn, a, q, aOut);
    ghost var lw := LwInterior(ph, a[..], s.q);
    assert a[..] == PatchedArea(ph, s, pIn);
    var qOut := qNew[nx - 1];
    ShiftIn(hist, qOut);
    aOutNew := OutletUpdate(ph, n, aOut, hist, qOut);
    aNew[nx - 1] := aOutNew;
    assert aNew[..] == lw.0[nx - 1 := aOutNew];
  }

  /** The readings at the monitored nodes of state `r`, recorded at position `i` of the histories. */
  ghost predicate ReadingsAt(ph: Physics, monitors: seq<nat>, r: WkState, i: nat,
                             aHist: seq<seq<real>>, qHist: seq<seq<real>>, pHist: seq<seq<real>>)
  {
    |monitors| == 3 && |aHist| == 3 && |qHist| == 3 && |pHist| == 3 &&
    forall m :: 0 <= m < 3 ==>
      monitors[m] < |r.a| && monitors[m] < |r.q| &&
      i < |aHist[m]| && i < |qHist[m]| && i < |pHist[m]| &&
      aHist[m][i] == ph.aRef + r.a[monitors[m]] &&
      qHist[m][i] == r.q[monitors[m]] &&
      pHist[m][i] == Pressure(ph, r.a[monitors[m]])
  }

  /** From position `start` on, the histories hold `count` recordings of the run from `s0`: the one at
      position `start + k` at time `(k + 1) dt`, read from the state after `k + 1` passes. */
  ghost predicate Recorded(ph: Physics, tr: Transcendentals, wMax: real, monitors: seq<nat>, s0: WkState,
                           start: nat, count: nat,
                           tHist: seq<real>, aHist: seq<seq<real>>, qHist: seq<seq<real>>, pHist: seq<seq<real>>)
  {
    ph.Valid() && wMax != 0.0 && s0.Valid(|s0.a|) && |tHist| == start + count &&
    forall i :: start <= i < start + count ==>
      tHist[i] == Clock(i - start, ph.dt) + ph.dt &&
      ReadingsAt(ph, monitors, Evolve(ph, tr, wMax, s0, i - start + 1), i, aHist, qHist, pHist)
  }

  /** The same record, with the states taken from a list `traj` of the states passed through. */
  ghost predicate RecordedAlong(ph: Physics, monitors: seq<nat>, traj: seq<WkState>, start: nat, count: nat,
                                tHist: seq<real>, aHist: seq<seq<real>>, qHist: seq<seq<real>>, pHist: seq<seq<real>>)
  {
    |tHist| == start + count && count < |traj| &&
    forall i :: start <= i < start + count ==>
      tHist[i] == Clock(i - start, ph.dt) + ph.dt &&
      ReadingsAt(ph, monitors, traj[i - start + 1], i, aHist, qHist, pHist)
  }

  /** Each series of `h'` extends the matching series of `h`. */
  ghost predicate Grown(h: seq<seq<real>>, h': seq<seq<real>>)
  {
    |h| == |h'| && forall m :: 0 <= m < |h| ==> h[m] <= h'[m]
  }

  /** One more pass that appends its time and its readings extends the record by one. */
  lemma RecordedAlongExtend(ph: Physics, monitors: seq<nat>, traj: seq<WkState>, r: WkState, start: nat, count: nat,
                            tHist: seq<real>, aHist: seq<seq<real>>, qHist: seq<seq<real>>, pHist: seq<seq<real>>,
                            tHist': seq<real>, aHist': seq<seq<real>>, qHist': seq<seq<real>>, pHist': seq<seq<real>>)
    requires RecordedAlong(ph, monitors, traj, start, count, tHist, aHist, qHist, pHist) && |traj| == count + 1
    requires tHist' == tHist + [Clock(count, ph.dt) + ph.dt]
    requires |aHist| == 3 && |qHist| == 3 && |pHist| == 3 && |aHist'| == 3 && |qHist'| == 3 && |pHist'| == 3
    requires Grown(aHist, aHist') && Grown(qHist, qHist') && Grown(pHist, pHist')
    requires ReadingsAt(ph, monitors, r, start + count, aHist', qHist', pHist')
    ensures RecordedAlong(ph, monitors, traj + [r], start, count + 1, tHist', aHist', qHist', pHist')
  {
    var traj' := traj + [r];
    forall i | start <= i < start + count
      ensures tHist'[i] == Clock(i - start, ph.dt) + ph.dt
      ensures ReadingsAt(ph, monitors, traj'[i - start + 1], i, aHist', qHist', pHist')
    {
      assert tHist[i] == Clock(i - start, ph.dt) + ph.dt;
      assert traj'[i - start + 1] == traj[i - start + 1];
      assert ReadingsAt(ph, monitors, traj[i - start + 1], i, aHist, qHist, pHist);
      forall m | 0 <= m < 3
        ensures i < |aHist'[m]| && i < |qHist'[m]| && i < |pHist'[m]|
        ensures aHist'[m][i] == aHist[m][i] && qHist'[m][i] == qHist[m][i] && pHist'[m][i] == pHist[m][i]
      {
        assert aHist[m] <= aHist'[m] && qHist[m] <= qHist'[m] && pHist[m] <= pHist'[m];
      }
    }
    assert tHist'[start + count] == Clock(count, ph.dt) + ph.dt;
  }

  /** A record along the states the loop passed through is the record of the run. */
  lemma RecordedAlongEvolves(ph: Physics, tr: Transcendentals, wMax: real, monitors: seq<nat>, s0: WkState,
                             traj: seq<WkState>, start: nat, count: nat,
                             tHist: seq<real>, aHist: seq<seq<real>>, qHist: seq<seq<real>>, pHist: seq<seq<real>>)
    requires Follows(ph, tr, wMax, s0, traj)
    requires RecordedAlong(ph, monitors, traj, start, count, tHist, aHist, qHist, pHist)
    ensures Recorded(ph, tr, wMax, monitors, s0, start, count, tHist, aHist, qHist, pHist)
  {
    assert ph.Valid() && wMax != 0.0;
    assert s0.Valid(|s0.a|);
    assert |tHist| == start + count;
    forall i | start <= i < start + count
      ensures tHist[i] == Clock(i - start, ph.dt) + ph.dt
      ensures ReadingsAt(ph, monitors, Evolve(ph, tr, wMax, s0, i - start + 1), i, aHist, qHist, pHist)
    {
      assert tHist[i] == Clock(i - start, ph.dt) + ph.dt;
      FollowsEvolves(ph, tr, wMax, s0, traj, i - start + 1);
    }
  }

  /** The script's run: the perturbation arrays, the Windkessel state, the outlet-flow register and the
      histories at the three monitored nodes (inlet, middle, outlet). */
  class WindkesselRun {
    const ph: Physics
    const tr: Transcendentals
    const wMax: real
    const nx: nat
    const monitors: seq<nat>
    var aTilde: array<real>
    var qTilde: array<real>
    var aOutState: real
    var qOutHist: array<real>
    var tHist: seq<real>
    var aHist: seq<seq<real>>
    var qHist: seq<seq<real>>
    var pHist: seq<seq<real>>

    /** The shapes the loop keeps: `Nx >= 2` nodes, a three-slot register, three monitored nodes and
        three series per quantity, each as long as the time history. */
    predicate Valid()
      reads this
    {
      ph.Valid() && wMax != 0.0 && nx >= 2 &&
      aTilde.Length == nx && qTilde.Length == nx && qOutHist.Length == 3 &&
      aTilde != qTilde && aTilde != qOutHist && qTilde != qOutHist &&
      |monitors| == 3 && (forall k :: 0 <= k < 3 ==> monitors[k] < nx) &&
      |aHist| == 3 && |qHist| == 3 && |pHist| == 3 &&
      forall k :: 0 <= k < 3 ==> |aHist[k]| == |tHist| && |qHist[k]| == |tHist| && |pHist[k]| == |tHist|
    }

    /** The solver state the next pass starts from. */
    function State(): (s: WkState)
      reads this, aTilde, qTilde, qOutHist
      requires Valid()
      ensures s.Valid(nx)
    {
      WkState(aTilde[..], qTilde[..], aOutState, qOutHist[..])
    }

    /** Zero perturbations, zero Windkessel state and register, empty histories. */
    constructor (ph: Physics, tr: Transcendentals, wMax: real, nx: nat, monitors: seq<nat>)
      requires ph.Valid() && wMax != 0.0 && nx >= 2
      requires |monitors| == 3 && forall k :: 0 <= k < 3 ==> monitors[k] < nx
      ensures Valid() && fresh(aTilde) && fresh(qTilde) && fresh(qOutHist)
      ensures this.ph == ph && this.tr == tr && this.wMax == wMax && this.nx == nx && this.monitors == monitors
      ensures State() == WkState(seq(nx, i => 0.0), seq(nx, i => 0.0), 0.0, [0.0, 0.0, 0.0])
      ensures tHist == [] && aHist == [[], [], []] && qHist == [[], [], []] && pHist == [[], [], []]
    {
      this.ph, this.tr, this.wMax, this.nx, this.monitors := ph, tr, wMax, nx, monitors;
      aTilde := new real[nx](i => 0.0);
      qTilde := new real[nx](i => 0.0);
      aOutState := 0.0;
      qOutHist := new real[3](i => 0.0);
      tHist, aHist, qHist, pHist := [], [[], [], []], [[], [], []], [[], [], []];
      new;
      assert qOutHist[..] == [0.0, 0.0, 0.0];
    }

    /** Pass `n` of `for n in range(Nt)`: boundaries, interior, boundary flows, Windkessel update, then
        the state swap and the recording at `t + dt`. */
    method Step(n: nat)
      requires Valid()
      modifies this, aTilde, qOutHist
      ensures Valid() && fresh(aTilde) && fresh(qTilde) && qOutHist == old(qOutHist)
      ensures State() == PassOf(ph, tr, wMax, n, old(State()))
      ensures tHist == old(tHist) + [Clock(n, ph.dt) + ph.dt]
      ensures forall k :: 0 <= k < 3 ==>
        aHist[k] == old(aHist[k]) + [ph.aRef + aTilde[monitors[k]]] &&
        qHist[k] == old(qHist[k]) + [qTilde[monitors[k]]] &&
        pHist[k] == old(pHist[k]) + [Pressure(ph, aTilde[monitors[k]])]
      ensures ReadingsAt(ph, monitors, State(), |old(tHist)|, aHist, qHist, pHist)
    {
      var t := Clock(n, ph.dt);
      Pass(n, InletPressure(tr, wMax, t));
      ghost var advanced := State();
      Record(t + ph.dt);
      assert State() == advanced;
    }

    /** The numerical part of a pass with inlet pressure `pIn`; the histories are left alone. */
    method Pass(n: nat, pIn: real)
      requires Valid()
      modifies this, aTilde, qOutHist
      ensures Valid() && fresh(aTilde) && fresh(qTilde) && qOutHist == old(qOutHist)
      ensures State() == Advance(ph, n, pIn, old(State()))
      ensures tHist == old(tHist) && aHist == old(aHist) && qHist == old(qHist) && pHist == old(pHist)
    {
      var aNew, qNew, aOutNew := AdvanceArrays(ph, n, pIn, aTilde, qTilde, aOutState, qOutHist);
      aTilde, qTilde, aOutState := aNew, qNew, aOutNew;
    }

    /** Append the time `t` and the readings at the three monitored nodes: `A_ref + A~`, `Q~` and the
        pressure `P_ref + alpha A~`. */
    method Record(t: real)
      requires Valid()
      modifies this
      ensures Valid() && aTilde == old(aTilde) && qTilde == old(qTilde) && qOutHist == old(qOutHist)
      ensures aOutState == old(aOutState)
      ensures tHist == old(tHist) + [t]
      ensures forall k :: 0 <= k < 3 ==>
        aHist[k] == old(aHist[k]) + [ph.aRef + aTilde[monitors[k]]] &&
        qHist[k] == old(qHist[k]) + [qTilde[monitors[k]]] &&
        pHist[k] == old(pHist[k]) + [Pressure(ph, aTilde[monitors[k]])]
      ensures ReadingsAt(ph, monitors, State(), |old(tHist)|, aHist, qHist, pHist)
    {
      var aRows, qRows, pRows := aHist, qHist, pHist;
      for k := 0 to 3
        invariant |aRows| == 3 && |qRows| == 3 && |pRows| == 3
        invariant forall j :: 0 <= j < k ==>
          aRows[j] == aHist[j] + [ph.aRef + aTilde[monitors[j]]] &&
          qRows[j] == qHist[j] + [qTilde[monitors[j]]] &&
          pRows[j] == pHist[j] + [Pressure(ph, aTilde[monitors[j]])]
        invariant forall j :: k <= j < 3 ==> aRows[j] == aHist[j] && qRows[j] == qHist[j] && pRows[j] == pHist[j]
      {
        var idx := monitors[k];
        aRows := aRows[k := aRows[k] + [ph.aRef + aTilde[idx]]];
        qRows := qRows[k := qRows[k] + [qTilde[idx]]];
        pRows := pRows[k := pRows[k] + [Pressure(ph, aTilde[idx])]];
      }
      tHist, aHist, qHist, pHist := tHist + [t], aRows, qRows, pRows;
    }
  
    /** The histories from index `start` on hold `count` recordings of the run from `s0`. */
    ghost predicate RecordedFrom(start: nat, s0: WkState, count: nat)
      reads this
    {
      Recorded(ph, tr, wMax, monitors, s0, start, count, tHist, aHist, qHist, pHist)
    }

    /** Pass `n` with its recording, extending the list `traj` of the states the loop passed through
        and the record along it by one. */
    method StepAlong(n: nat, ghost s0: WkState, ghost start: nat, ghost traj: seq<WkState>)
        returns (ghost traj': seq<WkState>)
      requires Valid() && |traj| == n + 1 && Follows(ph, tr, wMax, s0, traj) && traj[n] == State()
      requires RecordedAlong(ph, monitors, traj, start, n, tHist, aHist, qHist, pHist)
      modifies this, aTilde, qOutHist
      ensures Valid() && fresh(aTilde) && qOutHist == old(qOutHist)
      ensures |traj'| == n + 2 && Follows(ph, tr, wMax, s0, traj') && traj'[n + 1] == State()
      ensures RecordedAlong(ph, monitors, traj', start, n + 1, tHist, aHist, qHist, pHist)
      ensures old(tHist) <= tHist && Grown(old(aHist), aHist) && Grown(old(qHist), qHist) && Grown(old(pHist), pHist)
    {
      Step(n);
      RecordedAlongExtend(ph, monitors, traj, State(), start, n, old(tHist), old(aHist), old(qHist), old(pHist),
                          tHist, aHist, qHist, pHist);
      FollowsExtend(ph, tr, wMax, s0, traj, State());
      traj' := traj + [State()];
    }

    /** `for n in range(Nt)`: the script's single time loop, `Nt` passes numbered from 0, from a run
        that has recorded nothing yet. */
    method Run(nt: nat)
      requires Valid() && tHist == []
      modifies this, aTilde, qOutHist
      ensures Valid() && qOutHist == old(qOutHist)
      ensures State() == Evolve(ph, tr, wMax, old(State()), nt)
      ensures RecordedFrom(|old(tHist)|, old(State()), nt)
      ensures tHist[..|old(tHist)|] == old(tHist)
      ensures Grown(old(aHist), aHist) && Grown(old(qHist), qHist) && Grown(old(pHist), pHist)
    {
      ghost var s0 := State();
      ghost var start := |tHist|;
      ghost var traj := [s0];
      for n := 0 to nt
        invariant Valid() && qOutHist == old(qOutHist)
        invariant aTilde == old(aTilde) || fresh(aTilde)
        invariant |traj| == n + 1 && Follows(ph, tr, wMax, s0, traj) && traj[n] == State()
        invariant RecordedAlong(ph, monitors, traj, start, n, tHist, aHist, qHist, pHist)
        invariant old(tHist) <= tHist
        invariant Grown(old(aHist), aHist) && Grown(old(qHist), qHist) && Grown(old(pHist), pHist)
      {
        traj := StepAlong(n, s0, start, traj);
      }
      FollowsEvolves(ph, tr, wMax, s0, traj, nt);
      RecordedAlongEvolves(ph, tr, wMax, monitors, s0, traj, start, nt, tHist, aHist, qHist, pHist);
    }
  }
}
