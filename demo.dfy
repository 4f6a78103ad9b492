/** The closed-form demonstration field of `backend/app/simulation/healthy.py`: a damped travelling
    sine over a 0.15 m artery and one second, in mmHg, with one parameter set per mode and negative
    values clipped to zero. */
module DemoPressureField {
  import opened Numerics
  import opened Grid

  const ArteryLength: real := 0.15
  const Duration: real := 1.0
  const Baseline: real := 80.0

  /** The `(amp, decay, phase, offset)` of one mode. */
  datatype Mode = Mode(amp: real, decay: real, phase: real, offset: real)

  /** The three field grids and the pressure `P[j][i]` at time `t[j]` and position `z[i]`. */
  datatype Demo = Demo(z: seq<real>, t: seq<real>, p: seq<seq<real>>)

  predicate KnownKind(kind: string)
  {
    kind == "t" || kind == "z" || kind == "wk"
  }

  /** The `if kind == ... elif ... else raise ValueError` dispatch. Every known mode decays along the
      artery and swings by less than the baseline. */
  function ModeOf(tr: Transcendentals, kind: string): (r: Result<Mode>)
    ensures r.Ok? <==> KnownKind(kind)
    ensures r.Err? ==> r.error == ValueError("Unknown simulation kind: " + kind)
    ensures r.Ok? ==> 0.0 < r.value.amp < Baseline && r.value.decay > 0.0
    ensures kind == "t" ==> r == Ok(Mode(40.0, 3.0, 6.0, 0.0))
    ensures kind == "z" ==> r == Ok(Mode(35.0, 1.5, 10.0, tr.pi / 6.0))
    ensures kind == "wk" ==> r == Ok(Mode(25.0, 0.8, 8.0, tr.pi / 3.0))
  {
    if kind == "t" then Ok(Mode(40.0, 3.0, 6.0, 0.0))
    else if kind == "z" then Ok(Mode(35.0, 1.5, 10.0, tr.pi / 6.0))
    else if kind == "wk" then Ok(Mode(25.0, 0.8, 8.0, tr.pi / 3.0))
    else Err(ValueError("Unknown simulation kind: " + kind))
  }

  /** The exponent `-decay * Z / L` of the envelope. */
  function Envelope(m: Mode, z: real): real
  {
    -m.decay * z / ArteryLength
  }

  /** The phase `2 pi Tm / T - phase * Z / L + offset` of the wave. */
  function WavePhase(tr: Transcendentals, m: Mode, z: real, t: real): real
  {
    2.0 * tr.pi * t / Duration - m.phase * z / ArteryLength + m.offset
  }

  /** `P0 + amp * exp(-decay * Z / L) * sin(2 pi Tm / T - phase * Z / L + offset)` before the clip. */
  function RawPressure(tr: Transcendentals, m: Mode, z: real, t: real): (p: real)
    ensures m.amp >= 0.0 && 0.0 < tr.exp(Envelope(m, z)) <= 1.0 && -1.0 <= tr.sin(WavePhase(tr, m, z, t)) <= 1.0 ==>
              Baseline - m.amp <= p <= Baseline + m.amp
  {
    var e := tr.exp(Envelope(m, z));
    var s := tr.sin(WavePhase(tr, m, z, t));
    if m.amp >= 0.0 && 0.0 < e <= 1.0 && -1.0 <= s <= 1.0 then
      DampedSwingBound(m.amp, e, s);
      DampedSwingBound(m.amp, e, -s);
      Baseline + m.amp * e * s
    else
      Baseline + m.amp * e * s
  }

  /** `np.clip(P, 0, None)` of the field over the `np.meshgrid(z, t)` grid, one row per time. */
  function Field(tr: Transcendentals, m: Mode, z: seq<real>, t: seq<real>): (p: seq<seq<real>>)
    ensures |p| == |t| && forall j :: 0 <= j < |t| ==> |p[j]| == |z|
    ensures forall j, i :: 0 <= j < |t| && 0 <= i < |z| ==> p[j][i] >= 0.0
    ensures forall j, i :: 0 <= j < |t| && 0 <= i < |z| && RawPressure(tr, m, z[i], t[j]) >= 0.0 ==>
              p[j][i] == RawPressure(tr, m, z[i], t[j])
    ensures forall j, i :: 0 <= j < |t| && 0 <= i < |z| && RawPressure(tr, m, z[i], t[j]) < 0.0 ==>
              p[j][i] == 0.0
  {
    seq(|t|, j requires 0 <= j < |t| =>
      seq(|z|, i requires 0 <= i < |z| => ClipBelowZero(RawPressure(tr, m, z[i], t[j]))))
  }

  /** `_base_simulation(num_t, num_z, kind)`: an unknown kind fails with the `ValueError` and no grids
      are returned; otherwise the grids are `linspace(0, L, num_z)` and `linspace(0, T, num_t)` and `P` has shape
      `(num_t, num_z)`, never negative, with `P[j][i]` a function of `t[j]` and `z[i]` alone. */
  function BaseSimulation(tr: Transcendentals, numT: nat, numZ: nat, kind: string): (r: Result<Demo>)
    ensures r.Ok? <==> KnownKind(kind)
    ensures r.Err? ==> r.error == ValueError("Unknown simulation kind: " + kind)
    ensures r.Ok? ==> r.value.z == Linspace(0.0, ArteryLength, numZ) && r.value.t == Linspace(0.0, Duration, numT)
    ensures r.Ok? ==> |r.value.p| == numT && forall j :: 0 <= j < numT ==> |r.value.p[j]| == numZ
    ensures r.Ok? ==> forall j, i :: 0 <= j < numT && 0 <= i < numZ ==> r.value.p[j][i] >= 0.0
    ensures r.Ok? ==> forall j, j', i, i' ::
              (0 <= j < numT && 0 <= j' < numT && 0 <= i < numZ && 0 <= i' < numZ &&
               r.value.t[j] == r.value.t[j'] && r.value.z[i] == r.value.z[i'])
              ==> r.value.p[j][i] == r.value.p[j'][i']
  {
    var m := ModeOf(tr, kind);
    if m.Err? then Err(m.error)
    else
      var z := Linspace(0.0, ArteryLength, numZ);
      var t := Linspace(0.0, Duration, numT);
      Ok(Demo(z, t, Field(tr, m.value, z, t)))
  }

  /** `simulate_t()`, `simulate_z()` and `simulate_wk()`: the default 240 by 160 grid. */
  function SimulateT(tr: Transcendentals): (r: Result<Demo>)
    ensures r.Ok? && |r.value.t| == 240 && |r.value.z| == 160 && |r.value.p| == 240
  {
    BaseSimulation(tr, 240, 160, "t")
  }

  function SimulateZ(tr: Transcendentals): (r: Result<Demo>)
    ensures r.Ok? && |r.value.t| == 240 && |r.value.z| == 160 && |r.value.p| == 240
  {
    BaseSimulation(tr, 240, 160, "z")
  }

  function SimulateWk(tr: Transcendentals): (r: Result<Demo>)
    ensures r.Ok? && |r.value.t| == 240 && |r.value.z| == 160 && |r.value.p| == 240
  {
    BaseSimulation(tr, 240, 160, "wk")
  }

  /** `a * e * s` never falls below `-a` for a non-negative `a`, `e` in `[0, 1]` and `s` in `[-1, 1]`. */
  lemma DampedSwingBound(a: real, e: real, s: real)
    requires a >= 0.0 && 0.0 <= e <= 1.0 && -1.0 <= s <= 1.0
    ensures a * e * s + a >= 0.0
  {
    var ae := a * e;
    MulNonneg(a, e);
    MulNonneg(1.0 - e, a);
    assert (1.0 - e) * a == a - e * a;
    MulNonneg(s + 1.0, ae);
    assert (s + 1.0) * ae == s * ae + ae;
    assert (a * e) * s == s * ae;
  }

  /** With `sin` in `[-1, 1]` and `exp` of a non-positive argument in `(0, 1]`, a decaying mode keeps
      the raw field within `amp` of `P0` at every point of the artery. */
  lemma RawWithinSwing(tr: Transcendentals, m: Mode, z: real, t: real)
    requires forall x :: -1.0 <= tr.sin(x) <= 1.0
    requires forall x :: x <= 0.0 ==> 0.0 < tr.exp(x) <= 1.0
    requires m.amp >= 0.0 && m.decay >= 0.0 && z >= 0.0
    ensures Baseline - m.amp <= RawPressure(tr, m, z, t) <= Baseline + m.amp
  {
    assert Envelope(m, z) <= 0.0 by { MulNonneg(m.decay, z); }
    assert 0.0 < tr.exp(Envelope(m, z)) <= 1.0;
    assert -1.0 <= tr.sin(WavePhase(tr, m, z, t)) <= 1.0;
  }

  /** Under the same bounds on `sin` and `exp`, every known mode keeps the raw field at or above
      `P0 - amp > 0` on the artery, so the clip never changes a value. */
  lemma {:induction false} ClipInactive(tr: Transcendentals, numT: nat, numZ: nat, kind: string, j: nat, i: nat)
    requires forall x :: -1.0 <= tr.sin(x) <= 1.0
    requires forall x :: x <= 0.0 ==> 0.0 < tr.exp(x) <= 1.0
    requires KnownKind(kind) && j < numT && i < numZ
    ensures BaseSimulation(tr, numT, numZ, kind).Ok?
    ensures var d := BaseSimulation(tr, numT, numZ, kind).value;
            var m := ModeOf(tr, kind).value;
            d.p[j][i] == RawPressure(tr, m, d.z[i], d.t[j]) && d.p[j][i] >= Baseline - m.amp
  {
    var m := ModeOf(tr, kind).value;
    var d := BaseSimulation(tr, numT, numZ, kind).value;
    LinspaceFromStart(0.0, ArteryLength, numZ, i);
    RawWithinSwing(tr, m, d.z[i], d.t[j]);
  }
}
