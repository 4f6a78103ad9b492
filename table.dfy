/** The simplified healthy-vessel pressure table of `backend/simulation.py`: row `n` of `P` holds
    the inlet pressure at `n * dt` in column 0 and, in every further column, the entry one row up
    and one column left damped by `0.98`. */
module DampedPressureTable {
  import opened Numerics
  import opened Grid

  const Length: real := 0.1
  const Nodes: nat := 100
  const Steps: nat := 200
  const Dt: real := 0.001
  const Damping: real := 0.98

  /** `t = n * dt`, the time of step `n`. */
  function StepTime(n: nat, dt: real): real
  {
    n as real * dt
  }

  /** `inlet_pressure(t) = 13300 + 2000 sin(2 pi 1.5 t)`. */
  function InletPressure(tr: Transcendentals, t: real): (p: real)
    ensures -1.0 <= tr.sin(2.0 * tr.pi * 1.5 * t) <= 1.0 ==> 11300.0 <= p <= 15300.0
  {
    13300.0 + 2000.0 * tr.sin(2.0 * tr.pi * 1.5 * t)
  }

  /** The entry `P[n, i]` the loop leaves behind, row by row: zero in row 0, the inlet pressure in
      column 0, and the damped up-left neighbour elsewhere. */
  function Entry(tr: Transcendentals, dt: real, n: nat, i: nat): (r: real)
    ensures i >= n ==> r == 0.0
  {
    if n == 0 then 0.0
    else if i == 0 then InletPressure(tr, StepTime(n, dt))
    else Damping * Entry(tr, dt, n - 1, i - 1)
  }

  /** `x * (y * z) == (x * y) * z`, with the factors named. */
  lemma Regroup(x: real, y: real, z: real)
    ensures x * (y * z) == (x * y) * z
  {
  }

  /** The damping front: `P[n, i]` is zero when the inlet has not reached column `i` by step `n`,
      and otherwise the inlet pressure of step `n - i`, damped once per column travelled. */
  lemma {:induction false} EntryClosedForm(tr: Transcendentals, dt: real, n: nat, i: nat)
    ensures i >= n ==> Entry(tr, dt, n, i) == 0.0
    ensures i < n ==> Entry(tr, dt, n, i) == Pow(Damping, i) * InletPressure(tr, StepTime(n - i, dt))
  {
    if n > 0 && i > 0 {
      EntryClosedForm(tr, dt, n - 1, i - 1);
      if i < n {
        assert (n - 1) - (i - 1) == n - i;
        Regroup(Damping, Pow(Damping, i - 1), InletPressure(tr, StepTime(n - i, dt)));
      }
    }
  }

  /** Row `n` of the table, written in place: `P[n, 0] = inlet_pressure(n * dt)`, then
      `P[n, 1:] = 0.98 * P[n - 1, :-1]`. */
  method FillRow(tr: Transcendentals, dt: real, P: array2<real>, n: nat)
    requires 0 < n < P.Length0 && P.Length1 >= 1
    requires forall r, i :: 0 <= r < n && 0 <= i < P.Length1 ==> P[r, i] == Entry(tr, dt, r, i)
    modifies P
    ensures forall r, i :: 0 <= r <= n && 0 <= i < P.Length1 ==> P[r, i] == Entry(tr, dt, r, i)
    ensures forall r, i :: n < r < P.Length0 && 0 <= i < P.Length1 ==> P[r, i] == old(P[r, i])
  {
    P[n, 0] := InletPressure(tr, StepTime(n, dt));
    for i := 1 to P.Length1
      invariant forall r, j :: 0 <= r < P.Length0 && r != n && 0 <= j < P.Length1 ==> P[r, j] == old(P[r, j])
      invariant forall j :: 0 <= j < i ==> P[n, j] == Entry(tr, dt, n, j)
    {
      P[n, i] := Damping * P[n - 1, i - 1];
    }
  }

  /** `P = np.zeros((Nt, Nz))` followed by `for n in range(1, Nt)`: every entry of the
      `nt` by `nz` table ends as `Entry`. */
  method PressureTable(tr: Transcendentals, dt: real, nt: nat, nz: nat) returns (P: array2<real>)
    requires nz >= 1
    ensures fresh(P) && P.Length0 == nt && P.Length1 == nz
    ensures forall n, i :: 0 <= n < nt && 0 <= i < nz ==> P[n, i] == Entry(tr, dt, n, i)
  {
    P := new real[nt, nz]((n, i) => 0.0);
    var n := 1;
    while n < nt
      invariant 1 <= n && (nt >= 1 ==> n <= nt)
      invariant forall r, i :: 0 <= r < n && r < nt && 0 <= i < nz ==> P[r, i] == Entry(tr, dt, r, i)
    {
      FillRow(tr, dt, P, n);
      n := n + 1;
    }
  }

  /** `time = np.arange(Nt) * dt`. */
  function TimeAxis(nt: nat, dt: real): (time: seq<real>)
    ensures |time| == nt
    ensures forall k :: 0 <= k < nt ==> time[k] == k as real * dt
  {
    seq(nt, k requires 0 <= k < nt => StepTime(k, dt))
  }

  /** `run_simulation()`: the node positions, the time axis and the table. Column 0 of every row
      after the first holds the inlet pressure at that row's time. */
  method RunSimulation(tr: Transcendentals) returns (z: seq<real>, time: seq<real>, P: array2<real>)
    ensures z == Linspace(0.0, Length, Nodes) && |z| == Nodes && z[0] == 0.0 && z[Nodes - 1] == Length
    ensures time == TimeAxis(Steps, Dt)
    ensures fresh(P) && P.Length0 == Steps && P.Length1 == Nodes
    ensures forall n, i :: 0 <= n < Steps && 0 <= i < Nodes ==> P[n, i] == Entry(tr, Dt, n, i)
    ensures forall n :: 1 <= n < Steps ==> P[n, 0] == InletPressure(tr, time[n])
  {
    z := Linspace(0.0, Length, Nodes);
    P := PressureTable(tr, Dt, Steps, Nodes);
    time := TimeAxis(Steps, Dt);
  }

  /** The time axis and the table agree: row `n` holds zero in every column the inlet has not
      reached, and the inlet pressure sampled at `time[n - i]` damped `i` times elsewhere. */
  lemma TableAlongTimeAxis(tr: Transcendentals, dt: real, nt: nat, n: nat, i: nat)
    requires n < nt
    ensures i >= n ==> Entry(tr, dt, n, i) == 0.0
    ensures i < n ==> Entry(tr, dt, n, i) == Pow(Damping, i) * InletPressure(tr, TimeAxis(nt, dt)[n - i])
  {
    EntryClosedForm(tr, dt, n, i);
  }
}
