/** The spatial grids and the time-step adjustment the solver scripts share. */
module Grid {
  import opened Numerics

  /** `np.linspace(start, stop, num)`: `num` evenly spaced points, both ends included. */
  function Linspace(start: real, stop: real, num: nat): (xs: seq<real>)
    ensures |xs| == num
    ensures num >= 1 ==> xs[0] == start
    ensures num >= 2 ==> xs[num - 1] == stop
  {
    if num == 1 then [start]
    else
      var step := (stop - start) / (num - 1) as real;
      var xs := seq(num, i requires 0 <= i < num => start + i as real * step);
      assert num >= 2 ==> xs[num - 1] == stop by {
        if num >= 2 { DivMul(stop - start, (num - 1) as real); }
      }
      xs
  }

  /** A grid over an interval of positive length is strictly increasing. */
  lemma LinspaceIncreasing(start: real, stop: real, num: nat, i: nat, j: nat)
    requires start < stop && i < j < num
    ensures Linspace(start, stop, num)[i] < Linspace(start, stop, num)[j]
  {
    var step := (stop - start) / (num - 1) as real;
    assert step > 0.0;
    MulPos((j - i) as real, step);
    Distrib(j as real, -(i as real), step);
  }

  /** Over an interval read from left to right no grid point lies left of the start. */
  lemma LinspaceFromStart(start: real, stop: real, num: nat, i: nat)
    requires start <= stop && i < num
    ensures start <= Linspace(start, stop, num)[i]
  {
    if num >= 2 {
      MulNonneg(i as real, (stop - start) / (num - 1) as real);
    }
  }

  /** Cell-centred coordinates `x[i] = (i + 0.5) * dx` of sim1.py. */
  function CellCentres(n: nat, dx: real): (xs: seq<real>)
    ensures |xs| == n
    ensures forall i :: 0 <= i < n ==> xs[i] == (i as real + 0.5) * dx
  {
    seq(n, i requires 0 <= i < n => (i as real + 0.5) * dx)
  }

  /** With a positive spacing the cell centres are strictly increasing, the first at `dx / 2`. */
  lemma CellCentresIncreasing(n: nat, dx: real, i: nat, j: nat)
    requires dx > 0.0 && i < j < n
    ensures 0.0 < CellCentres(n, dx)[i] < CellCentres(n, dx)[j]
  {
    MulPos((j - i) as real, dx);
    MulPos(i as real + 0.5, dx);
    Distrib(j as real + 0.5, -(i as real + 0.5), dx);
  }

  /** A step count together with the adjusted step size. */
  datatype TimeGrid = TimeGrid(steps: nat, dt: real)

  /** sim1.py: `dt0 = CFL*dx`, `Nt = int(tau_final/dt0)`, `dt = tau_final/Nt`. When the final time is
      shorter than `dt0` the count is 0 and the division raises. */
  function FlooredTimeGrid(finalTime: real, cfl: real, dx: real): (g: Result<TimeGrid>)
    requires finalTime > 0.0 && cfl > 0.0 && dx > 0.0
    ensures g.Err? <==> finalTime < cfl * dx
    ensures g.Err? ==> g.error == ZeroDivisionError
    ensures g.Ok? ==> g.value.steps >= 1 && g.value.steps as real * g.value.dt == finalTime
    ensures g.Ok? ==> g.value.dt >= cfl * dx
  {
    MulPos(cfl, dx);
    var nt := Trunc(finalTime / (cfl * dx));
    FlooredCount(finalTime, cfl * dx, nt);
    if nt == 0 then Err(ZeroDivisionError) else Ok(TimeGrid(nt, finalTime / nt as real))
  }

  lemma FlooredCount(finalTime: real, dt0: real, nt: int)
    requires finalTime > 0.0 && dt0 > 0.0 && nt == Trunc(finalTime / dt0)
    ensures nt == 0 <==> finalTime < dt0
    ensures nt >= 1 ==> dt0 <= finalTime / nt as real && nt as real * (finalTime / nt as real) == finalTime
  {
    var y := finalTime / dt0;
    DivMul(finalTime, dt0);
    if nt == 0 {
      MulMonoLt(y, 1.0, dt0);
    } else {
      MulMonoLe(1.0, y, dt0);
      calc {
        dt0;
      ==
        1.0 * dt0;
      <=
        y * dt0;
      ==
        finalTime;
      }
      MulMonoLe(nt as real, y, dt0);
      DivBoundLe(dt0, finalTime, nt as real);
      DivMul(finalTime, nt as real);
    }
  }

  /** TestC1.py and test1_z.py: `dt0 = CFL*dz/c`, `Nt = int(Tfinal/dt0) + 1`, `dt = Tfinal/Nt`; the
      count is never 0, and the adjusted step is strictly below `dt0`. */
  function CeilTimeGrid(finalTime: real, cfl: real, dz: real, c: real): (g: TimeGrid)
    requires finalTime >= 0.0 && cfl > 0.0 && dz > 0.0 && c > 0.0
    ensures g.steps >= 1 && g.steps as real * g.dt == finalTime
    ensures 0.0 <= g.dt < cfl * dz / c
  {
    MulPos(cfl, dz);
    var nt := Trunc(finalTime / (cfl * dz / c)) + 1;
    CeilCount(finalTime, cfl * dz / c, nt);
    TimeGrid(nt, finalTime / nt as real)
  }

  /** Running the adjusted grid's `steps` steps of size `dt` ends exactly at the final time. */
  lemma CeilGridReachesFinal(finalTime: real, cfl: real, dz: real, c: real)
    requires finalTime >= 0.0 && cfl > 0.0 && dz > 0.0 && c > 0.0
    ensures var g := CeilTimeGrid(finalTime, cfl, dz, c); Clock(g.steps, g.dt) == finalTime
  {
    var g := CeilTimeGrid(finalTime, cfl, dz, c);
    ClockIsProduct(g.steps, g.dt);
  }

  lemma CeilCount(finalTime: real, dt0: real, nt: int)
    requires finalTime >= 0.0 && dt0 > 0.0 && nt == Trunc(finalTime / dt0) + 1
    ensures nt >= 1 && 0.0 <= finalTime / nt as real < dt0
    ensures nt as real * (finalTime / nt as real) == finalTime
  {
    var y := finalTime / dt0;
    DivMul(finalTime, dt0);
    MulMonoLt(y, nt as real, dt0);
    DivBoundGt(dt0, finalTime, nt as real);
    DivMul(finalTime, nt as real);
  }
}
