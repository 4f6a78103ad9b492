/** Python and numpy numerics that the solvers rely on, stated over exact reals. */
module Numerics {

  /** The transcendental functions the scripts call (numpy's cos, sin, exp) and the constant pi.
      Dafny has no trigonometry over `real`, so they are passed in and left uninterpreted. */
  datatype Transcendentals = Transcendentals(cos: real -> real, sin: real -> real, exp: real -> real, pi: real)

  /** The Python exceptions the modelled code can raise. */
  datatype Error = ZeroDivisionError | ValueError(message: string)

  datatype Result<T> = Ok(value: T) | Err(error: Error)

  /** A value or Python's `None`. */
  datatype Option<T> = None | Some(value: T)

  /** Python's `int(x)` on a float: truncation toward zero. */
  function Trunc(x: real): (r: int)
    ensures 0.0 <= x ==> 0 <= r && r as real <= x < r as real + 1.0
    ensures x < 0.0 ==> r <= 0 && r as real - 1.0 < x <= r as real
  {
    if x >= 0.0 then x.Floor else -((-x).Floor)
  }

  /** Python's float `x % m` for a positive modulus: the remainder takes the sign of the divisor. */
  function FloatMod(x: real, m: real): (r: real)
    requires m > 0.0
    ensures 0.0 <= r < m
  {
    FloorBracket(x, m);
    x - (x / m).Floor as real * m
  }

  lemma MulPos(a: real, b: real)
    requires a > 0.0 && b > 0.0
    ensures a * b > 0.0
  {}

  lemma MulNonneg(a: real, b: real)
    requires a >= 0.0 && b >= 0.0
    ensures a * b >= 0.0
  {}

  lemma Distrib(a: real, b: real, c: real)
    ensures (a + b) * c == a * c + b * c
  {}

  lemma DivMul(x: real, m: real)
    requires m != 0.0
    ensures (x / m) * m == x
  {}

  lemma ScaleBetween(k: real, y: real, m: real)
    requires m > 0.0 && k <= y < k + 1.0
    ensures k * m <= y * m < k * m + m
  {
    MulNonneg(y - k, m);
    Distrib(y, -k, m);
    MulPos(k + 1.0 - y, m);
    Distrib(k + 1.0, -y, m);
    Distrib(k, 1.0, m);
  }

  lemma MulMonoLe(a: real, b: real, m: real)
    requires a <= b && m > 0.0
    ensures a * m <= b * m
  {
    MulNonneg(b - a, m);
    Distrib(b, -a, m);
  }

  lemma MulMonoLt(a: real, b: real, m: real)
    requires a < b && m > 0.0
    ensures a * m < b * m
  {
    MulPos(b - a, m);
    Distrib(b, -a, m);
  }

  /** Dividing both sides of `a * n <= b` by a positive `n`. */
  lemma DivBoundLe(a: real, b: real, n: real)
    requires n > 0.0 && a * n <= b
    ensures a <= b / n
  {
    DivMul(b, n);
    if a > b / n { MulMonoLt(b / n, a, n); }
  }

  /** Dividing both sides of `b < a * n` by a positive `n`. */
  lemma DivBoundGt(a: real, b: real, n: real)
    requires n > 0.0 && b < a * n
    ensures b / n < a
  {
    DivMul(b, n);
    if b / n >= a { MulMonoLe(a, b / n, n); }
  }

  /** The multiple of `m` below `x` that Python's `%` subtracts. */
  lemma FloorBracket(x: real, m: real)
    requires m > 0.0
    ensures (x / m).Floor as real * m <= x < (x / m).Floor as real * m + m
  {
    var y := x / m;
    var k := y.Floor as real;
    ScaleBetween(k, y, m);
    DivMul(x, m);
    calc {
      x;
    ==
      y * m;
    <
      k * m + m;
    }
  }

  lemma FloorShift(x: real, k: int)
    ensures (x + k as real).Floor == x.Floor + k
  {
    var f := x.Floor;
    assert f as real <= x < f as real + 1.0;
    assert (f + k) as real <= x + k as real < (f + k) as real + 1.0;
  }

  /** Shifting the argument by whole periods does not change Python's `x % m`. */
  lemma FloatModPeriodic(x: real, m: real, k: int)
    requires m > 0.0
    ensures FloatMod(x + k as real * m, m) == FloatMod(x, m)
  {
    assert (x + k as real * m) / m == x / m + k as real;
    FloorShift(x / m, k);
    var f := (x / m).Floor;
    assert ((x + k as real * m) / m).Floor == f + k;
    assert (x + k as real * m) - (f + k) as real * m == x - f as real * m;
  }

  /** `b` to the power `n`. */
  function Pow(b: real, n: nat): (r: real)
    ensures n == 0 ==> r == 1.0
    ensures b == 0.0 && n > 0 ==> r == 0.0
  {
    if n == 0 then 1.0 else b * Pow(b, n - 1)
  }

  /** `np.clip(v, 0, None)`: negative values are raised to zero. */
  function ClipBelowZero(v: real): (r: real)
    ensures r >= 0.0
    ensures v >= 0.0 ==> r == v
    ensures v < 0.0 ==> r == 0.0
  {
    if v < 0.0 then 0.0 else v
  }

  /** How many `n` in `0 .. count-1` satisfy `n % every == 0`, for a positive stride. */
  function MultiplesBelow(count: nat, every: nat): (k: nat)
    requires every > 0
  {
    (count + every - 1) / every
  }

  lemma NoMultiplesBelowZero(e: nat)
    requires e > 0
    ensures MultiplesBelow(0, e) == 0
  {
    DivOfDecomposition(e - 1, e, 0, e - 1);
  }

  lemma ProductAtLeast(a: int, e: int)
    requires a >= 1 && e > 0
    ensures a * e >= e
  {
    assert a * e == (a - 1) * e + e;
    assert (a - 1) * e >= 0;
  }

  /** Euclidean division is determined by quotient and remainder. */
  lemma DivOfDecomposition(n: int, e: int, d: int, r: int)
    requires e > 0 && 0 <= r < e && n == d * e + r
    ensures n / e == d && n % e == r
  {
    var d', r' := n / e, n % e;
    assert n == d' * e + r' && 0 <= r' < e;
    assert (d - d') * e == r' - r;
    if d > d' {
      ProductAtLeast(d - d', e);
    } else if d < d' {
      ProductAtLeast(d' - d, e);
    }
  }

  /** Python's `n % s == 0` with a negative stride holds exactly at the multiples of `-s`. */
  lemma ModNegativeDivisor(n: int, s: int)
    requires s < 0
    ensures n % s == n % (-s)
  {
    var d, r := n / s, n % s;
    assert n == d * s + r && 0 <= r < -s;
    assert n == (-d) * (-s) + r;
    DivOfDecomposition(n, -s, -d, r);
  }

  /** One more index adds a multiple exactly when the index is one; at a multiple the count so far
      times the stride is that index. */
  lemma {:induction false} MultiplesBelowStep(n: nat, e: nat)
    requires e > 0
    ensures MultiplesBelow(n + 1, e) == MultiplesBelow(n, e) + (if n % e == 0 then 1 else 0)
    ensures n % e == 0 ==> MultiplesBelow(n, e) * e == n
    ensures MultiplesBelow(n, e) * e >= n
  {
    var d, r := n / e, n % e;
    assert n == d * e + r && 0 <= r < e;
    if r == 0 {
      MultiplesAtMultiple(d, e);
    } else {
      MultiplesBetweenMultiples(d, r, e);
    }
  }

  /** At the multiple `d e` there are `d` multiples below and `d + 1` up to it. */
  lemma MultiplesAtMultiple(d: nat, e: nat)
    requires e > 0
    ensures MultiplesBelow(d * e, e) == d && MultiplesBelow(d * e + 1, e) == d + 1
  {
    DivOfDecomposition(d * e + e - 1, e, d, e - 1);
    assert d * e + 1 + e - 1 == (d + 1) * e;
    DivOfDecomposition(d * e + 1 + e - 1, e, d + 1, 0);
  }

  /** Strictly between the multiples `d e` and `(d + 1) e` there are `d + 1` multiples below. */
  lemma MultiplesBetweenMultiples(d: nat, r: nat, e: nat)
    requires 0 < r < e
    ensures MultiplesBelow(d * e + r, e) == d + 1 && MultiplesBelow(d * e + r + 1, e) == d + 1
    ensures (d + 1) * e >= d * e + r
  {
    assert (d + 1) * e == d * e + e;
    DivOfDecomposition(d * e + r + e - 1, e, d + 1, r - 1);
    DivOfDecomposition(d * e + r + 1 + e - 1, e, d + 1, if r + 1 < e then r else e - 1);
  }

  /** `n // e + 1`: the number of multiples of `e` in `0 .. n`. */
  function FrameCount(n: nat, e: nat): (k: nat)
    requires e > 0
    ensures k >= 1
  {
    n / e + 1
  }

  /** Over `0 .. n` (inclusive) there are `n / e + 1` multiples of `e`. */
  lemma MultiplesUpTo(n: nat, e: nat)
    requires e > 0
    ensures MultiplesBelow(n + 1, e) == FrameCount(n, e)
  {
    var d, r := n / e, n % e;
    assert n == d * e + r && 0 <= r < e;
    assert n + 1 + e - 1 == (d + 1) * e + r;
    DivOfDecomposition(n + 1 + e - 1, e, d + 1, r);
  }

  /** `|s|`: the stride of a save interval `s`, whose sign Python's `%` ignores when testing for 0. */
  function Magnitude(s: int): (m: nat)
    ensures s != 0 ==> m > 0
    ensures m == s || m == -s
  {
    if s < 0 then -s else s
  }

  /** The index `k * e` of the `k`-th multiple of a stride `e`. */
  function Stride(k: nat, e: nat): nat
  {
    k * e
  }

  /** The time reached after `i` steps of size `dt`, one addition of `dt` per step. */
  function Clock(i: nat, dt: real): real
  {
    if i == 0 then 0.0 else Clock(i - 1, dt) + dt
  }

  /** The clock after `i` steps reads `i * dt`. */
  lemma {:induction false} ClockIsProduct(i: nat, dt: real)
    ensures Clock(i, dt) == i as real * dt
  {
    if i > 0 {
      ClockIsProduct(i - 1, dt);
      Distrib((i - 1) as real, 1.0, dt);
    }
  }
}
