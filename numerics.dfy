/**
 * The numeric vocabulary shared by the profile routines: Python's `math` and
 * `numpy` helpers over exact reals. Floating-point rounding is not modelled;
 * the transcendental functions are supplied by the caller (`RealOps`).
 */
module Numerics {

  /** `math.pi`, written as the exact value of the double that holds it. */
  const Pi: real := 3.141592653589793115997963468544185161590576171875

  function Abs(x: real): real { if x < 0.0 then -x else x }

  function Max(a: real, b: real): real { if b > a then b else a }

  function Min(a: real, b: real): real { if b < a then b else a }

  /** `math.ceil`: the least integer not below `x`. */
  function Ceil(x: real): (n: int)
    ensures x <= n as real < x + 1.0
  {
    -((-x).Floor)
  }

  /** `int(x)` on a float: truncation toward zero. */
  function Trunc(x: real): (n: int)
    ensures 0.0 <= x ==> n as real <= x < n as real + 1.0
    ensures x < 0.0 ==> x <= n as real <= 0.0 && n as real < x + 1.0
  {
    if x < 0.0 then -((-x).Floor) else x.Floor
  }

  /**
   * Python's `%` on floats with a positive divisor: the result lies in
   * `[0, m)` and differs from `x` by a whole number of periods.
   */
  function FMod(x: real, m: real): (r: real)
    requires m > 0.0
    ensures 0.0 <= r < m
    ensures x - r == (x / m).Floor as real * m
  {
    var q := (x / m).Floor;
    FloorDivBounds(x, m);
    x - q as real * m
  }

  lemma FloorDivBounds(x: real, m: real)
    requires m > 0.0
    ensures var q := (x / m).Floor as real; q * m <= x < q * m + m
  {
    var y := x / m;
    var q := y.Floor as real;
    assert y * m == x;
    assert q <= y < q + 1.0;
    assert q * m <= y * m;
    var d := q + 1.0 - y;
    assert d > 0.0;
    assert d * m > 0.0;
    assert (q + 1.0) * m == y * m + d * m;
    assert (q + 1.0) * m == q * m + m;
    assert x < q * m + m;
  }

  /** Multiplying by a positive factor keeps the order of two reals (`sa`, `sb` are the products). */
  lemma ScaleCompare(a: real, b: real, s: real, sa: real, sb: real)
    requires s > 0.0 && sa == a * s && sb == b * s
    ensures a <= b <==> sa <= sb
    ensures a < b <==> sa < sb
  {
    var d := b - a;
    assert sb - sa == d * s;
    if d > 0.0 {
      assert d * s > 0.0;
    } else if d < 0.0 {
      assert (-d) * s > 0.0;
    }
  }

  /** When `x` lies `n` whole periods above `[0, m)`, Python's `x % m` is `x - n*m`. */
  lemma FModShift(x: real, m: real, n: int)
    requires m > 0.0
    requires 0.0 <= x - n as real * m < m
    ensures FMod(x, m) == x - n as real * m
  {
    var y := x / m;
    assert y * m == x;
    var d := y - n as real;
    assert d * m == x - n as real * m;
    assert n as real <= y < (n + 1) as real;
    assert y.Floor == n;
  }

  /** `math.degrees` and `math.radians`. */
  function Degrees(x: real): real { x * 180.0 / Pi }

  function Radians(x: real): real { x * Pi / 180.0 }

  /** An angle in `[0, 2*pi)` is `[0, 360)` degrees. */
  lemma DegreesOfTurn(x: real)
    requires 0.0 <= x < 2.0 * Pi
    ensures 0.0 <= Degrees(x) < 360.0
  {
    assert x * 180.0 < 2.0 * Pi * 180.0;
  }

  /** The transcendental functions the profile routines call; nothing is assumed of them except `Valid`. */
  datatype RealOps = RealOps(
    sqrt: real -> real,
    sin: real -> real,
    cos: real -> real,
    atan2: (real, real) -> real)
  {
    /** `math.sqrt` never returns a negative number, and the square root of zero is zero. */
    ghost predicate Valid() {
      && sqrt(0.0) == 0.0
      && forall x :: 0.0 <= x ==> 0.0 <= sqrt(x)
    }
  }

  function Sum(s: seq<real>): real
  {
    if s == [] then 0.0 else Sum(s[..|s| - 1]) + s[|s| - 1]
  }

  /** `np.mean` of a non-empty list. */
  function Mean(s: seq<real>): real
    requires s != []
  {
    Sum(s) / |s| as real
  }

  function SumSquaredDeviation(s: seq<real>, mu: real): real
  {
    if s == [] then 0.0
    else SumSquaredDeviation(s[..|s| - 1], mu) + (s[|s| - 1] - mu) * (s[|s| - 1] - mu)
  }

  /** The population variance, which `np.std` takes the square root of. */
  function Variance(s: seq<real>): real
    requires s != []
  {
    SumSquaredDeviation(s, Mean(s)) / |s| as real
  }

  /** `np.std` of a non-empty list (population standard deviation). */
  function Std(ops: RealOps, s: seq<real>): real
    requires s != []
  {
    ops.sqrt(Variance(s))
  }

  lemma {:induction false} SumBounds(s: seq<real>, lo: real, hi: real)
    requires forall k :: 0 <= k < |s| ==> lo <= s[k] <= hi
    ensures |s| as real * lo <= Sum(s) <= |s| as real * hi
  {
    if s != [] {
      SumBounds(s[..|s| - 1], lo, hi);
    }
  }

  /** The mean of a list lies between any bounds of its elements. */
  lemma MeanWithinBounds(s: seq<real>, lo: real, hi: real)
    requires s != []
    requires forall k :: 0 <= k < |s| ==> lo <= s[k] <= hi
    ensures lo <= Mean(s) <= hi
  {
    SumBounds(s, lo, hi);
    var n := |s| as real;
    assert n * lo <= Sum(s) <= n * hi;
    assert lo == (n * lo) / n && hi == (n * hi) / n;
  }

  lemma {:induction false} ConstantSum(s: seq<real>, v: real)
    requires forall k :: 0 <= k < |s| ==> s[k] == v
    ensures Sum(s) == |s| as real * v
  {
    if s != [] {
      ConstantSum(s[..|s| - 1], v);
    }
  }

  lemma {:induction false} ConstantSquaredDeviation(s: seq<real>, v: real)
    requires forall k :: 0 <= k < |s| ==> s[k] == v
    ensures SumSquaredDeviation(s, v) == 0.0
  {
    if s != [] {
      ConstantSquaredDeviation(s[..|s| - 1], v);
    }
  }

  /** A list holding one value repeated has that value as its mean, zero variance and zero standard deviation. */
  lemma ConstantStatistics(ops: RealOps, s: seq<real>, v: real)
    requires ops.Valid()
    requires s != []
    requires forall k :: 0 <= k < |s| ==> s[k] == v
    ensures Mean(s) == v && Variance(s) == 0.0 && Std(ops, s) == 0.0
  {
    ConstantSum(s, v);
    assert Mean(s) == (|s| as real * v) / |s| as real;
    ConstantSquaredDeviation(s, v);
  }

  /**
   * `np.arange(0, stop, step)`: the multiples of `step` strictly below `stop`,
   * and no more of them than that.
   */
  function Arange(stop: real, step: real): (r: seq<real>)
    requires step > 0.0
    ensures forall k :: 0 <= k < |r| ==> r[k] == k as real * step && 0.0 <= r[k] < stop
    ensures stop <= |r| as real * step
  {
    var n := if stop <= 0.0 then 0 else Ceil(stop / step);
    ArangeBounds(stop, step, n);
    seq(n, k requires 0 <= k < n => BinStart(k, step))
  }

  /** The `k`-th value of an `arange` with step `step`. */
  function BinStart(k: int, step: real): real { k as real * step }

  lemma ArangeBounds(stop: real, step: real, n: int)
    requires step > 0.0
    requires n == if stop <= 0.0 then 0 else Ceil(stop / step)
    ensures 0 <= n
    ensures forall k: int :: 0 <= k < n ==> BinStart(k, step) < stop
    ensures stop <= n as real * step
  {
    if stop > 0.0 {
      var q := stop / step;
      assert q * step == stop;
      assert n as real - 1.0 < q <= n as real;
      forall k: int | 0 <= k < n
        ensures BinStart(k, step) < stop
      {
        assert k as real < q;
        assert k as real * step < q * step;
      }
      assert q * step <= n as real * step;
    }
  }

  /**
   * `np.argmin(np.abs(xs - a))`: the index of the element nearest to `a`,
   * the first one when several are equally near.
   */
  function ArgMin(xs: seq<real>, a: real): (idx: nat)
    requires |xs| > 0
    ensures idx < |xs|
    ensures forall k :: 0 <= k < |xs| ==> Abs(xs[idx] - a) <= Abs(xs[k] - a)
    ensures forall k :: 0 <= k < idx ==> Abs(xs[idx] - a) < Abs(xs[k] - a)
  {
    if |xs| == 1 then 0
    else
      var p := ArgMin(xs[..|xs| - 1], a);
      if Abs(xs[|xs| - 1] - a) < Abs(xs[p] - a) then |xs| - 1 else p
  }
}
