/**
 The exponential bucket mapping, over the reals.

 Bucket i of a mapping with base gamma covers (gamma^i, gamma^(i+1)]. The base at scale s is
 2^(2^-s), so one scale coarser squares it. Values and bases are reals: rounding is not part
 of this model.
 */
module Mapping {
  import opened SketchSpec

  function Pow(base: real, e: int): real
    requires base > 1.0
    ensures Pow(base, e) > 0.0
    decreases if e < 0 then -e else e
  {
    if e == 0 then 1.0
    else if e > 0 then Product(base, Pow(base, e - 1))
    else Quotient(Pow(base, e + 1), base)
  }

  function Product(a: real, b: real): (r: real)
    requires a > 0.0 && b > 0.0
    ensures r > 0.0
  {
    a * b
  }

  function Quotient(a: real, b: real): (r: real)
    requires a > 0.0 && b > 0.0
    ensures r > 0.0 && Product(b, r) == a
  {
    PositiveQuotient(a, b);
    a / b
  }

  lemma PositiveQuotient(a: real, b: real)
    requires a > 0.0 && b > 0.0
    ensures a / b > 0.0 && b * (a / b) == a
  {
  }

  lemma PowStep(base: real, e: int)
    requires base > 1.0
    ensures Pow(base, e + 1) == Product(base, Pow(base, e))
    ensures Pow(base, e) < Pow(base, e + 1)
  {
    hide Product, Quotient;
    if e < 0 {
      assert Pow(base, e) == Quotient(Pow(base, e + 1), base);
    } else {
      assert Pow(base, e + 1) == Product(base, Pow(base, e));
    }
    Grows(base, Pow(base, e));
  }

  lemma Grows(base: real, p: real)
    requires base > 1.0 && p > 0.0
    ensures p < Product(base, p)
  {
    assert (base - 1.0) * p > 0.0;
  }

  lemma ProductSwap(a: real, x: real, y: real)
    requires a > 0.0 && x > 0.0 && y > 0.0
    ensures Product(a, Product(x, y)) == Product(x, Product(a, y))
  {
    assert a * (x * y) == x * (a * y);
  }

  lemma ProductCommutes(x: real, y: real)
    requires x > 0.0 && y > 0.0
    ensures Product(x, y) == Product(y, x)
  {
  }

  lemma ProductCancel(a: real, x: real, y: real)
    requires a > 0.0 && x > 0.0 && y > 0.0
    ensures Product(a, x) <= Product(a, y) ==> x <= y
    ensures Product(a, x) == Product(a, y) ==> x == y
  {
    assert x < y ==> a * (y - x) > 0.0;
    assert y < x ==> a * (x - y) > 0.0;
  }

  lemma {:induction false} PowMonotone(base: real, a: int, b: int)
    requires base > 1.0 && a <= b
    ensures Pow(base, a) <= Pow(base, b)
    ensures a < b ==> Pow(base, a) < Pow(base, b)
    decreases b - a
  {
    if a < b {
      PowStep(base, b - 1);
      PowMonotone(base, a, b - 1);
    }
  }

  // ---------------------------------------------------------------------------------------
  // Every positive value has exactly one bucket.

  predicate IsIndex(base: real, value: real, i: int)
    requires base > 1.0
  {
    Pow(base, i) < value <= Pow(base, i + 1)
  }

  lemma IndexUnique(base: real, value: real, i: int, j: int)
    requires base > 1.0 && IsIndex(base, value, i) && IsIndex(base, value, j)
    ensures i == j
  {
    if i < j {
      PowMonotone(base, i + 1, j);
    } else if j < i {
      PowMonotone(base, j + 1, i);
    }
  }

  /** A larger value never falls in a lower bucket. */
  lemma IndexMonotone(base: real, v: real, w: real, i: int, j: int)
    requires base > 1.0 && v <= w && IsIndex(base, v, i) && IsIndex(base, w, j)
    ensures i <= j
  {
    if j < i {
      PowMonotone(base, j + 1, i);
    }
  }

  /** Bernoulli's bound: the powers of a base grow at least linearly. */
  lemma {:induction false} PowGrows(base: real, n: nat)
    requires base > 1.0
    ensures Pow(base, n) >= 1.0 + n as real * (base - 1.0)
  {
    if n > 0 {
      PowGrows(base, n - 1);
      PowMonotone(base, 0, n - 1);
      PowStep(base, n - 1);
      GrowsBy(base, Pow(base, n - 1), (n - 1) as real);
    }
  }

  lemma GrowsBy(base: real, p: real, m: real)
    requires base > 1.0 && p >= 1.0 && p >= 1.0 + m * (base - 1.0)
    ensures Product(base, p) >= 1.0 + (m + 1.0) * (base - 1.0)
  {
    LineStep(base - 1.0, p, m);
  }

  lemma LineStep(d: real, p: real, m: real)
    requires d > 0.0 && p >= 1.0 && p >= 1.0 + m * d
    ensures (d + 1.0) * p >= 1.0 + (m + 1.0) * d
  {
    assert d * (p - 1.0) >= 0.0;
    assert (d + 1.0) * p == d * (p - 1.0) + d + p;
    assert (m + 1.0) * d == m * d + d;
  }

  lemma AboveLine(d: real, x: real) returns (n: nat)
    requires d > 0.0
    ensures 1.0 + n as real * d >= x
  {
    n := if x <= 0.0 then 0 else (x / d).Floor + 1;
    if x > 0.0 {
      PositiveQuotient(x, d);
      var y, z := x / d, n as real;
      assert z >= y;
      assert (z - y) * d >= 0.0;
    }
  }

  lemma PowUnbounded(base: real, x: real) returns (n: nat)
    requires base > 1.0
    ensures Pow(base, n) >= x
  {
    n := AboveLine(base - 1.0, x);
    PowGrows(base, n);
  }

  lemma {:induction false} PowNegate(base: real, n: int)
    requires base > 1.0 && n >= 0
    ensures Product(Pow(base, -n), Pow(base, n)) == 1.0
    decreases n
  {
    if n > 0 {
      hide Product;
      PowNegate(base, n - 1);
      PowStep(base, -n);
      PowStep(base, n - 1);
      assert -n + 1 == -(n - 1);
      var x, y := Pow(base, -n), Pow(base, n - 1);
      ProductSwap(x, base, y);
      ProductSwap(base, x, y);
      ProductAssociates(base, x, y);
    }
  }

  lemma ProductAssociates(a: real, x: real, y: real)
    requires a > 0.0 && x > 0.0 && y > 0.0
    ensures Product(Product(a, x), y) == Product(a, Product(x, y))
  {
    assert (a * x) * y == a * (x * y);
  }

  lemma PowVanishes(base: real, x: real) returns (n: int)
    requires base > 1.0 && x > 0.0
    ensures n >= 0 && Pow(base, -n) < x
  {
    n := PowUnbounded(base, Quotient(1.0, x) + 1.0);
    PowNegate(base, n);
    SmallInverse(Pow(base, -n), Pow(base, n), x, Quotient(1.0, x));
  }

  lemma SmallInverse(m: real, p: real, x: real, q: real)
    requires m > 0.0 && p > q > 0.0 && x > 0.0 && Product(m, p) == 1.0 && Product(x, q) == 1.0
    ensures m < x
  {
    assert x * (p - q) > 0.0;
    assert x <= m ==> (m - x) * p >= 0.0;
  }

  lemma {:induction false} IndexBetween(base: real, value: real, lo: int, hi: int) returns (i: int)
    requires base > 1.0 && lo < hi && Pow(base, lo) < value <= Pow(base, hi)
    ensures IsIndex(base, value, i)
    decreases hi - lo
  {
    if value <= Pow(base, lo + 1) {
      i := lo;
    } else {
      i := IndexBetween(base, value, lo + 1, hi);
    }
  }

  lemma IndexExists(base: real, value: real)
    requires base > 1.0 && value > 0.0
    ensures exists i :: IsIndex(base, value, i)
  {
    var n := PowVanishes(base, value);
    var m := PowUnbounded(base, value);
    PowMonotone(base, m, m + 1);
    if -n >= m + 1 { PowMonotone(base, m + 1, -n); }
    var i := IndexBetween(base, value, -n, m + 1);
  }

  /** ceil(log_base(value)) - 1, the bucket of a strictly positive value. */
  ghost function Index(base: real, value: real): (i: int)
    requires base > 1.0 && value > 0.0
    ensures IsIndex(base, value, i)
  {
    IndexExists(base, value);
    var i :| IsIndex(base, value, i);
    i
  }

  // ---------------------------------------------------------------------------------------
  // Scales.

  /** gamma is the mapping base of a scale: its 2^scale-th power is two. */
  predicate IsBase(gamma: real, scale: nat) { gamma > 1.0 && Pow(gamma, Pow2(scale)) == 2.0 }

  lemma {:induction false} PowAdd(base: real, a: int, b: nat)
    requires base > 1.0
    ensures Pow(base, a + b) == Product(Pow(base, a), Pow(base, b))
  {
    if b > 0 {
      hide Product;
      PowAdd(base, a, b - 1);
      PowStep(base, a + b - 1);
      PowStep(base, b - 1);
      ProductSwap(base, Pow(base, a), Pow(base, b - 1));
    }
  }

  lemma PowAboveOne(base: real, d: nat)
    requires base > 1.0 && d > 0
    ensures Pow(base, d) > 1.0
  {
    PowMonotone(base, 0, d);
  }

  lemma {:induction false} PowPow(base: real, d: nat, e: int, de: int)
    requires base > 1.0 && d > 0 && Pow(base, d) > 1.0 && de == d * e
    ensures Pow(Pow(base, d), e) == Pow(base, de)
    decreases if e < 0 then -e else e
  {
    var q := Pow(base, d);
    hide Product;
    if e > 0 {
      ProductCommutes(q, Pow(base, de - d));
      DistributeMul(d, e, -1);
      PowPow(base, d, e - 1, de - d);
      PowStep(q, e - 1);
      PowAdd(base, de - d, d);
    } else if e < 0 {
      DistributeMul(d, e, 1);
      PowPow(base, d, e + 1, de + d);
      PowStep(q, e);
      PowAdd(base, de, d);
      ProductCommutes(q, Pow(base, de));
      ProductCancel(q, Pow(q, e), Pow(base, de));
    }
  }

  lemma DistributeMul(d: int, a: int, b: int)
    ensures d * (a + b) == d * a + d * b
  {
  }

  /** Perfect subsetting: the bucket of a value s scales coarser is its bucket shifted right,
      so no observation crosses a boundary when a sketch is downscaled. */
  lemma PerfectSubsetting(base: real, value: real, s: nat)
    requires base > 1.0 && value > 0.0
    ensures Pow2(s) >= 1 && Pow(base, Pow2(s)) > 1.0
    ensures Index(Pow(base, Pow2(s)), value) == Shift(Index(base, value), s)
  {
    Pow2Positive(s);
    var d := Pow2(s);
    PowAboveOne(base, d);
    var i := Index(base, value);
    var q, r := i / d, i % d;
    assert i == d * q + r;
    PowPow(base, d, q, i - r);
    DistributeMul(d, q, 1);
    PowPow(base, d, q + 1, i - r + d);
    PowMonotone(base, i - r, i);
    PowMonotone(base, i + 1, i - r + d);
    IndexUnique(Pow(base, d), value, Index(Pow(base, d), value), q);
  }

  /** The base one scale coarser is the square: IsBase is kept by downscaling. */
  lemma CoarserBase(gamma: real, scale: nat, s: nat)
    requires s <= scale && IsBase(gamma, scale)
    ensures Pow2(s) >= 1 && IsBase(Pow(gamma, Pow2(s)), scale - s)
  {
    Pow2Positive(s);
    Pow2Positive(scale - s);
    PowAboveOne(gamma, Pow2(s));
    Pow2Product(s, scale - s);
    PowPow(gamma, Pow2(s), Pow2(scale - s), Pow2(scale));
  }

  lemma {:induction false} Pow2Product(a: nat, b: nat)
    ensures Pow2(a) * Pow2(b) == Pow2(a + b)
  {
    if a > 0 {
      Pow2Product(a - 1, b);
      assert Pow2(a) * Pow2(b) == 2 * (Pow2(a - 1) * Pow2(b));
    }
  }

  /** The exact branch for powers of two lands in the bucket whose upper boundary the value is,
      which is the mapping's own answer. */
  lemma PowerOfTwoIndex(gamma: real, scale: nat, e: int)
    requires IsBase(gamma, scale)
    ensures Pow(2.0, e) > 0.0 && Index(gamma, Pow(2.0, e)) == e * Pow2(scale) - 1
  {
    Pow2Positive(scale);
    var d := Pow2(scale);
    assert d * e == e * d;
    PowPow(gamma, d, e, e * d);
    PowStep(gamma, e * d - 1);
    IndexUnique(gamma, Pow(2.0, e), Index(gamma, Pow(2.0, e)), e * d - 1);
  }

  // ---------------------------------------------------------------------------------------
  // The representative of a bucket.

  /** 2 * upper / (base + 1). */
  function Representative(base: real, i: int): real
    requires base > 1.0
  {
    Quotient(2.0 * Pow(base, i + 1), base + 1.0)
  }

  function RelativeError(base: real): real
    requires base > 1.0
  {
    Quotient(base - 1.0, base + 1.0)
  }

  function Abs(x: real): real { if x < 0.0 then -x else x }

  /** The representative is within the advertised relative error of every value of its bucket. */
  lemma RepresentativeError(base: real, value: real, i: int)
    requires base > 1.0 && value > 0.0 && IsIndex(base, value, i)
    ensures Abs(Representative(base, i) - value) <= Product(RelativeError(base), value)
  {
    PowStep(base, i);
    hide Pow;
    ErrorBound(base, value, Pow(base, i), Representative(base, i), RelativeError(base));
  }

  /** The two-sided bound, over the lower boundary l, the representative r and the error e. */
  lemma ErrorBound(b: real, v: real, l: real, r: real, e: real)
    requires b > 1.0 && l > 0.0 && l < v <= Product(b, l) && r > 0.0 && e > 0.0
    requires Product(b + 1.0, r) == 2.0 * Product(b, l) && Product(b + 1.0, e) == b - 1.0
    ensures Abs(r - v) <= Product(e, v)
  {
    var c := b + 1.0;
    assert b * (v - l) > 0.0;
    assert c * (e * v) == (c * e) * v;
    ScaledOrder(c, r - v, e * v);
    ScaledOrder(c, v - r, e * v);
  }

  lemma ScaledOrder(c: real, x: real, y: real)
    requires c > 0.0 && c * x <= c * y
    ensures x <= y
  {
    assert y < x ==> c * (x - y) > 0.0;
  }

  /** Representatives rise with the bucket, so a quantile is monotone in its rank. */
  lemma RepresentativeMonotone(base: real, i: int, j: int)
    requires base > 1.0 && i <= j
    ensures 0.0 < Representative(base, i) <= Representative(base, j)
  {
    PowMonotone(base, i + 1, j + 1);
    hide Pow, Product;
    ProductCancel(base + 1.0, Representative(base, i), Representative(base, j));
  }
}
