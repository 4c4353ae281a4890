/** Java's 32-bit int arithmetic and the two BigDecimal operations the domain code relies on. */
module JavaNum {

  // ---------------------------------------------------------------- int

  const MinInt: int := -0x8000_0000
  const MaxInt: int := 0x7FFF_FFFF
  const TwoTo32: int := 0x1_0000_0000

  /** The values of a Java int (or of a non-null Integer). */
  type Int32 = x: int | MinInt <= x <= MaxInt

  /** x + 1 on a Java int, which wraps from MAX_VALUE to MIN_VALUE. */
  function Increment(x: Int32): (r: Int32)
    ensures x < MaxInt ==> r == x + 1
    ensures x == MaxInt ==> r == MinInt
  {
    if x == MaxInt then MinInt else x + 1
  }

  /** a - b on Java ints: the exact difference brought back into range by one turn of 2^32. */
  function Subtract(a: Int32, b: Int32): (r: Int32)
    ensures MinInt <= a - b <= MaxInt ==> r == a - b
    ensures a - b > MaxInt ==> r == a - b - TwoTo32
    ensures a - b < MinInt ==> r == a - b + TwoTo32
  {
    if a - b > MaxInt then a - b - TwoTo32
    else if a - b < MinInt then a - b + TwoTo32
    else a - b
  }

  /** a + b on Java ints: the exact sum brought back into range by one turn of 2^32. */
  function Add(a: Int32, b: Int32): (r: Int32)
    ensures MinInt <= a + b <= MaxInt ==> r == a + b
    ensures a + b > MaxInt ==> r == a + b - TwoTo32
    ensures a + b < MinInt ==> r == a + b + TwoTo32
  {
    if a + b > MaxInt then a + b - TwoTo32
    else if a + b < MinInt then a + b + TwoTo32
    else a + b
  }

  /** a / b on Java ints with b > 0: the quotient truncated toward zero (Dafny's / is Euclidean). */
  function Quot(a: int, b: int): (r: int)
    requires b > 0
    ensures a >= 0 ==> r >= 0 && b * r <= a < b * r + b
    ensures a < 0 ==> r <= 0 && b * r - b < a <= b * r
  {
    if a >= 0 then
      DivisaoNatural(a, b);
      a / b
    else
      DivisaoNatural(-a, b);
      ProdutoOposto(b, (-a) / b);
      -((-a) / b)
  }

  /** Euclidean division of a natural number brackets it between two multiples of b. */
  lemma DivisaoNatural(a: int, b: int)
    requires a >= 0 && b > 0
    ensures a / b >= 0 && b * (a / b) <= a < b * (a / b) + b
  {
    assert a == b * (a / b) + a % b;
  }

  lemma ProdutoOposto(b: int, q: int)
    ensures b * -q == -(b * q)
  {
  }

  /** Incrementing and then subtracting one gives back the start, wrap-around included. */
  lemma SubtractUndoesIncrement(x: Int32)
    ensures Subtract(Increment(x), 1) == x
  {
  }

  // ---------------------------------------------------------------- BigDecimal

  function Pow10(n: nat): (r: nat)
    ensures r >= 1
  {
    if n == 0 then 1 else 10 * Pow10(n - 1)
  }

  lemma {:induction false} Pow10Add(a: nat, b: nat)
    ensures Pow10(a + b) == Pow10(a) * Pow10(b)
  {
    if a > 0 {
      Pow10Add(a - 1, b);
      assert Pow10(a + b) == 10 * Pow10(a - 1 + b);
    }
  }

  /** A BigDecimal: the number unscaled × 10^(-scale); the scale may be negative. */
  datatype BigDecimal = BigDecimal(unscaled: int, scale: int)

  /** d.compareTo(BigDecimal.ZERO) < 0. */
  predicate IsNegative(d: BigDecimal) {
    d.unscaled < 0
  }

  /** d.compareTo(n) > 0 for a whole number n. */
  predicate GreaterThan(d: BigDecimal, n: int) {
    if d.scale <= 0 then d.unscaled * Pow10(-d.scale) > n else d.unscaled > n * Pow10(d.scale)
  }

  function Abs(x: int): nat {
    if x < 0 then -x else x
  }

  /** a / k rounded to the nearest whole number, halves rounded up. */
  function RoundHalfUp(a: nat, k: nat): nat
    requires k >= 1
  {
    if 2 * (a % k) >= k then a / k + 1 else a / k
  }

  lemma RoundHalfUpNearest(a: nat, k: nat)
    requires k >= 1
    ensures 2 * Abs(RoundHalfUp(a, k) * k - a) <= k
  {
    var q := a / k;
    var rem := a % k;
    assert a == q * k + rem;
    if 2 * rem >= k {
      assert (q + 1) * k - a == k - rem;
    } else {
      assert q * k - a == -rem;
    }
  }

  /** The unscaled value of d.setScale(2, RoundingMode.HALF_UP), that is d rounded to hundredths,
      with ties rounded away from zero. */
  function Hundredths(d: BigDecimal): (r: int)
    ensures r < 0 ==> d.unscaled < 0
    ensures d.unscaled < 0 ==> r <= 0
  {
    if d.scale <= 2 then d.unscaled * Pow10(2 - d.scale)
    else
      var m: int := RoundHalfUp(Abs(d.unscaled), Pow10(d.scale - 2));
      if d.unscaled < 0 then -m else m
  }

  /** Rounding to two places is exact when there are at most two, and otherwise lands within half a
      hundredth of the value: |r × 10^(scale-2) − unscaled| ≤ 10^(scale-2) / 2. */
  lemma HundredthsNearest(d: BigDecimal)
    ensures 0 <= d.scale <= 2 ==> Hundredths(d) * Pow10(d.scale) == d.unscaled * 100
    ensures d.scale < 0 ==> Hundredths(d) == d.unscaled * Pow10(-d.scale) * 100
    ensures d.scale > 2 ==> 2 * Abs(Hundredths(d) * Pow10(d.scale - 2) - d.unscaled) <= Pow10(d.scale - 2)
  {
    assert Pow10(2) == 100;
    if d.scale < 0 {
      Pow10Add(-d.scale, 2);
    } else if d.scale <= 2 {
      Pow10Add(d.scale, 2 - d.scale);
      calc {
        Hundredths(d) * Pow10(d.scale);
        d.unscaled * Pow10(2 - d.scale) * Pow10(d.scale);
        { assert Pow10(2 - d.scale) * Pow10(d.scale) == 100; }
        d.unscaled * 100;
      }
    } else {
      var k := Pow10(d.scale - 2);
      var m: int := RoundHalfUp(Abs(d.unscaled), k);
      RoundHalfUpNearest(Abs(d.unscaled), k);
      if d.unscaled < 0 {
        assert Hundredths(d) * k - d.unscaled == -(m * k - Abs(d.unscaled));
      }
    }
  }

  /** r hundredths are the HALF_UP rounding of u units of 1/(100 k): u lies within half a step of
      r k, and a value exactly halfway goes away from zero (towards r for u >= 0 when
      2 (u - r k) == -k, towards r for u < 0 when 2 (u - r k) == k). */
  predicate HalfUpBracket(u: int, k: nat, r: int) {
    var h: int := k;
    if u >= 0 then -h <= 2 * (u - r * h) < h else -h < 2 * (u - r * h) <= h
  }

  /** setScale(2, HALF_UP) from more than two places is the HALF_UP rounding. */
  lemma HundredthsHalfUp(d: BigDecimal)
    ensures d.scale > 2 ==> HalfUpBracket(d.unscaled, Pow10(d.scale - 2), Hundredths(d))
  {
    if d.scale > 2 {
      HundredthsHalfUpRounded(d);
    }
  }

  lemma HundredthsHalfUpRounded(d: BigDecimal)
    requires d.scale > 2
    ensures HalfUpBracket(d.unscaled, Pow10(d.scale - 2), Hundredths(d))
  {
    var k := Pow10(d.scale - 2);
    var a: int := Abs(d.unscaled);
    var m: int := RoundHalfUp(a, k);
    RoundHalfUpBracket(a, k);
    if d.unscaled < 0 {
      assert Hundredths(d) == -m;
      ProdutoOposto(k, m);
      assert d.unscaled - Hundredths(d) * k == -(a - m * k);
    }
  }

  /** On a natural number, RoundHalfUp meets the bracket from below: -k <= 2 (a - r k) < k. */
  lemma RoundHalfUpBracket(a: nat, k: nat)
    requires k >= 1
    ensures var r: int := RoundHalfUp(a, k); -(k as int) <= 2 * (a - r * k) < k
  {
    var q, rem := a / k, a % k;
    assert a == q * k + rem;
    if 2 * rem >= k {
      assert (q + 1) * k == q * k + k;
    }
  }

  /** The bracket admits one value only, so no other rounding rule (HALF_DOWN, HALF_EVEN) meets it
      on the ties. */
  lemma HalfUpBracketUnique(u: int, k: nat, r1: int, r2: int)
    requires k >= 1 && HalfUpBracket(u, k, r1) && HalfUpBracket(u, k, r2)
    ensures r1 == r2
  {
    if r1 < r2 {
      MulMonotone(k, r1, r2);
    }
    if r2 < r1 {
      MulMonotone(k, r2, r1);
    }
  }

  /** A value in [0, n] rounds to a number of hundredths in [0, 100 n]: rounding never leaves a
      whole-number range. */
  lemma HundredthsWithin(d: BigDecimal, n: nat)
    requires !IsNegative(d) && !GreaterThan(d, n)
    ensures 0 <= Hundredths(d) <= 100 * n
  {
    if d.scale <= 0 {
      HundredthsWithinWhole(d, n);
    } else if d.scale <= 2 {
      HundredthsWithinExact(d, n);
    } else {
      HundredthsWithinRounded(d, n);
    }
  }

  lemma HundredthsWithinWhole(d: BigDecimal, n: nat)
    requires d.scale <= 0 && d.unscaled >= 0 && d.unscaled * Pow10(-d.scale) <= n
    ensures 0 <= Hundredths(d) <= 100 * n
  {
    assert Pow10(2) == 100;
    Pow10Add(-d.scale, 2);
    var w := d.unscaled * Pow10(-d.scale);
    assert Hundredths(d) == d.unscaled * (Pow10(-d.scale) * 100);
    assert Hundredths(d) == w * 100;
  }

  lemma HundredthsWithinExact(d: BigDecimal, n: nat)
    requires 0 < d.scale <= 2 && d.unscaled >= 0 && d.unscaled <= n * Pow10(d.scale)
    ensures 0 <= Hundredths(d) <= 100 * n
  {
    assert Pow10(2) == 100;
    Pow10Add(d.scale, 2 - d.scale);
    var p := Pow10(2 - d.scale);
    assert Hundredths(d) == d.unscaled * p;
    assert d.unscaled * p <= n * Pow10(d.scale) * p;
    assert n * Pow10(d.scale) * p == n * (Pow10(d.scale) * p);
  }

  lemma HundredthsWithinRounded(d: BigDecimal, n: nat)
    requires d.scale > 2 && d.unscaled >= 0 && d.unscaled <= n * Pow10(d.scale)
    ensures 0 <= Hundredths(d) <= 100 * n
  {
    var k := Pow10(d.scale - 2);
    Pow10Add(2, d.scale - 2);
    assert Pow10(2) == 100;
    var u, m := d.unscaled, 100 * n;
    assert n * Pow10(d.scale) == k * m by {
      assert Pow10(d.scale) == 100 * k;
    }
    DivisaoNatural(u, k);
    var q := u / k;
    if q > m {
      MulMonotone(k, m, q);
    }
    if q == m {
      assert u % k == 0;
    }
    assert Hundredths(d) == RoundHalfUp(u, k);
  }

  /** A larger factor gives a product larger by at least k. */
  lemma MulMonotone(k: nat, x: int, y: int)
    requires x < y
    ensures k * x + k <= k * y
  {
    var e: nat := y - x - 1;
    assert y == x + 1 + e;
    assert k * y == k * x + k + k * e;
  }
}
