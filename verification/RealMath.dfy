/** Floor-based division with remainder on the reals: the arithmetic behind the
    wrapping of a counter and of a curve's infinities. */
module RealMath {

  function Abs(x: real): real { if x < 0.0 then -x else x }

  function Min(x: real, y: real): real { if x <= y then x else y }

  function Max(x: real, y: real): real { if x <= y then y else x }

  /** How many whole periods `m` fit below `x`. */
  function Laps(x: real, m: real): int
    requires m > 0.0
  {
    (x / m).Floor
  }

  /** The remainder of `x` in `[0, m)`. */
  function Mod(x: real, m: real): real
    requires m > 0.0
  {
    x - Laps(x, m) as real * m
  }

  /** JavaScript's Math.ceil. */
  function Ceil(x: real): int { -((-x).Floor) }

  lemma QuotientBounds(x: real, m: real, k: real)
    requires m > 0.0
    ensures x / m <= k <==> x <= k * m
    ensures x / m < k <==> x < k * m
  {
    var q := x / m;
    assert q * m == x;
    if q < k {
      MulStrict(q, k, m);
    } else if q > k {
      MulStrict(k, q, m);
    } else {
      assert k * m == x;
    }
  }

  lemma MulStrict(a: real, b: real, m: real)
    requires m > 0.0 && a < b
    ensures a * m < b * m
  {
    assert (b - a) * m > 0.0;
  }

  lemma MulNonNegative(x: real, y: real)
    requires x >= 0.0 && y >= 0.0
    ensures x * y >= 0.0
  {
  }

  /** Multiplying both sides of an equation. */
  lemma MulBoth(p: real, q: real, r: real)
    requires p == q
    ensures p * r == q * r
  {
  }

  lemma Cancel(x: real, y: real, d: real)
    requires d != 0.0 && x * d == y * d
    ensures x == y
  {
  }

  lemma DividedTimes(n: real, d: real)
    requires d != 0.0
    ensures n / d * d == n
  {
  }

  lemma TimesReciprocal(x: real, n: real)
    requires n > 0.0
    ensures x * (1.0 / n) == x / n
  {
    DividedTimes(1.0, n);
    DividedTimes(x, n);
    MulBoth(1.0 / n * n, 1.0, x);
    Cancel(x * (1.0 / n), x / n, n);
  }

  lemma LapsBounds(x: real, m: real)
    requires m > 0.0
    ensures Laps(x, m) as real * m <= x < (Laps(x, m) as real + 1.0) * m
  {
    var k := Laps(x, m);
    QuotientBounds(x, m, k as real);
    QuotientBounds(x, m, k as real + 1.0);
  }

  /** `Laps` is the only whole number of periods that leaves a remainder in `[0, m)`. */
  lemma LapsUnique(x: real, m: real, k: int)
    requires m > 0.0
    requires k as real * m <= x < (k as real + 1.0) * m
    ensures Laps(x, m) == k
  {
    QuotientBounds(x, m, k as real);
    QuotientBounds(x, m, k as real + 1.0);
  }

  lemma ModRange(x: real, m: real)
    requires m > 0.0
    ensures 0.0 <= Mod(x, m) < m
  {
    LapsBounds(x, m);
    assert (Laps(x, m) as real + 1.0) * m == Laps(x, m) as real * m + m;
  }

  lemma ModUnique(x: real, m: real, y: real, k: int)
    requires m > 0.0
    requires 0.0 <= y < m && x == y + k as real * m
    ensures Mod(x, m) == y && Laps(x, m) == k
  {
    assert (k as real + 1.0) * m == k as real * m + m;
    LapsUnique(x, m, k);
  }

  lemma ModShift(x: real, m: real, k: int)
    requires m > 0.0
    ensures Mod(x + k as real * m, m) == Mod(x, m)
    ensures Laps(x + k as real * m, m) == Laps(x, m) + k
  {
    ModRange(x, m);
    var j := Laps(x, m) + k;
    assert j as real * m == Laps(x, m) as real * m + k as real * m;
    ModUnique(x + k as real * m, m, Mod(x, m), j);
  }

  lemma CeilBounds(x: real, m: real)
    requires m > 0.0
    ensures (Ceil(x / m) as real - 1.0) * m < x <= Ceil(x / m) as real * m
  {
    var k := Ceil(x / m);
    QuotientBounds(x, m, k as real);
    QuotientBounds(x, m, k as real - 1.0);
  }

  /** JavaScript's remainder, which takes the sign of the dividend. */
  function Rem(x: real, m: real): real
    requires m > 0.0
  {
    if x >= 0.0 then Mod(x, m) else -Mod(-x, m)
  }

  lemma Negate(k: int, m: real)
    ensures (-k) as real * m == -(k as real * m)
  {
  }

  /** Stepping up from below zero by whole periods, and then taking the remainder. */
  lemma WrapUp(u: real, m: real, k: int, v: real)
    requires m > 0.0 && u < 0.0 && k == Ceil((-u) / m) && v == u + k as real * m
    ensures 0.0 <= v < m && Rem(v, m) == v == Mod(u, m) && Laps(u, m) == -k
  {
    CeilBounds(-u, m);
    assert (k as real - 1.0) * m == k as real * m - m;
    Negate(k, m);
    ModUnique(u, m, v, -k);
    ModUnique(v, m, v, 0);
  }

  /** Stepping down into `(0, m]` by whole periods, and then taking the remainder. */
  lemma WrapDown(u: real, m: real, k: int, v: real)
    requires m > 0.0 && u >= m && k == Ceil((u - m) / m) && v == u - k as real * m
    ensures 0.0 < v <= m && 0.0 <= Rem(v, m) == Mod(u, m) < m
  {
    ModRange(u, m);
    CeilBounds(u - m, m);
    assert (k as real - 1.0) * m == k as real * m - m;
    hide Mod, Laps;
    ModShift(v, m, k);
    assert v + k as real * m == u;
  }

  /** Taking off all whole periods at once. */
  lemma WrapFloor(u: real, m: real, k: int, v: real)
    requires m > 0.0 && u >= 0.0 && k == (u / m).Floor && v == u - k as real * m
    ensures 0.0 <= v < m && Rem(v, m) == v == Mod(u, m) && Laps(u, m) == k
  {
    ModRange(u, m);
    ModUnique(v, m, v, 0);
  }

  /** To and fro on `[0, s]`. */
  function Fold(u: real, s: real): real
    requires s > 0.0
  {
    var m := Mod(u, 2.0 * s);
    if m <= s then m else 2.0 * s - m
  }

  lemma FoldUp(u: real, s: real, k: int, v: real)
    requires s > 0.0 && u < 0.0 && k == Ceil((-u) / (2.0 * s)) && v == u + k as real * 2.0 * s
    ensures 0.0 <= s - Abs(v - s) == Fold(u, s) <= s
  {
    FoldRange(u, s);
    assert k as real * 2.0 * s == k as real * (2.0 * s);
    WrapUp(u, 2.0 * s, k, v);
  }

  lemma FoldDown(u: real, s: real, k: int, v: real)
    requires s > 0.0 && u >= s && k == Ceil((u - s) / (2.0 * s)) && v == u - k as real * 2.0 * s
    ensures 0.0 <= Abs(v) == Fold(u, s) <= s
  {
    FoldRange(u, s);
    var m := 2.0 * s;
    CeilBounds(u - s, m);
    assert (k as real - 1.0) * m == k as real * m - m;
    assert k as real * 2.0 * s == k as real * m;
    assert (k - 1) as real == k as real - 1.0;
    assert -s < v <= s;
    if v >= 0.0 {
      ModUnique(u, m, v, k);
    } else {
      assert u == (v + m) + (k - 1) as real * m;
      ModUnique(u, m, v + m, k - 1);
    }
  }

  lemma FoldRange(u: real, s: real)
    requires s > 0.0
    ensures 0.0 <= Fold(u, s) <= s
  {
    ModRange(u, 2.0 * s);
  }

  /** Folding repeats after two lengths and is a mirror image of itself at both ends. */
  lemma FoldSymmetry(u: real, s: real)
    requires s > 0.0
    ensures Fold(u + 2.0 * s, s) == Fold(u, s) && Fold(-u, s) == Fold(u, s) && Fold(2.0 * s - u, s) == Fold(u, s)
  {
    var p := 2.0 * s;
    ModShift(u, p, 1);
    ModShift(-u, p, 1);
    assert u + 1 as real * p == u + 2.0 * s && -u + 1 as real * p == 2.0 * s - u;
    var m, k := Mod(u, p), Laps(u, p);
    ModRange(u, p);
    Negate(k, p);
    assert (-k - 1) as real * p == (-k) as real * p - p;
    if m == 0.0 {
      ModUnique(-u, p, 0.0, -k);
    } else {
      ModUnique(-u, p, p - m, -k - 1);
    }
  }
}
