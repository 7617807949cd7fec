/** The few facts about division that the models need, kept apart from the models
    so that their proofs stay linear. */
module Arith {

  lemma MulAtLeast(a: int, b: int)
    requires 1 <= a && 0 <= b
    ensures b <= a * b
  {
    assert a * b == b + (a - 1) * b;
    assert 0 <= (a - 1) * b;
  }

  /** Quotient and remainder are the only decomposition of this shape. */
  lemma DivModUnique(n: int, unit: int, q: int, r: int)
    requires 0 < unit && n == q * unit + r && 0 <= r < unit
    ensures n / unit == q && n % unit == r
  {
    QuotientsAgree(unit, q, r, n / unit, n % unit);
  }

  lemma QuotientsAgree(unit: int, q: int, r: int, q2: int, r2: int)
    requires 0 <= r < unit && 0 <= r2 < unit && q * unit + r == q2 * unit + r2
    ensures q == q2 && r == r2
  {
    if q > q2 {
      MulAtLeast(q - q2, unit);
    } else if q < q2 {
      MulAtLeast(q2 - q, unit);
    }
  }

  /** Adding whole units shifts the quotient and keeps the remainder. */
  lemma AddWholeUnits(a: nat, b: nat, unit: nat)
    requires 0 < unit && a % unit == 0
    ensures (a + b) % unit == b % unit
    ensures (a + b) / unit == a / unit + b / unit
  {
    var p, q, r := a / unit, b / unit, b % unit;
    assert a == p * unit && b == q * unit + r;
    assert (p + q) * unit == p * unit + q * unit;
    DivModUnique(a + b, unit, p + q, r);
  }

  /** Cutting a length down to whole units leaves less than one unit behind. */
  lemma RoundDown(n: nat, unit: nat)
    requires 0 < unit
    ensures 0 <= n - n % unit <= n < (n - n % unit) + unit
    ensures (n - n % unit) % unit == 0
    ensures unit <= n ==> unit <= n - n % unit
  {
    var q := n / unit;
    assert n - n % unit == q * unit;
    DivModUnique(q * unit, unit, q, 0);
    if unit <= n {
      if q < 1 {
        QuotientIsPositive(n, unit);
      }
      MulAtLeast(q, unit);
    }
  }

  lemma QuotientIsPositive(n: nat, unit: nat)
    requires 0 < unit <= n
    ensures 1 <= n / unit
  {
    if n / unit < 1 {
      MulAtMostZero(n / unit, unit);
    }
  }

  lemma MulAtMostZero(a: int, b: int)
    requires a <= 0 && 0 <= b
    ensures a * b <= 0
  {
    if a < 0 { MulAtLeast(-a, b); assert (-a) * b == -(a * b); }
  }

  lemma DivMonotone(a: nat, b: nat, d: nat)
    requires a <= b && 0 < d
    ensures a / d <= b / d
    ensures (b / d) * d <= b < (b / d) * d + d
  {
    var p, q := a / d, b / d;
    assert a == p * d + a % d && b == q * d + b % d;
    if p > q {
      MulAtLeast(p - q, d);
    }
  }

  lemma MulMonotone(a: int, b: int, c: int)
    requires a <= b && 0 <= c
    ensures a * c <= b * c
  {
    assert b * c == a * c + (b - a) * c;
    MulAtMostZero(a - b, c);
    assert (a - b) * c == -((b - a) * c);
  }

  lemma QuotientBelow(n: nat, d: nat, bound: nat)
    requires 0 < d && n < bound * d
    ensures n / d < bound
  {
    DivMonotone(n, n, d);
    if bound <= n / d { MulMonotone(bound, n / d, d); }
  }

  lemma ScaledRemainderFits(r: nat, scale: nat, d: nat)
    requires 0 < scale && r < d
    ensures r * scale < scale * d
  {
    MulMonotone(r, d - 1, scale);
    assert (d - 1) * scale == d * scale - scale;
    assert d * scale == scale * d;
  }

  /** Scaling up, dividing and cutting down to the scale is dividing first. */
  lemma ScaledQuotient(x: nat, scale: nat, d: nat)
    requires 0 < scale && 0 < d
    ensures (x * scale) / d - (x * scale) / d % scale == (x / d) * scale
  {
    var q, r := x / d, x % d;
    var t, u := (r * scale) / d, (r * scale) % d;
    ScaledRemainderFits(r, scale, d);
    QuotientBelow(r * scale, d, scale);
    assert x == q * d + r && r * scale == t * d + u;
    Regroup(q, d, r, scale, t, u);
    DivModUnique(x * scale, d, q * scale + t, u);
    DivModUnique(q * scale + t, scale, q, t);
  }

  lemma Regroup(q: int, d: int, r: int, scale: int, t: int, u: int)
    requires r * scale == t * d + u
    ensures (q * d + r) * scale == (q * scale + t) * d + u
  {
    assert (q * d + r) * scale == q * d * scale + r * scale;
    assert (q * scale + t) * d == q * scale * d + t * d;
    assert q * d * scale == q * scale * d;
  }
}
