/** Products and quotients: every nonlinear step of the other modules is one of these. */
module Arithmetic {

  lemma {:induction false} MulLe(a: int, b: int, c: int)
    requires a <= b && 0 <= c
    ensures a * c <= b * c
    decreases c
  {
    if c > 0 {
      MulLe(a, b, c - 1);
      assert a * c == a * (c - 1) + a && b * c == b * (c - 1) + b;
    }
  }

  lemma MulLeBoth(a: nat, b: nat, c: nat, d: nat)
    requires a <= b && c <= d
    ensures 0 <= a * c <= b * d
  {
    MulLe(0, a, c);
    MulLe(a, b, c);
    MulLe(c, d, b);
  }

  lemma MulLess(a: int, b: int, c: int)
    requires a < b && 0 < c
    ensures a * c < b * c
  {
    MulLe(a + 1, b, c);
    assert (a + 1) * c == a * c + c;
  }

  /** Between two neighbouring multiples there is no third. */
  lemma NoMultipleBetween(base: int, t: int)
    requires 0 < base && -base < base * t < base
    ensures t == 0
  {
    if t >= 1 {
      MulLe(1, t, base);
    } else if t <= -1 {
      MulLe(t, -1, base);
    }
  }

  lemma Division(x: int, d: int)
    requires d > 0
    ensures x == d * (x / d) + x % d && 0 <= x % d < d
  {
  }

  /** Quotient and remainder are the only numbers of their kind. */
  lemma DivisionIs(x: int, d: int, q: int, r: int)
    requires d > 0 && 0 <= r < d && x == d * q + r
    ensures x / d == q && x % d == r
  {
    Division(x, d);
    var t := x / d - q;
    assert d * t == d * (x / d) - d * q;
    NoMultipleBetween(d, t);
  }

  lemma DivAtMost(x: nat, d: nat, cap: nat)
    requires d > 0 && x <= cap * d
    ensures 0 <= x / d <= cap
  {
    Division(x, d);
    var q := x / d;
    assert (cap + 1) * d == cap * d + d;
    if q > cap {
      MulLe(cap + 1, q, d);
    }
    if q < 0 {
      MulLe(q, -1, d);
    }
  }

  lemma DivBelow(x: nat, d: nat, p: nat)
    requires d > 0 && x < d * p
    ensures 0 <= x / d < p
  {
    Division(x, d);
    var q := x / d;
    if q >= p {
      MulLe(p, q, d);
    }
    if q < 0 {
      MulLe(q, -1, d);
    }
  }

  lemma DivLe(x: int, y: int, d: int)
    requires x <= y && d > 0
    ensures x / d <= y / d
    ensures x / d == y / d ==> x % d <= y % d
  {
    Division(x, d);
    Division(y, d);
    var i, j := x / d, y / d;
    assert (j + 1) * d == j * d + d;
    if i > j {
      MulLe(j + 1, i, d);
    }
  }
}
