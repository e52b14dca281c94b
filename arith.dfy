/** Powers of two and the division/modulo facts that logical shifts on
    unsigned words reduce to. */
module Pow2Arith {

  /** 2 raised to the k-th power. */
  function Pow2(k: nat): (r: nat)
    ensures r >= 1
  {
    if k == 0 then 1 else 2 * Pow2(k - 1)
  }

  lemma {:induction false} Pow2Add(a: nat, b: nat)
    ensures Pow2(a + b) == Pow2(a) * Pow2(b)
  {
    if a > 0 {
      Pow2Add(a - 1, b);
      assert Pow2(a + b) == 2 * Pow2(a - 1 + b);
    }
  }

  lemma Pow2Monotone(a: nat, b: nat)
    requires a <= b
    ensures Pow2(a) <= Pow2(b)
  {
    Pow2Add(a, b - a);
    MulAtLeastOne(Pow2(b - a), Pow2(a));
  }

  lemma Pow2StrictMonotone(a: nat, b: nat)
    requires a < b
    ensures Pow2(a) < Pow2(b)
  {
    Pow2Monotone(a + 1, b);
  }

  lemma MulAtLeastOne(m: int, d: int)
    requires m >= 1 && d >= 0
    ensures m * d >= d
  {
    assert m * d == (m - 1) * d + d;
  }

  lemma MulMonotone(a: int, b: int, d: int)
    requires a <= b && d >= 0
    ensures a * d <= b * d
  {
    assert b * d == a * d + (b - a) * d;
  }

  lemma DivModIdentity(x: int, d: int)
    requires d > 0
    ensures x == (x / d) * d + x % d
  {
  }

  lemma MulBelow(x: nat, ph: nat, pl: nat)
    requires x < ph && pl >= 1
    ensures 0 <= x * pl < ph * pl
  {
    MulMonotone(x + 1, ph, pl);
  }

  /** A two-digit number hi * pl + lo with digits below ph and pl is below ph * pl. */
  lemma DigitsFit(hi: nat, lo: nat, pl: nat, ph: nat)
    requires hi < ph && lo < pl
    ensures hi * pl + lo < ph * pl
  {
    MulMonotone(hi + 1, ph, pl);
  }

  /** Packing a high digit (below ph) and a low digit (below pi) above po
      zero positions: the fields do not overlap and the result is below po * pi * ph. */
  lemma PackFields(hi: nat, lo: nat, po: nat, pi: nat, ph: nat)
    requires po >= 1 && pi >= 1 && hi < ph && lo < pi
    ensures hi * (po * pi) + lo * po == (hi * pi + lo) * po
    ensures 0 <= lo * po < po * pi
    ensures hi * (po * pi) < (po * pi) * ph
    ensures (hi * pi + lo) * po < (po * pi) * ph
  {
    DigitsFit(hi, lo, pi, ph);
    MulMonotone(hi * pi + lo + 1, ph * pi, po);
    MulMonotone(lo + 1, pi, po);
    MulMonotone(hi + 1, ph, po * pi);
  }

  /** Quotient and remainder are the unique pair with x == q * d + r, 0 <= r < d. */
  lemma DivModUnique(x: int, d: int, q: int, r: int)
    requires d > 0 && 0 <= r < d && x == q * d + r
    ensures x / d == q && x % d == r
  {
    var q0, r0 := x / d, x % d;
    assert x == q0 * d + r0;
    if q0 > q {
      MulAtLeastOne(q0 - q, d);
      assert false;
    } else if q0 < q {
      MulAtLeastOne(q - q0, d);
      assert false;
    }
  }

  /** The quotient of naturals is a natural. */
  lemma DivNonneg(x: nat, d: nat)
    requires d > 0
    ensures x / d >= 0
  {
    var q := x / d;
    DivModIdentity(x, d);
    if q < 0 {
      MulAtLeastOne(-q, d);
      assert false;
    }
  }

  /** A product of naturals, regrouped. */
  lemma MulNatAssoc(a: nat, b: nat, c: nat)
    ensures a * b >= 0
    ensures a * (b * c) == (a * b) * c
  {
  }

  /** Adding a multiple of m does not change the remainder modulo m. */
  lemma ModAddMultiple(k: nat, m: nat, y: nat)
    requires m > 0
    ensures (k * m + y) % m == y % m
  {
    DivModIdentity(y, m);
    assert k * m + y == (k + y / m) * m + y % m;
    DivModUnique(k * m + y, m, k + y / m, y % m);
  }

  /** Reducing a factor modulo m first does not change the product's remainder. */
  lemma ModMulLeft(a: nat, b: nat, m: nat)
    requires m > 0
    ensures ((a % m) * b) % m == (a * b) % m
  {
    var q, r := a / m, a % m;
    DivModIdentity(a, m);
    DivNonneg(a, m);
    assert a * b == (q * b) * m + r * b by {
      assert a * b == (q * m + r) * b;
    }
    ModAddMultiple(q * b, m, r * b);
  }

  lemma SmallDivMod(x: int, d: int)
    requires 0 <= x < d
    ensures x / d == 0 && x % d == x
  {
    DivModUnique(x, d, 0, x);
  }

  lemma MulDivExact(q: nat, d: nat)
    requires d > 0
    ensures (q * d) / d == q && (q * d) % d == 0
  {
    DivModUnique(q * d, d, q, 0);
  }

  /** x / a / b == x / (a * b) and the middle digits (x % (a * b)) / a == (x / a) % b. */
  lemma DivDivMod(x: nat, a: nat, b: nat)
    requires a > 0 && b > 0
    ensures x / a / b == x / (a * b)
    ensures (x % (a * b)) / a == (x / a) % b
  {
    var q1, r1 := x / a, x % a;
    var q2, r2 := q1 / b, q1 % b;
    assert x == q1 * a + r1;
    assert q1 == q2 * b + r2;
    assert x == q2 * (a * b) + (r2 * a + r1) by {
      assert q1 * a == (q2 * b + r2) * a;
      assert (q2 * b + r2) * a == q2 * (a * b) + r2 * a;
    }
    MulMonotone(r2, b - 1, a);
    assert (b - 1) * a == a * b - a;
    DivModUnique(x, a * b, q2, r2 * a + r1);
    DivModUnique(r2 * a + r1, a, r2, r1);
  }

  /** Scaling dividend and divisor by the same c keeps the quotient and scales the remainder. */
  lemma MulScaleDivMod(x: nat, m: nat, c: nat)
    requires m > 0 && c > 0
    ensures (x * c) / (m * c) == x / m
    ensures (x * c) % (m * c) == (x % m) * c
  {
    var q, r := x / m, x % m;
    assert x == q * m + r;
    assert x * c == q * (m * c) + r * c by {
      assert x * c == (q * m + r) * c;
    }
    MulMonotone(r, m - 1, c);
    assert (m - 1) * c == m * c - c;
    DivModUnique(x * c, m * c, q, r * c);
  }

  /** A dividend below m * d has a quotient below m. */
  lemma DivBelow(x: nat, m: nat, d: nat)
    requires d > 0
    ensures x < m * d ==> x / d < m
  {
    if x < m * d && x / d >= m {
      MulMonotone(m, x / d, d);
      assert false;
    }
  }
}
