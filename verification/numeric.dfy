/** Exact-arithmetic counterparts of the Python numeric built-ins the tool uses. */
module Numeric {

  /** Python 3's `round(x)`: the nearest integer, a tie going to the even one. */
  function RoundHalfEven(x: real): (n: int)
    ensures x - 0.5 <= n as real <= x + 0.5
    ensures (n as real == x + 0.5 || n as real == x - 0.5) ==> n % 2 == 0
  {
    var f := x.Floor;
    var d := x - f as real;
    if d < 0.5 then f
    else if d > 0.5 then f + 1
    else if f % 2 == 0 then f else f + 1
  }

  /** The two properties above pin the result down: any integer with them is
      the one RoundHalfEven picks. */
  lemma RoundHalfEvenUnique(x: real, n: int)
    requires x - 0.5 <= n as real <= x + 0.5
    requires (n as real == x + 0.5 || n as real == x - 0.5) ==> n % 2 == 0
    ensures n == RoundHalfEven(x)
  {
  }

  /** Rounding is monotone. */
  lemma RoundHalfEvenMonotone(x: real, y: real)
    requires x <= y
    ensures RoundHalfEven(x) <= RoundHalfEven(y)
  {
    var a, b := RoundHalfEven(x), RoundHalfEven(y);
    if a > b {
      assert a == b + 1;
      assert x == y;
    }
  }

  /** A quotient whose numerator is at most k times the positive divisor is
      at most k. */
  lemma RealDivAtMost(a: real, b: real, k: real)
    requires b > 0.0 && a <= k * b
    ensures a / b <= k
  {
    var q := a / b;
    assert q * b == a;
    if q > k {
      assert (q - k) * b > 0.0;
    }
  }

  function MaxReal(a: real, b: real): real {
    if a >= b then a else b
  }

  /** a = q * d + r with 0 <= r < d, by repeated subtraction. */
  function QuotRem(a: nat, d: nat): (qr: (nat, nat))
    requires d > 0
    ensures qr.1 < d && a == qr.0 * d + qr.1
    decreases a
  {
    if a < d then (0, a)
    else
      var p := QuotRem(a - d, d);
      (p.0 + 1, p.1)
  }

  /** A numerator of at most k times the divisor has a quotient of at most k. */
  lemma {:induction false} QuotAtMost(a: nat, d: nat, k: nat)
    requires d > 0 && a <= k * d
    ensures QuotRem(a, d).0 <= k
    decreases a
  {
    if a >= d {
      assert a - d <= (k - 1) * d;
      QuotAtMost(a - d, d, k - 1);
    }
  }

  /** An exact multiple divides without remainder. */
  lemma {:induction false} QuotOfMultiple(k: nat, d: nat)
    requires d > 0
    ensures QuotRem(k * d, d) == (k, 0)
    decreases k
  {
    if k > 0 {
      assert k * d - d == (k - 1) * d;
      QuotOfMultiple(k - 1, d);
    }
  }

  /** `round(a / d)` for naturals, computed on the quotient and remainder. */
  function RoundDiv(a: nat, d: nat): nat
    requires d > 0
  {
    var qr := QuotRem(a, d);
    if 2 * qr.1 < d then qr.0
    else if 2 * qr.1 > d then qr.0 + 1
    else if qr.0 % 2 == 0 then qr.0 else qr.0 + 1
  }

  /** Rounding a quotient of at most k gives at most k. */
  lemma RoundDivAtMost(a: nat, d: nat, k: nat)
    requires d > 0 && a <= k * d
    ensures RoundDiv(a, d) <= k
  {
    QuotAtMost(a, d, k);
    var qr := QuotRem(a, d);
    if qr.0 == k {
      assert a == k * d + qr.1;
    }
  }

  lemma SignOfProduct(y: real, p: real)
    requires p > 0.0
    ensures y < 0.0 <==> y * p < 0.0
    ensures y == 0.0 <==> y * p == 0.0
  {
  }

  lemma Quotient(q: nat, r: nat, d: nat)
    requires d > 0
    ensures (q * d + r) as real / d as real == q as real + r as real / d as real
  {
    assert (q * d + r) as real == q as real * d as real + r as real;
  }

  lemma Fraction(r: nat, d: nat)
    requires r < d
    ensures 0.0 <= r as real / d as real < 1.0
    ensures r as real / d as real < 0.5 <==> 2 * r < d
    ensures r as real / d as real == 0.5 <==> 2 * r == d
  {
    var y := r as real / d as real;
    var dr := d as real;
    assert y * dr == r as real;
    SignOfProduct(y, dr);
    SignOfProduct(y - 1.0, dr);
    SignOfProduct(y - 0.5, dr);
    assert (y - 1.0) * dr == r as real - dr;
    assert (y - 0.5) * dr == r as real - 0.5 * dr;
  }

  /** The integer computation agrees with Python's `round` of the exact
      quotient. */
  lemma RoundDivIsRound(a: nat, d: nat)
    requires d > 0
    ensures RoundDiv(a, d) == RoundHalfEven(a as real / d as real)
  {
    var qr := QuotRem(a, d);
    Quotient(qr.0, qr.1, d);
    Fraction(qr.1, d);
    RoundHalfEvenUnique(a as real / d as real, RoundDiv(a, d));
  }

  lemma ScaleQuotient(x: real, dr: real)
    requires dr > 0.0
    ensures (100.0 * x) / dr == x / dr * 100.0
  {
  }

  /** Rounding 100 * t / d computed on integers agrees with Python rounding
      the float expression `t / d * 100`, taken exactly. */
  lemma RoundPercent(t: nat, d: nat)
    requires d > 0
    ensures RoundDiv(100 * t, d) == RoundHalfEven(t as real / d as real * 100.0)
  {
    assert (100 * t) as real == 100.0 * t as real;
    ScaleQuotient(t as real, d as real);
    RoundDivIsRound(100 * t, d);
  }

  /** Quotient and remainder are unique. */
  lemma {:induction false} QuotRemUnique(a: nat, d: nat, q: nat, r: nat)
    requires d > 0 && r < d && a == q * d + r
    ensures QuotRem(a, d) == (q, r)
    decreases q
  {
    if q > 0 {
      assert q * d == (q - 1) * d + d;
      QuotRemUnique(a - d, d, q - 1, r);
    }
  }

  /** Rounding a larger quotient never gives less. */
  lemma RoundDivMonotone(a: nat, b: nat, d: nat)
    requires d > 0 && a <= b
    ensures RoundDiv(a, d) <= RoundDiv(b, d)
  {
    var dr := d as real;
    var x, y := a as real / dr, b as real / dr;
    assert (y - x) * dr == b as real - a as real;
    SignOfProduct(y - x, dr);
    RoundDivIsRound(a, d);
    RoundDivIsRound(b, d);
    RoundHalfEvenMonotone(x, y);
  }

  /** A larger dividend never has a smaller quotient. */
  lemma {:induction false} QuotMonotone(a: nat, b: nat, d: nat)
    requires d > 0 && a <= b
    ensures QuotRem(a, d).0 <= QuotRem(b, d).0
    decreases a
  {
    if a >= d {
      QuotMonotone(a - d, b - d, d);
    }
  }
}
