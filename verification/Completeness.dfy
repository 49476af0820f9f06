/** The addition law of the curve has no exceptional case: where -1 is a square modulo p and -1/d is not, neither
    denominator 1 + k nor 1 - k of two points is ever zero. */
module Completeness {
  import opened Arithmetic
  import opened Field25519
  import opened PointDecoding
  import opened Edwards

  /** -1 is a square and -1/d is not. */
  ghost predicate Proper(p: pos, d: nat) {
    p > 2 && NoPole(p, d) && exists i: nat :: Mul(p, i, i) == p - 1
  }

  // ----- d times a square -----

  lemma InverseOf(p: pos, b: int) returns (r: nat)
    requires PrimeField(p) && p > 2 && b % p != 0
    ensures Cong(b * r, 1, p)
  {
    var x := b % p;
    CongMod(b, p);
    assert Unit(p, x);
    r := Pow(x, p - 2) % p;
    InvertIsInverse(p, x, r);
    ModUnique(0, 1, p);
    CongMul(b, x, r, r, p);
  }

  lemma Squared4(i: int, a: int, r: int)
    ensures ((i * a) * r) * ((i * a) * r) == (i * i) * ((a * a) * (r * r))
  {
    Exchange(i * a, r, i * a, r);
    Exchange(i, a, i, a);
    Associate(i * i, a * a, r * r);
  }

  /** With y = i a / b, d y^2 would be -1. */
  lemma PoleAt(p: pos, d: nat, i: int, a: int, b: int, r: int)
    requires Cong(i * i, -1, p) && Cong(d * (a * a), b * b, p) && Cong(b * r, 1, p)
    ensures Cong(d * (((i * a) * r) * ((i * a) * r)), -1, p)
  {
    var s := (a * a) * (r * r);
    Squared4(i, a, r);
    CongMul(i * i, -1, s, s, p);
    CongMul(d, d, (i * i) * s, -1 * s, p);
    assert d * (-1 * s) == -1 * (d * s);
    Associate(d, a * a, r * r);
    CongMul(d * (a * a), b * b, r * r, r * r, p);
    Exchange(b, b, r, r);
    CongMul(b * r, 1, b * r, 1, p);
    CongMul(-1, -1, d * s, 1, p);
  }

  /** d times a square is a square only for zero. */
  lemma SquareIsZero(p: pos, d: nat, i: int, a: int, b: int)
    requires PrimeField(p) && p > 2 && NoPole(p, d) && Cong(i * i, -1, p) && Cong(d * (a * a), b * b, p)
    ensures b % p == 0
  {
    if b % p != 0 {
      var r := InverseOf(p, b);
      PoleAt(p, d, i, a, b, r);
      var z := (i * a) * r;
      var y := z % p;
      CongMod(z, p);
      CongMul(y, z, y, z, p);
      CongMul(d, d, y * y, z * z, p);
      VIs(p, d, y);
      CongAdd(d * (y * y), -1, 1, 1, p);
      ModUnique(0, 0, p);
    }
  }

  // ----- the denominators -----

  /** -x^2 + y^2, with the root of -1 for the sign. */
  lemma Rooted(p: pos, d: nat, i: int, x: int, y: int)
    requires Cong(i * i, -1, p) && OnCurve(p, d, x, y)
    ensures Cong((i * i) * (x * x) + y * y, 1 + d * ((x * y) * (x * y)), p)
  {
    CongMul(i * i, -1, x * x, x * x, p);
    CongAdd((i * i) * (x * x), -1 * (x * x), y * y, y * y, p);
    CurveCross(d, x, y);
    var c := x * y;
    assert Cross(d, x, y, x, y) == d * c * c == d * (c * c);
  }

  lemma Binomial(u: int, v: int)
    ensures (u + v) * (u + v) == u * u + v * v + 2 * (u * v)
  {
  }

  /** (i x + e y)^2 for e = 1 or e = -1. */
  lemma LeftSquare(i: int, e: int, x: int, y: int)
    requires e * e == 1
    ensures (i * x + e * y) * (i * x + e * y) == ((i * i) * (x * x) + y * y) + 2 * (i * (e * (x * y)))
  {
    Binomial(i * x, e * y);
    Exchange(i, x, i, x);
    Exchange(e, y, e, y);
    Exchange(i, x, e, y);
    Associate(i, e, x * y);
  }

  /** If k = e then d a^2 (i x2 + y2)^2 = (i x1 + e y1)^2, where a = x1 y1. */
  lemma SquaresMeet(p: pos, d: nat, i: int, e: int, x1: int, y1: int, x2: int, y2: int)
    requires Cong(i * i, -1, p) && e * e == 1 && OnCurve(p, d, x1, y1) && OnCurve(p, d, x2, y2)
    requires Cong(Cross(d, x1, y1, x2, y2), e, p)
    ensures var s := (x1 * y1) * (i * x2 + y2);
            Cong(d * (s * s), (i * x1 + e * y1) * (i * x1 + e * y1), p)
  {
    var a, b := x1 * y1, x2 * y2;
    var m, n := (i * i) * (x1 * x1) + y1 * y1, (i * i) * (x2 * x2) + y2 * y2;
    Rooted(p, d, i, x1, y1);
    Rooted(p, d, i, x2, y2);
    LeftSquare(i, e, x1, y1);
    LeftSquare(i, 1, x2, y2);
    Exchange(a, i * x2 + y2, a, i * x2 + y2);
    Meet(p, d, i, e, a, b, m, n);
  }

  /** The same on plain numbers: m = 1 + d a^2, n = 1 + d b^2 and d a b = e. */
  lemma Meet(p: pos, d: nat, i: int, e: int, a: int, b: int, m: int, n: int)
    requires e * e == 1 && Cong(d * a * b, e, p) && Cong(m, 1 + d * (a * a), p) && Cong(n, 1 + d * (b * b), p)
    ensures Cong(d * ((a * a) * (n + 2 * (i * b))), m + 2 * (i * (e * a)), p)
  {
    var q, k := d * (a * a), d * a * b;
    CongMul(q, q, n, 1 + d * (b * b), p);
    Shuffle(d, a, b, n, i);
    CongMul(k, e, k, e, p);
    CongAdd(q, q, k * k, 1, p);
    CongMul(i * a, i * a, k, e, p);
    CongMul(2, 2, (i * a) * k, (i * a) * e, p);
    CongAdd(q * n, q + 1, 2 * ((i * a) * k), 2 * ((i * a) * e), p);
    CongAdd(m, 1 + q, 2 * (i * (e * a)), 2 * (i * (e * a)), p);
    assert (i * a) * e == i * (e * a) by { Associate(i, a, e); }
  }

  lemma Shuffle(d: int, a: int, b: int, n: int, i: int)
    ensures var q, k := d * (a * a), d * a * b;
            q * (1 + d * (b * b)) == q + k * k && d * ((a * a) * (n + 2 * (i * b))) == q * n + 2 * ((i * a) * k)
  {
    var q, k := d * (a * a), d * a * b;
    assert q * (1 + d * (b * b)) == q + q * (d * (b * b));
    Exchange(d, a * a, d, b * b);
    Exchange(a, a, b, b);
    Exchange(d, a * b, d, a * b);
    Associate(d, a, b);
    Associate(d, a * a, n + 2 * (i * b));
    assert q * (n + 2 * (i * b)) == q * n + 2 * (q * (i * b));
    CrossTerm(d, a, b, i);
  }

  lemma CrossTerm(d: int, a: int, b: int, i: int)
    ensures (d * (a * a)) * (i * b) == (i * a) * (d * a * b)
  {
    Exchange(d * a, a, i, b);
    Associate(d, a, a);
    Exchange(i, a, d * a, b);
    assert (d * a) * i == i * (d * a);
  }

  lemma NoneZero(p: pos, i: int, e: int, x: int, y: int)
    requires PrimeField(p) && p > 2 && e * e == 1 && (i * x + e * y) % p == 0 && (-i * x + e * y) % p == 0
    ensures y % p == 0
  {
    ModUnique(0, 0, p);
    CongAdd(i * x + e * y, 0, -i * x + e * y, 0, p);
    assert (i * x + e * y) + (-i * x + e * y) == 2 * (e * y) by { assert -i * x == -(i * x); }
    if y % p != 0 {
      ModUnique(0, 2, p);
      Signed(p, e);
      NonZeroProduct(p, e, y);
      NonZeroProduct(p, 2, e * y);
    }
  }

  lemma Signed(p: pos, e: int)
    requires p > 2 && e * e == 1
    ensures e == 1 || e == -1
    ensures e % p != 0
  {
    if e > 1 {
      MulAtLeast(e, e);
    } else if e < -1 {
      MulAtLeast(-e, -e);
    }
    ModUnique(0, 1, p);
    ModUnique(-1, p - 1, p);
  }

  /** k is neither 1 nor -1. */
  lemma NeverSigned(p: pos, d: nat, i: int, e: int, x1: int, y1: int, x2: int, y2: int)
    requires PrimeField(p) && p > 2 && NoPole(p, d) && Cong(i * i, -1, p) && e * e == 1
    requires OnCurve(p, d, x1, y1) && OnCurve(p, d, x2, y2)
    ensures !Cong(Cross(d, x1, y1, x2, y2), e, p)
  {
    if Cong(Cross(d, x1, y1, x2, y2), e, p) {
      var j := -i;
      assert j * j == i * i;
      SquaresMeet(p, d, i, e, x1, y1, x2, y2);
      SquareIsZero(p, d, i, (x1 * y1) * (i * x2 + y2), i * x1 + e * y1);
      SquaresMeet(p, d, j, e, x1, y1, x2, y2);
      SquareIsZero(p, d, j, (x1 * y1) * (j * x2 + y2), j * x1 + e * y1);
      NoneZero(p, i, e, x1, y1);
      CrossVanishes(p, d, x1, y1, x2, y2);
      Signed(p, e);
    }
  }

  lemma CrossVanishes(p: pos, d: nat, x1: int, y1: int, x2: int, y2: int)
    requires y1 % p == 0
    ensures Cross(d, x1, y1, x2, y2) % p == 0
  {
    ModUnique(0, 0, p);
    CongMul(x1, x1, y1, 0, p);
    CongMul(d, d, x1 * y1, 0, p);
    CongMul(d * (x1 * y1), 0, x2 * y2, x2 * y2, p);
  }

  /** Two points of the curve never meet a zero denominator. */
  lemma Complete(p: pos, d: nat, x1: int, y1: int, x2: int, y2: int)
    requires PrimeField(p) && Proper(p, d) && OnCurve(p, d, x1, y1) && OnCurve(p, d, x2, y2)
    ensures var k := Cross(d, x1, y1, x2, y2); (1 + k) % p != 0 && (1 - k) % p != 0
  {
    var i: nat :| Mul(p, i, i) == p - 1;
    var k := Cross(d, x1, y1, x2, y2);
    assert Cong(i * i, -1, p) by { ModShift(-1, 1, p); CongMod(i * i, p); }
    NeverSigned(p, d, i, 1, x1, y1, x2, y2);
    NeverSigned(p, d, i, -1, x1, y1, x2, y2);
    ModUnique(0, 0, p);
    if (1 + k) % p == 0 {
      CongSub(1 + k, 0, 1, 1, p);
    }
    if (1 - k) % p == 0 {
      CongSub(1, 1, 1 - k, 0, p);
    }
  }
}
