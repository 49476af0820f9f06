/** Decompression of a public key in Ed25519.sol (section 5.1.3 of RFC 8032): from the ordinate `y` and a
    sign bit to the abscissa `x`. `d` is the curve constant and `i` the square root of minus one. */
module PointDecoding {
  import opened Prelude
  import opened Arithmetic
  import opened Field25519

  /** The curve equation -x^2 + y^2 = 1 + d x^2 y^2 modulo p. */
  ghost predicate OnCurve(p: pos, d: nat, x: int, y: int) {
    Cong(y * y - x * x, 1 + d * (x * x) * (y * y), p)
  }

  /** The numerator and the denominator of x^2 as the contract computes them. */
  function U(p: pos, y: nat): nat { (Mul(p, y, y) + (p - 1)) % p }
  function V(p: pos, d: nat, y: nat): nat { Mul(p, Mul(p, y, y), d) + 1 }

  /** -1/d is not a square, so the denominator d y^2 + 1 is never zero. */
  ghost predicate NoPole(p: pos, d: nat) {
    forall y: nat {:trigger V(p, d, y)} :: V(p, d, y) % p != 0
  }

  lemma UIs(p: pos, y: nat)
    ensures Cong(U(p, y), y * y - 1, p)
  {
    CongMod(y * y, p);
    CongMod(Mul(p, y, y) + (p - 1), p);
    ModShift(Mul(p, y, y) - 1, 1, p);
    CongSub(Mul(p, y, y), y * y, 1, 1, p);
  }

  lemma VIs(p: pos, d: nat, y: nat)
    ensures Cong(V(p, d, y), d * (y * y) + 1, p)
  {
    CongMod(y * y, p);
    CongMod(Mul(p, y, y) * d, p);
    CongMul(Mul(p, y, y), y * y, d, d, p);
    CongAdd(Mul(p, Mul(p, y, y), d), (y * y) * d, 1, 1, p);
    assert (y * y) * d == d * (y * y);
  }

  /** `x^2 v = u` is the curve equation. */
  lemma RootIsPoint(p: pos, d: nat, x: int, y: nat)
    requires Cong(x * x * V(p, d, y), U(p, y), p)
    ensures OnCurve(p, d, x, y)
  {
    UIs(p, y);
    VIs(p, d, y);
    CongMul(x * x, x * x, V(p, d, y), d * (y * y) + 1, p);
    var l, r := x * x * (d * (y * y) + 1), y * y - 1;
    assert Cong(l, r, p);
    var z := 1 + d * (x * x) * (y * y);
    assert l == x * x + d * (x * x) * (y * y);
    CongSub(r, l, x * x - 1, x * x - 1, p);
  }

  /** ... and conversely. */
  lemma PointIsRoot(p: pos, d: nat, x: int, y: nat)
    requires OnCurve(p, d, x, y)
    ensures Cong(x * x * V(p, d, y), U(p, y), p)
  {
    UIs(p, y);
    VIs(p, d, y);
    CongMul(x * x, x * x, V(p, d, y), d * (y * y) + 1, p);
    var l, r := x * x * (d * (y * y) + 1), y * y - 1;
    assert l == x * x + d * (x * x) * (y * y);
    CongAdd(y * y - x * x, 1 + d * (x * x) * (y * y), x * x - 1, x * x - 1, p);
  }

  /** The root candidate u (u v)^e. */
  ghost function Candidate(u: nat, v: nat, e: nat, p: pos): nat {
    (u * Pow(u * v, e)) % p
  }

  /** What the candidate must satisfy: c^2 v is u or -u. */
  ghost predicate IsRoot(p: pos, c: nat, u: nat, v: nat) {
    var t := Mul(p, Mul(p, c, c), v);
    t == u || t == p - u
  }

  /** The exponent is (p - 5) / 8. */
  ghost predicate Decodable(p: pos, d: nat, y: nat) {
    IsRoot(p, Candidate(U(p, y), V(p, d, y), Pow2(252) - 3, p), U(p, y), V(p, d, y))
  }

  lemma SquareTimes(p: pos, x: nat, v: nat)
    ensures Cong(Mul(p, Mul(p, x, x), v), x * x * v, p)
  {
    CongMod(x * x, p);
    CongMod(Mul(p, x, x) * v, p);
    CongMul(Mul(p, x, x), x * x, v, v, p);
  }

  /** A root of -u times the root of -1 is a root of u. */
  lemma TurnedRoot(p: pos, i: nat, c: nat, v: nat, u: nat)
    requires Mul(p, i, i) == p - 1 && Cong(c * c * v, p - u, p)
    ensures Cong(Mul(p, c, i) * Mul(p, c, i) * v, u, p)
  {
    var x := Mul(p, c, i);
    CongMod(c * i, p);
    CongMul(x, c * i, x, c * i, p);
    CongMul(x * x, (c * i) * (c * i), v, v, p);
    assert (c * i) * (c * i) * v == (i * i) * (c * c * v) by {
      assert (c * i) * (c * i) == (i * i) * (c * c);
    }
    assert Cong(i * i, -1, p) by { ModShift(-1, 1, p); CongMod(i * i, p); }
    CongMul(i * i, -1, c * c * v, p - u, p);
    ModShift(u, -1, p);
    assert -1 * (p - u) == u + -1 * p;
  }

  lemma SquareOfDifference(p: int, x: int)
    ensures (p - x) * (p - x) == x * x + (p - 2 * x) * p
  {
  }

  /** The opposite abscissa has the same square. */
  lemma OppositeRoot(p: pos, x: nat, v: nat, u: nat)
    requires Cong(x * x * v, u, p)
    ensures Cong((p - x) * (p - x) * v, u, p)
  {
    SquareOfDifference(p, x);
    ModShift(x * x, p - 2 * x, p);
    CongMul((p - x) * (p - x), x * x, v, v, p);
  }

  /** The candidate by the addition chain: t^(2^250 - 1), two squarings, one product with t and one with u. */
  method RootCandidate(p: pos, u: nat, v: nat) returns (c: nat)
    ensures c == Candidate(u, v, Pow2(252) - 3, p)
  {
    var t := Mul(p, u, v);
    var kx, _ := Pow22501(p, t);
    kx := Square(p, kx, 2, t, Pow2(250) - 1);
    kx := TimesBase(p, kx, t, (Pow2(250) - 1) * Pow2(2));
    assert (Pow2(250) - 1) * Pow2(2) + 1 == Pow2(252) - 3 by {
      Pow2Add(250, 2);
      assert Pow2(2) == 4;
    }
    c := Mul(p, u, kx);
    PowMod(p, u * v, Pow2(252) - 3);
    CongMod(Pow(t, Pow2(252) - 3), p);
    CongMul(u, u, kx, Pow(u * v, Pow2(252) - 3), p);
  }

  lemma {:induction false} PowMod(p: pos, x: nat, e: nat)
    ensures Cong(Pow(x % p, e), Pow(x, e), p)
  {
    if e > 0 {
      PowMod(p, x, e - 1);
      CongMod(x, p);
      CongMul(x % p, x, Pow(x % p, e - 1), Pow(x, e - 1), p);
    }
  }

  /** The candidate for zero is zero. */
  lemma ZeroCandidate(p: pos, v: nat, e: nat)
    ensures Candidate(0, v, e, p) == 0 && Mul(p, Mul(p, 0, 0), v) == 0
  {
    assert 0 * Pow(0 * v, e) == 0;
    ModUnique(0, 0, p);
    assert Mul(p, 0, 0) == 0 && 0 * v == 0;
  }

  /** The candidate, turned by the root of -1 where that is needed. */
  method FindRoot(p: pos, i: nat, u: nat, v: nat) returns (x: Option<nat>)
    requires Mul(p, i, i) == p - 1
    ensures x.Some? <==> IsRoot(p, Candidate(u, v, Pow2(252) - 3, p), u, v)
    ensures x.Some? ==> x.value < p && Cong(x.value * x.value * v, u, p)
    ensures u == 0 ==> x == Some(0)
  {
    if u == 0 {
      ZeroCandidate(p, v, Pow2(252) - 3);
    }
    var kx := RootCandidate(p, u, v);
    var t := Mul(p, Mul(p, kx, kx), v);
    SquareTimes(p, kx, v);
    CongMod(kx * kx * v, p);
    if t != u {
      if t != p - u {
        return None;
      }
      TurnedRoot(p, i, kx, v, u);
      kx := Mul(p, kx, i);
    }
    x := Some(kx);
  }

  /** The abscissa that section 5.1.3 of RFC 8032 decodes: the ordinate is reduced, and a root of zero is refused
      when the sign bit is set. */
  ghost predicate RfcKey(p: pos, d: nat, x: nat, y: nat, sign: nat) {
    y < p && x < p && OnCurve(p, d, x, y) && x % 2 == sign && (x == 0 ==> sign == 0)
  }

  /** A key that the contract decodes as the RFC does: a reduced ordinate, and not a zero abscissa with the sign
      bit set. */
  predicate Canonical(p: pos, y: nat, sign: nat) {
    y < p && !(sign == 1 && (y * y) % p == 1)
  }

  /** Decoding a key with ordinate `y` (255 bits) and sign bit `sign`. A result is a point of the curve with
      the wanted parity. Neither an ordinate of p or more nor the abscissa zero with the sign bit set is
      refused; the latter, and nothing else, gives the unreduced abscissa p. */
  method DecodeX(p: pos, d: nat, i: nat, y: nat, sign: nat) returns (x: Option<nat>)
    requires p % 2 == 1 && p > 1 && Mul(p, i, i) == p - 1 && sign < 2
    ensures x.Some? <==> Decodable(p, d, y)
    ensures x.Some? ==> OnCurve(p, d, x.value, y)
    ensures x.Some? ==> x.value <= p && x.value % 2 == sign
    ensures x.Some? ==> (x.value == p <==> sign == 1 && (y * y) % p == 1)
    ensures x.Some? ==> (RfcKey(p, d, x.value, y, sign) <==> Canonical(p, y, sign))
  {
    var u, v := U(p, y), V(p, d, y);
    if (y * y) % p == 1 {
      UnitSquare(p, y);
    }
    var root := FindRoot(p, i, u, v);
    if root.None? {
      return None;
    }
    var kx := root.value;
    BothSigns(p, d, y, kx);
    if kx % 2 != sign {
      kx := p - kx;
    }
    x := Some(kx);
  }

  /** A root and its opposite are both abscissas, of opposite parity. */
  lemma BothSigns(p: pos, d: nat, y: nat, x: nat)
    requires p % 2 == 1 && p > 1 && x < p && Cong(x * x * V(p, d, y), U(p, y), p)
    ensures OnCurve(p, d, x, y) && OnCurve(p, d, p - x, y)
    ensures (p - x) % 2 == 1 - x % 2
    ensures x == 0 ==> (y * y) % p == 1
  {
    RootIsPoint(p, d, x, y);
    OppositeRoot(p, x, V(p, d, y), U(p, y));
    RootIsPoint(p, d, p - x, y);
    if x == 0 {
      ZeroRoot(p, y, V(p, d, y));
    }
    ParityFlips(p, x);
  }

  lemma ParityFlips(p: nat, x: nat)
    requires p % 2 == 1 && x <= p
    ensures (p - x) % 2 == 1 - x % 2
  {
    ModAdd(p - x, x, 2);
  }

  lemma UnitSquare(p: pos, y: nat)
    requires (y * y) % p == 1
    ensures U(p, y) == 0
  {
    ModUnique(1, 0, p);
  }

  lemma ZeroRoot(p: pos, y: nat, v: nat)
    requires p > 1 && Cong(0 * 0 * v, U(p, y), p)
    ensures (y * y) % p == 1
  {
    UIs(p, y);
    CongAdd(y * y - 1, 0, 1, 1, p);
    ModUnique(0, 1, p);
  }

  // ----- completeness: what is refused is not on the curve -----

  /** What the primality of p is used for: no zero divisors, and Fermat's little theorem. */
  ghost predicate PrimeField(p: pos) {
    && (forall a: nat, b: nat {:trigger Mul(p, a, b)} :: Mul(p, a, b) == 0 ==> a % p == 0 || b % p == 0)
    && (forall a: nat {:trigger Unit(p, a)} :: a % p != 0 ==> Unit(p, a))
  }

  lemma {:induction false} PowMul(b: nat, c: nat, e: nat)
    ensures Pow(b * c, e) == Pow(b, e) * Pow(c, e)
  {
    if e > 0 {
      PowMul(b, c, e - 1);
      Exchange(b, c, Pow(b, e - 1), Pow(c, e - 1));
    }
  }

  lemma Exchange(a: int, b: int, c: int, d: int)
    ensures (a * b) * (c * d) == (a * c) * (b * d)
  {
    assert (a * b) * (c * d) == a * (b * c) * d == (a * c) * (b * d);
  }

  lemma {:induction false} PowCong(p: pos, x: nat, y: nat, e: nat)
    requires Cong(x, y, p)
    ensures Cong(Pow(x, e), Pow(y, e), p)
  {
    PowMod(p, x, e);
    PowMod(p, y, e);
  }

  /** The square of the candidate: c^2 v = u (u v)^(2 e + 1). */
  lemma CandidateSquare(p: pos, u: nat, v: nat, e: nat, c: nat)
    requires c == (u * Pow(u * v, e)) % p
    ensures Cong(c * c * v, u * Pow(u * v, 2 * e + 1), p)
  {
    var w := u * Pow(u * v, e);
    CongMod(w, p);
    CongMul(c, w, c, w, p);
    CongMul(c * c, w * w, v, v, p);
    OddPower(u * v, e);
    Regroup(u, v, Pow(u * v, e));
  }

  lemma OddPower(b: nat, e: nat)
    ensures Pow(b, 2 * e + 1) == b * (Pow(b, e) * Pow(b, e))
  {
    PowAdd(b, e, e);
    assert Pow(b, 2 * e + 1) == b * Pow(b, 2 * e);
  }

  lemma Regroup(u: int, v: int, q: int)
    ensures (u * q) * (u * q) * v == u * ((u * v) * (q * q))
  {
    Exchange(u, q, u, q);
    Times3(u, u, q * q, v);
  }

  lemma Times3(a: int, b: int, c: int, d: int)
    ensures (a * b) * c * d == a * ((b * d) * c)
  {
    assert (a * b) * c == a * (b * c);
    assert a * (b * c) * d == a * (b * c * d);
    assert b * c * d == (b * d) * c;
  }

  lemma CandidateTest(p: pos, u: nat, v: nat, e: nat, c: nat)
    requires c == (u * Pow(u * v, e)) % p
    ensures Cong(Mul(p, Mul(p, c, c), v), u * Pow(u * v, 2 * e + 1), p)
  {
    CandidateSquare(p, u, v, e, c);
    SquareTimes(p, c, v);
  }

  /** In a field, a square that is one is the square of one or minus one. */
  lemma RootOfOne(p: pos, g: nat)
    requires PrimeField(p) && p > 1 && (g * g) % p == 1
    ensures g % p == 1 || g % p == p - 1
  {
    if g > 0 {
      assert (g - 1) * (g + 1) == g * g - 1;
      CongSub(g * g, 1, 1, 1, p);
      ModUnique(0, 1, p);
      assert Mul(p, g - 1, g + 1) == 0;
      if (g - 1) % p == 0 {
        CongAdd(g - 1, 0, 1, 1, p);
      } else {
        CongSub(g + 1, 0, 1, 1, p);
        ModShift(-1, 1, p);
        ModUnique(0, p - 1, p);
      }
    } else {
      ModUnique(0, 0, p);
    }
  }

  /** If u = x^2 v then the candidate passes. */
  lemma RootPasses(p: pos, x: nat, u: nat, v: nat, e: nat)
    requires PrimeField(p) && p > 1 && p - 1 == 4 * (2 * e + 1) && u < p
    requires Cong(x * x * v, u, p)
    ensures IsRoot(p, Candidate(u, v, e, p), u, v)
  {
    var c := Candidate(u, v, e, p);
    CandidateTest(p, u, v, e, c);
    TestPasses(p, x, u, v, 2 * e + 1, Mul(p, Mul(p, c, c), v));
  }

  /** The tested number `t` is u (u v)^n, and (u v)^n = (x v)^(2 n) is one or minus one. */
  lemma TestPasses(p: pos, x: nat, u: nat, v: nat, n: nat, t: nat)
    requires PrimeField(p) && p > 1 && p - 1 == 4 * n && u < p && t < p
    requires Cong(x * x * v, u, p) && Cong(t, u * Pow(u * v, n), p)
    ensures t == u || t == p - u
  {
    if (x * v) % p == 0 {
      ZeroFactor(p, x, u, v);
      ZeroTimes(p, t, Pow(u * v, n));
    } else {
      PowerOfProduct(p, x, u, v, n);
      HalfPower(p, x * v, n);
      SignedSquare(p, t, u, Pow(u * v, n), Pow(x * v, 2 * n));
    }
  }

  lemma ZeroTimes(p: pos, t: nat, w: nat)
    requires t < p && Cong(t, 0 * w, p)
    ensures t == 0
  {
    ModUnique(0, t, p);
    ModUnique(0, 0, p);
  }

  /** Half the order: w^((p - 1) / 2) is one or minus one. */
  lemma HalfPower(p: pos, w: nat, n: nat)
    requires PrimeField(p) && p > 1 && p - 1 == 4 * n && w % p != 0
    ensures Pow(w, 2 * n) % p == 1 || Pow(w, 2 * n) % p == p - 1
  {
    PowAdd(w, 2 * n, 2 * n);
    assert Unit(p, w);
    RootOfOne(p, Pow(w, 2 * n));
  }

  lemma SignedSquare(p: pos, t: nat, u: nat, w: nat, g: nat)
    requires p > 1 && t < p && u < p && Cong(t, u * w, p) && Cong(w, g, p) && (g % p == 1 || g % p == p - 1)
    ensures t == u || t == p - u
  {
    CongMul(u, u, w, g, p);
    TimesSign(p, u, g);
    ModUnique(0, t, p);
  }

  lemma ZeroFactor(p: pos, x: nat, u: nat, v: nat)
    requires u < p && Cong(x * x * v, u, p) && (x * v) % p == 0
    ensures u == 0
  {
    ModUnique(0, 0, p);
    CongMul(x, x, x * v, 0, p);
    assert x * x * v == x * (x * v);
    ModUnique(0, u, p);
  }

  /** (u v)^n = (x v)^(2 n). */
  lemma PowerOfProduct(p: pos, x: nat, u: nat, v: nat, n: nat)
    requires Cong(x * x * v, u, p)
    ensures Cong(Pow(u * v, n), Pow(x * v, 2 * n), p)
  {
    var w := x * v;
    CongMul(x * x * v, u, v, v, p);
    assert x * x * v * v == w * w;
    PowCong(p, u * v, w * w, n);
    PowMul(w, w, n);
    PowAdd(w, n, n);
  }

  lemma TimesSign(p: pos, u: nat, g: nat)
    requires u < p && p > 1 && (g % p == 1 || g % p == p - 1)
    ensures (u * g) % p == u || (u * g) % p == p - u
  {
    ModUnique(0, 1, p);
    ModUnique(0, p - 1, p);
    if g % p == 1 {
      CongMul(u, u, g, 1, p);
      ModUnique(0, u, p);
    } else {
      CongMul(u, u, g, p - 1, p);
      if u == 0 {
        ModUnique(0, 0, p);
      } else {
        assert u * (p - 1) == (u - 1) * p + (p - u);
        ModUnique(u - 1, p - u, p);
      }
    }
  }

  /** A key is refused exactly when no point of the curve has its ordinate. */
  lemma DecodesExactlyPoints(p: pos, d: nat, i: nat, y: nat)
    requires Is25519(p) && PrimeField(p) && Mul(p, i, i) == p - 1
    ensures Decodable(p, d, y) <==> exists x: nat :: OnCurve(p, d, x, y)
  {
    var u, v := U(p, y), V(p, d, y);
    var e := Pow2(252) - 3;
    var c := Candidate(u, v, e, p);
    Exponent(p, 252);
    if Decodable(p, d, y) {
      DecodedIsPoint(p, d, i, y, c);
    }
    if x: nat :| OnCurve(p, d, x, y) {
      PointIsRoot(p, d, x, y);
      RootPasses(p, x, u, v, e);
    }
  }

  lemma DecodedIsPoint(p: pos, d: nat, i: nat, y: nat, c: nat)
    requires Mul(p, i, i) == p - 1 && IsRoot(p, c, U(p, y), V(p, d, y))
    ensures exists x: nat :: OnCurve(p, d, x, y)
  {
    var u, v := U(p, y), V(p, d, y);
    SquareTimes(p, c, v);
    CongMod(c * c * v, p);
    if Mul(p, Mul(p, c, c), v) != u {
      TurnedRoot(p, i, c, v, u);
      RootIsPoint(p, d, Mul(p, c, i), y);
    } else {
      RootIsPoint(p, d, c, y);
    }
  }

  lemma Exponent(p: pos, n: nat)
    requires p == Pow2(n + 3) - 19 && n >= 2
    ensures p > 1 && p - 1 == 4 * (2 * (Pow2(n) - 3) + 1)
  {
    assert Pow2(n + 3) == 2 * Pow2(n + 2) == 4 * Pow2(n + 1) == 8 * Pow2(n);
    assert Pow2(n) == 2 * Pow2(n - 1) == 4 * Pow2(n - 2);
  }
}
