/** Point arithmetic of Ed25519.sol on the curve -x^2 + y^2 = 1 + d x^2 y^2 modulo p. The contract keeps a
    point as two fractions x/u and y/v. Its formulas are compared with the addition law of the curve, for
    any abelian group of points that obeys the law. */
module Edwards {
  import opened Prelude
  import opened Arithmetic
  import opened Field25519
  import opened PointDecoding

  // ----- unchecked 256-bit arithmetic -----

  const W: nat := MAX_U256 + 1

  /** `a + b` of the contract, where it cannot wrap. */
  function Plus(a: nat, b: nat): (r: nat)
    requires a + b < W
    ensures r == a + b
  {
    (a + b) % W
  }

  /** `a - b + p` of the contract: the difference may wrap, the sum wraps it back. */
  function Minus(p: pos, a: nat, b: nat): (r: nat)
    requires a < p && b <= p && 2 * p <= W
    ensures r == a - b + p
  {
    ModShift(a - b + p, 1, W);
    ((a - b) % W + p) % W
  }

  // ----- the addition law -----

  /** The product in the denominators of the law. */
  ghost function Cross(d: nat, x1: int, y1: int, x2: int, y2: int): int {
    d * (x1 * y1) * (x2 * y2)
  }

  /** (x3, y3) is (x1, y1) + (x2, y2) by the law of section 5.1.4 of RFC 8032, multiplied out. */
  ghost predicate Law(p: pos, d: nat, x1: int, y1: int, x2: int, y2: int, x3: int, y3: int) {
    var k := Cross(d, x1, y1, x2, y2);
    && Cong(x3 * (1 + k), x1 * y2 + y1 * x2, p)
    && Cong(y3 * (1 - k), y1 * y2 + x1 * x2, p)
  }

  /** ... and no denominator of the law is zero, so that it determines the sum. */
  ghost predicate Sum(p: pos, d: nat, x1: int, y1: int, x2: int, y2: int, x3: int, y3: int) {
    var k := Cross(d, x1, y1, x2, y2);
    && Law(p, d, x1, y1, x2, y2, x3, y3)
    && (1 + k) % p != 0
    && (1 - k) % p != 0
  }

  // ----- the contract's representations -----

  /** The point (x / u, y / v). */
  datatype Quad = Quad(x: nat, u: nat, y: nat, v: nat)

  /** A table entry: (y + x) / 2, (y - x) / 2 and d x y. */
  datatype Entry = Entry(s: nat, d: nat, t: nat)

  ghost predicate At(p: pos, q: Quad, x: int, y: int) {
    && Cong(q.x, x * q.u, p)
    && Cong(q.y, y * q.v, p)
    && q.u % p != 0 && q.v % p != 0
  }

  ghost predicate Half(p: pos, h: nat) {
    Cong(2 * h, 1, p)
  }

  ghost predicate EntryAt(p: pos, d: nat, h: nat, e: Entry, x: int, y: int) {
    && Cong(e.s, h * (y + x), p)
    && Cong(e.d, h * (y - x), p)
    && Cong(e.t, d * (x * y), p)
  }

  // ----- congruences -----

  lemma MulIs(p: pos, a: nat, a': int, b: nat, b': int)
    requires Cong(a, a', p) && Cong(b, b', p)
    ensures Cong(Mul(p, a, b), a' * b', p)
  {
    CongMod(a * b, p);
    CongMul(a, a', b, b', p);
  }

  lemma NonZeroProduct(p: pos, a: int, b: int)
    requires PrimeField(p) && a % p != 0 && b % p != 0
    ensures (a * b) % p != 0
  {
    ModMul(a, b, p);
    CongMod(a, p);
    CongMod(b, p);
    var m := Mul(p, a % p, b % p);
  }

  /** x = w n and u = w k, where s k = n: then x / u = s. */
  lemma OverScale(p: pos, x: nat, u: nat, s: int, k: int, n: int, w: int)
    requires PrimeField(p) && w % p != 0 && k % p != 0
    requires Cong(s * k, n, p) && Cong(x, w * n, p) && Cong(u, w * k, p)
    ensures Cong(x, s * u, p) && u % p != 0
  {
    CongMul(w, w, s * k, n, p);
    CongMul(s, s, u, w * k, p);
    assert s * (w * k) == w * (s * k);
    NonZeroProduct(p, w, k);
  }

  /** A quadruple over a common scale is the sum. */
  lemma ScaledSum(p: pos, d: nat, x1: int, y1: int, x2: int, y2: int, x3: int, y3: int, q: Quad, w: int)
    requires PrimeField(p) && Sum(p, d, x1, y1, x2, y2, x3, y3) && w % p != 0
    requires Cong(q.x, w * (x1 * y2 + y1 * x2), p) && Cong(q.u, w * (1 + Cross(d, x1, y1, x2, y2)), p)
    requires Cong(q.y, w * (y1 * y2 + x1 * x2), p) && Cong(q.v, w * (1 - Cross(d, x1, y1, x2, y2)), p)
    ensures At(p, q, x3, y3)
  {
    var k := Cross(d, x1, y1, x2, y2);
    OverScale(p, q.x, q.u, x3, 1 + k, x1 * y2 + y1 * x2, w);
    OverScale(p, q.y, q.v, y3, 1 - k, y1 * y2 + x1 * x2, w);
  }

  /** From fractions to a common denominator: X = x w, Y = y w, Z = w and T = x y w with w = u v. */
  datatype Projective = Projective(x: nat, y: nat, z: nat, t: nat)

  function Project(p: pos, q: Quad): Projective {
    Projective(Mul(p, q.x, q.v), Mul(p, q.y, q.u), Mul(p, q.u, q.v), Mul(p, q.x, q.y))
  }

  lemma ProjectIs(p: pos, q: Quad, x: int, y: int)
    requires PrimeField(p) && At(p, q, x, y)
    ensures var r, w := Project(p, q), q.u * q.v;
      && Cong(r.x, w * x, p) && Cong(r.y, w * y, p) && Cong(r.z, w, p) && Cong(r.t, w * (x * y), p)
      && w % p != 0
  {
    var w := q.u * q.v;
    MulIs(p, q.x, x * q.u, q.v, q.v);
    MulIs(p, q.y, y * q.v, q.u, q.u);
    MulIs(p, q.u, q.u, q.v, q.v);
    MulIs(p, q.x, x * q.u, q.y, y * q.v);
    assert x * q.u * q.v == w * x;
    assert y * q.v * q.u == w * y;
    Exchange(x, q.u, y, q.v);
    assert w * (x * y) == (x * y) * w;
    NonZeroProduct(p, q.u, q.v);
  }

  // ----- adding and subtracting a table entry -----

  function AddEntry(p: pos, q: Quad, e: Entry): Quad
    requires 2 * p <= W
  {
    var r := Project(p, q);
    var ws, wd := Plus(r.y, r.x), Minus(p, r.y, r.x);
    var aa, ab, ac := Mul(p, wd, e.d), Mul(p, ws, e.s), Mul(p, r.t, e.t);
    Quad(Minus(p, ab, aa), Plus(r.z, ac), Plus(ab, aa), Minus(p, r.z, ac))
  }

  function SubEntry(p: pos, q: Quad, e: Entry): Quad
    requires 2 * p <= W
  {
    var r := Project(p, q);
    var ws, wd := Plus(r.y, r.x), Minus(p, r.y, r.x);
    var aa, ab, ac := Mul(p, wd, e.s), Mul(p, ws, e.d), Mul(p, r.t, e.t);
    Quad(Minus(p, ab, aa), Minus(p, r.z, ac), Plus(ab, aa), Plus(r.z, ac))
  }

  lemma SumDiffIs(p: pos, w: int, x: int, y: int, a: nat, b: nat)
    requires Cong(a, w * y, p) && Cong(b, w * x, p)
    ensures Cong(a + b, w * (y + x), p) && Cong(a - b + p, w * (y - x), p)
  {
    CongAdd(a, w * y, b, w * x, p);
    CongSub(a, w * y, b, w * x, p);
    assert w * y + w * x == w * (y + x);
    assert w * y - w * x == w * (y - x);
    ModShift(a - b, 1, p);
  }

  /** The two numerators of the law from two products. */
  lemma Numerators(p: pos, w: int, g: int, w': int, x1: int, y1: int, x2: int, y2: int,
                   ws: nat, wd: nat, s: nat, d: nat)
    requires Cong(ws, w * (y1 + x1), p) && Cong(wd, w * (y1 - x1), p)
    requires Cong(s, g * (y2 + x2), p) && Cong(d, g * (y2 - x2), p)
    requires Cong(2 * (w * g), w', p)
    ensures Cong(Mul(p, ws, s) - Mul(p, wd, d) + p, w' * (x1 * y2 + y1 * x2), p)
    ensures Cong(Mul(p, ws, s) + Mul(p, wd, d), w' * (y1 * y2 + x1 * x2), p)
  {
    var ab, aa := Mul(p, ws, s), Mul(p, wd, d);
    var m, n := (y1 + x1) * (y2 + x2), (y1 - x1) * (y2 - x2);
    MulIs(p, ws, w * (y1 + x1), s, g * (y2 + x2));
    Exchange(w, y1 + x1, g, y2 + x2);
    MulIs(p, wd, w * (y1 - x1), d, g * (y2 - x2));
    Exchange(w, y1 - x1, g, y2 - x2);
    SumDiffIs(p, w * g, n, m, ab, aa);
    Expand4(x1, y1, x2, y2);
    Twice(p, w * g, w', x1 * y2 + y1 * x2, m - n);
    Twice(p, w * g, w', y1 * y2 + x1 * x2, m + n);
  }

  lemma Expand4(x1: int, y1: int, x2: int, y2: int)
    ensures (y1 + x1) * (y2 + x2) - (y1 - x1) * (y2 - x2) == 2 * (x1 * y2 + y1 * x2)
    ensures (y1 + x1) * (y2 + x2) + (y1 - x1) * (y2 - x2) == 2 * (y1 * y2 + x1 * x2)
  {
    assert (y1 + x1) * (y2 + x2) == y1 * y2 + y1 * x2 + x1 * y2 + x1 * x2;
    assert (y1 - x1) * (y2 - x2) == y1 * y2 - y1 * x2 - x1 * y2 + x1 * x2;
  }

  lemma Twice(p: pos, v: int, w': int, n: int, m: int)
    requires Cong(2 * v, w', p) && m == 2 * n
    ensures Cong(v * m, w' * n, p)
  {
    CongMul(2 * v, w', n, n, p);
    assert 2 * v * n == v * m;
  }

  /** The two denominators. */
  lemma Denominators(p: pos, w: int, k: int, z: nat, ac: nat)
    requires Cong(z, w, p) && Cong(ac, w * k, p)
    ensures Cong(z + ac, w * (1 + k), p) && Cong(z - ac + p, w * (1 - k), p)
  {
    assert w == w * 1;
    SumDiffIs(p, w, k, 1, z, ac);
  }

  lemma CrossIs(w: int, d: nat, x1: int, y1: int, x2: int, y2: int)
    ensures (w * (x1 * y1)) * (d * (x2 * y2)) == w * Cross(d, x1, y1, x2, y2)
    ensures Cross(d, x1, y1, -x2, y2) == -Cross(d, x1, y1, x2, y2)
  {
    Exchange(w, x1 * y1, d, x2 * y2);
    var a, b := x1 * y1, x2 * y2;
    assert (w * a) * (d * b) == w * (d * a * b);
    assert (-x2) * y2 == -b;
    assert d * a * (-b) == -(d * a * b);
  }

  /** `AddEntry` is addition. */
  lemma AddEntryIs(p: pos, d: nat, h: nat, q: Quad, e: Entry,
                   x1: int, y1: int, x2: int, y2: int, x3: int, y3: int)
    requires PrimeField(p) && 2 * p <= W && Half(p, h)
    requires At(p, q, x1, y1) && EntryAt(p, d, h, e, x2, y2) && Sum(p, d, x1, y1, x2, y2, x3, y3)
    ensures At(p, AddEntry(p, q, e), x3, y3)
  {
    var r, w := Project(p, q), q.u * q.v;
    ProjectIs(p, q, x1, y1);
    SumDiffIs(p, w, x1, y1, r.y, r.x);
    Halving(p, h, w);
    Numerators(p, w, h, w, x1, y1, x2, y2, r.y + r.x, r.y - r.x + p, e.s, e.d);
    MulIs(p, r.t, w * (x1 * y1), e.t, d * (x2 * y2));
    CrossIs(w, d, x1, y1, x2, y2);
    Denominators(p, w, Cross(d, x1, y1, x2, y2), r.z, Mul(p, r.t, e.t));
    ScaledSum(p, d, x1, y1, x2, y2, x3, y3, AddEntry(p, q, e), w);
  }

  lemma Halving(p: pos, h: nat, w: int)
    requires Half(p, h)
    ensures Cong(2 * (w * h), w, p)
  {
    CongMul(2 * h, 1, w, w, p);
    assert 2 * h * w == 2 * (w * h);
  }

  /** `SubEntry` is addition of the opposite point. */
  lemma SubEntryIs(p: pos, d: nat, h: nat, q: Quad, e: Entry,
                   x1: int, y1: int, x2: int, y2: int, x3: int, y3: int)
    requires PrimeField(p) && 2 * p <= W && Half(p, h)
    requires At(p, q, x1, y1) && EntryAt(p, d, h, e, x2, y2) && Sum(p, d, x1, y1, -x2, y2, x3, y3)
    ensures At(p, SubEntry(p, q, e), x3, y3)
  {
    assert y2 + x2 == y2 - (-x2) && y2 - x2 == y2 + (-x2);
    CrossIs(1, d, x1, y1, x2, y2);
    SubEntryAt(p, d, h, q, e, x1, y1, x2, -x2, y2, x3, y3);
  }

  lemma SubEntryAt(p: pos, d: nat, h: nat, q: Quad, e: Entry,
                   x1: int, y1: int, x2: int, m: int, y2: int, x3: int, y3: int)
    requires PrimeField(p) && 2 * p <= W && Half(p, h)
    requires At(p, q, x1, y1) && Sum(p, d, x1, y1, m, y2, x3, y3)
    requires Cong(e.d, h * (y2 + m), p) && Cong(e.s, h * (y2 - m), p) && Cong(e.t, d * (x2 * y2), p)
    requires Cross(d, x1, y1, m, y2) == -Cross(d, x1, y1, x2, y2)
    ensures At(p, SubEntry(p, q, e), x3, y3)
  {
    var r, w := Project(p, q), q.u * q.v;
    ProjectIs(p, q, x1, y1);
    SumDiffIs(p, w, x1, y1, r.y, r.x);
    Halving(p, h, w);
    Numerators(p, w, h, w, x1, y1, m, y2, r.y + r.x, r.y - r.x + p, e.d, e.s);
    MulIs(p, r.t, w * (x1 * y1), e.t, d * (x2 * y2));
    CrossIs(w, d, x1, y1, x2, y2);
    Denominators(p, w, Cross(d, x1, y1, x2, y2), r.z, Mul(p, r.t, e.t));
    ScaledSum(p, d, x1, y1, m, y2, x3, y3, SubEntry(p, q, e), w);
  }

  // ----- doubling -----

  function Double(p: pos, q: Quad): Quad
    requires 2 * p <= W
  {
    var r := Project(p, q);
    var xx2, yy2, xxyy, zz2 := Mul(p, r.x, r.x), Mul(p, r.y, r.y), Mul(p, r.x, r.y), Mul(p, r.z, r.z);
    var u := Minus(p, yy2, xx2);
    Quad(Plus(xxyy, xxyy), u, Plus(xx2, yy2), (Plus(zz2, zz2) + (2 * p - u)) % p)
  }

  /** `Double` is addition of a point of the curve to itself. */
  lemma DoubleIs(p: pos, d: nat, q: Quad, x: int, y: int, x3: int, y3: int)
    requires PrimeField(p) && 2 * p <= W
    requires At(p, q, x, y) && OnCurve(p, d, x, y) && Sum(p, d, x, y, x, y, x3, y3)
    ensures At(p, Double(p, q), x3, y3)
  {
    var r, w := Project(p, q), q.u * q.v;
    var s := w * w;
    var k := Cross(d, x, y, x, y);
    ProjectIs(p, q, x, y);
    MulIs(p, r.x, w * x, r.x, w * x);
    Exchange(w, x, w, x);
    MulIs(p, r.y, w * y, r.y, w * y);
    Exchange(w, y, w, y);
    MulIs(p, r.x, w * x, r.y, w * y);
    Exchange(w, x, w, y);
    MulIs(p, r.z, w, r.z, w);
    var xx2, yy2, xxyy, zz2 := Mul(p, r.x, r.x), Mul(p, r.y, r.y), Mul(p, r.x, r.y), Mul(p, r.z, r.z);
    SumDiffIs(p, s, x * x, y * y, yy2, xx2);
    SumDiffIs(p, s, x * y, x * y, xxyy, xxyy);
    NonZeroProduct(p, w, w);
    assert Cong(y * y - x * x, 1 + k, p) by { CurveCross(d, x, y); }
    CongMul(s, s, y * y - x * x, 1 + k, p);
    DoubleV(p, s, k, zz2, yy2 - xx2 + p);
    assert x * y + y * x == x * y + x * y;
    ScaledSum(p, d, x, y, x, y, x3, y3, Double(p, q), s);
  }

  lemma CurveCross(d: nat, x: int, y: int)
    ensures 1 + d * (x * x) * (y * y) == 1 + Cross(d, x, y, x, y)
  {
    Exchange(x, x, y, y);
    var a, b, c := x * x, y * y, x * y;
    assert a * b == c * c;
    assert d * a * b == d * (a * b);
    assert d * c * c == d * (c * c);
  }

  lemma DoubleV(p: pos, s: int, k: int, zz2: nat, u: nat)
    requires Cong(zz2, s, p) && Cong(u, s * (1 + k), p) && u <= 2 * p
    ensures Cong((zz2 + zz2 + (2 * p - u)) % p, s * (1 - k), p)
  {
    CongMod(zz2 + zz2 + (2 * p - u), p);
    CongAdd(zz2, s, zz2, s, p);
    CongSub(zz2 + zz2, s + s, u, s * (1 + k), p);
    ModShift(zz2 + zz2 - u, 2, p);
    assert s + s - s * (1 + k) == s * (1 - k);
  }
}
