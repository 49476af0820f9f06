/** The points of the curve as an abelian group with coordinates, and its scalar multiples. */
module CurveGroup {
  import opened Arithmetic
  import opened Field25519
  import opened PointDecoding
  import opened Edwards
  import opened Completeness

  datatype Curve<!G> = Curve(
    add: (G, G) -> G, neg: G -> G, zero: G,
    x: G -> nat, y: G -> nat, at: (nat, nat) -> G)

  ghost predicate Commutes<G>(c: Curve<G>, a: G, b: G) {
    c.add(a, b) == c.add(b, a)
  }

  ghost predicate Associates<G>(c: Curve<G>, a: G, b: G, e: G) {
    c.add(c.add(a, b), e) == c.add(a, c.add(b, e))
  }

  ghost predicate Cancels<G>(c: Curve<G>, a: G) {
    c.add(a, c.zero) == a && c.add(a, c.neg(a)) == c.zero
  }

  ghost predicate Abelian<G(!new)>(c: Curve<G>) {
    && (forall a, b {:trigger Commutes(c, a, b)} :: Commutes(c, a, b))
    && (forall a, b, e {:trigger Associates(c, a, b, e)} :: Associates(c, a, b, e))
    && (forall a {:trigger Cancels(c, a)} :: Cancels(c, a))
  }

  ghost predicate SumLaw<G>(p: pos, d: nat, c: Curve<G>, a: G, b: G) {
    Law(p, d, c.x(a), c.y(a), c.x(b), c.y(b), c.x(c.add(a, b)), c.y(c.add(a, b)))
  }

  ghost predicate PointLaw<G>(p: pos, d: nat, c: Curve<G>, a: G) {
    && OnCurve(p, d, c.x(a), c.y(a))
    && Cong(c.x(c.neg(a)), 0 - c.x(a), p)
    && Cong(c.y(c.neg(a)), c.y(a), p)
    && c.x(a) < p && c.y(a) < p
  }

  ghost predicate SolutionLaw<G>(p: pos, d: nat, c: Curve<G>, x: nat, y: nat) {
    OnCurve(p, d, x, y) ==> Cong(c.x(c.at(x, y)), x, p) && Cong(c.y(c.at(x, y)), y, p)
  }

  /** What is assumed of the curve: -1 is a square modulo p and -1/d is not, its points are an abelian group that obeys
      the addition law, and every solution of the equation is a point. */
  ghost predicate Lawful<G(!new)>(p: pos, d: nat, c: Curve<G>) {
    && Proper(p, d) && Abelian(c)
    && (forall a, b {:trigger SumLaw(p, d, c, a, b)} :: SumLaw(p, d, c, a, b))
    && (forall a {:trigger PointLaw(p, d, c, a)} :: PointLaw(p, d, c, a))
    && Cong(c.x(c.zero), 0, p) && Cong(c.y(c.zero), 1, p)
    && (forall x: nat, y: nat {:trigger SolutionLaw(p, d, c, x, y)} :: SolutionLaw(p, d, c, x, y))
  }

  ghost predicate Shows<G>(p: pos, c: Curve<G>, q: Quad, a: G) {
    At(p, q, c.x(a), c.y(a))
  }

  ghost predicate Lists<G>(p: pos, d: nat, h: nat, c: Curve<G>, e: Entry, a: G) {
    EntryAt(p, d, h, e, c.x(a), c.y(a))
  }

  /** The law determines the sum of any two points. */
  lemma SumOf<G(!new)>(p: pos, d: nat, c: Curve<G>, a: G, b: G)
    requires PrimeField(p) && Lawful(p, d, c)
    ensures Sum(p, d, c.x(a), c.y(a), c.x(b), c.y(b), c.x(c.add(a, b)), c.y(c.add(a, b)))
  {
    assert SumLaw(p, d, c, a, b);
    assert PointLaw(p, d, c, a) && PointLaw(p, d, c, b);
    Complete(p, d, c.x(a), c.y(a), c.x(b), c.y(b));
  }

  // ----- the contract's steps, on points -----

  lemma AddShows<G(!new)>(p: pos, d: nat, h: nat, c: Curve<G>, q: Quad, e: Entry, a: G, b: G)
    requires PrimeField(p) && 2 * p <= W && Half(p, h) && Lawful(p, d, c)
    requires Shows(p, c, q, a) && Lists(p, d, h, c, e, b)
    ensures Shows(p, c, AddEntry(p, q, e), c.add(a, b))
  {
    SumOf(p, d, c, a, b);
    AddEntryIs(p, d, h, q, e, c.x(a), c.y(a), c.x(b), c.y(b), c.x(c.add(a, b)), c.y(c.add(a, b)));
  }

  lemma SubShows<G(!new)>(p: pos, d: nat, h: nat, c: Curve<G>, q: Quad, e: Entry, a: G, b: G)
    requires PrimeField(p) && 2 * p <= W && Half(p, h) && Lawful(p, d, c)
    requires Shows(p, c, q, a) && Lists(p, d, h, c, e, b)
    ensures Shows(p, c, SubEntry(p, q, e), c.add(a, c.neg(b)))
  {
    var n := c.neg(b);
    var s := c.add(a, n);
    SumOf(p, d, c, a, n);
    assert PointLaw(p, d, c, b);
    SumCong(p, d, c.x(a), c.y(a), c.x(n), c.y(n), -(c.x(b) as int), c.y(b), c.x(s), c.y(s));
    SubEntryIs(p, d, h, q, e, c.x(a), c.y(a), c.x(b), c.y(b), c.x(s), c.y(s));
  }

  lemma DoubleShows<G(!new)>(p: pos, d: nat, c: Curve<G>, q: Quad, a: G)
    requires PrimeField(p) && 2 * p <= W && Lawful(p, d, c)
    requires Shows(p, c, q, a)
    ensures Shows(p, c, Double(p, q), c.add(a, a))
  {
    SumOf(p, d, c, a, a);
    assert PointLaw(p, d, c, a);
    DoubleIs(p, d, q, c.x(a), c.y(a), c.x(c.add(a, a)), c.y(c.add(a, a)));
  }

  /** The law depends on the residues of the second operand only. */
  lemma SumCong(p: pos, d: nat, x1: int, y1: int, x2: int, y2: int, x2': int, y2': int, x3: int, y3: int)
    requires Sum(p, d, x1, y1, x2, y2, x3, y3) && Cong(x2, x2', p) && Cong(y2, y2', p)
    ensures Sum(p, d, x1, y1, x2', y2', x3, y3)
  {
    var k, k' := Cross(d, x1, y1, x2, y2), Cross(d, x1, y1, x2', y2');
    CongMul(x2, x2', y2, y2', p);
    CongMul(d * (x1 * y1), d * (x1 * y1), x2 * y2, x2' * y2', p);
    CongAdd(1, 1, k, k', p);
    CongSub(1, 1, k, k', p);
    CongMul(x3, x3, 1 + k, 1 + k', p);
    CongMul(y3, y3, 1 - k, 1 - k', p);
    CongMul(x1, x1, y2, y2', p);
    CongMul(y1, y1, x2, x2', p);
    CongAdd(x1 * y2, x1 * y2', y1 * x2, y1 * x2', p);
    CongMul(y1, y1, y2, y2', p);
    CongMul(x1, x1, x2, x2', p);
    CongAdd(y1 * y2, y1 * y2', x1 * x2, x1 * x2', p);
  }

  // ----- multiples -----

  ghost function Times<G>(c: Curve<G>, n: nat, a: G): G {
    if n == 0 then c.zero else c.add(a, Times(c, n - 1, a))
  }

  lemma Zeroes<G(!new)>(c: Curve<G>, a: G)
    requires Abelian(c)
    ensures c.add(c.zero, a) == a == c.add(a, c.zero)
  {
    assert Commutes(c, c.zero, a);
    assert Cancels(c, a);
  }

  lemma {:induction false} TimesAdd<G(!new)>(c: Curve<G>, m: nat, n: nat, a: G)
    requires Abelian(c)
    ensures Times(c, m + n, a) == c.add(Times(c, m, a), Times(c, n, a))
  {
    if m == 0 {
      Zeroes(c, Times(c, n, a));
    } else {
      TimesAdd(c, m - 1, n, a);
      assert Associates(c, a, Times(c, m - 1, a), Times(c, n, a));
    }
  }

  lemma {:induction false} TimesTimes<G(!new)>(c: Curve<G>, m: nat, n: nat, a: G)
    requires Abelian(c)
    ensures Times(c, m * n, a) == Times(c, m, Times(c, n, a))
  {
    if m > 0 {
      TimesTimes(c, m - 1, n, a);
      assert m * n == n + (m - 1) * n;
      TimesAdd(c, n, (m - 1) * n, a);
    }
  }

  lemma Rearrange<G(!new)>(c: Curve<G>, u: G, v: G, w: G, z: G)
    requires Abelian(c)
    ensures c.add(c.add(u, v), c.add(w, z)) == c.add(c.add(u, w), c.add(v, z))
  {
    assert Associates(c, u, v, c.add(w, z));
    assert Associates(c, v, w, z);
    assert Commutes(c, v, w);
    assert Associates(c, w, v, z);
    assert Associates(c, u, w, c.add(v, z));
  }

  lemma NegUnique<G(!new)>(c: Curve<G>, u: G, v: G)
    requires Abelian(c) && c.add(u, v) == c.zero
    ensures v == c.neg(u)
  {
    var n := c.neg(u);
    assert Associates(c, n, u, v);
    assert Commutes(c, n, u);
    assert Cancels(c, u) && Cancels(c, n);
    Zeroes(c, v);
  }

  lemma NegAdd<G(!new)>(c: Curve<G>, u: G, v: G)
    requires Abelian(c)
    ensures c.neg(c.add(u, v)) == c.add(c.neg(u), c.neg(v))
  {
    Rearrange(c, u, v, c.neg(u), c.neg(v));
    assert Cancels(c, u) && Cancels(c, v) && Cancels(c, c.zero);
    NegUnique(c, c.add(u, v), c.add(c.neg(u), c.neg(v)));
  }

  /** m b - n a. */
  ghost function Comb<G>(c: Curve<G>, m: nat, b: G, n: nat, a: G): G {
    c.add(Times(c, m, b), c.neg(Times(c, n, a)))
  }

  lemma CombZero<G(!new)>(c: Curve<G>, b: G, a: G)
    requires Abelian(c)
    ensures Comb(c, 0, b, 0, a) == c.zero
  {
    assert Cancels(c, c.zero);
  }

  lemma CombAdd<G(!new)>(c: Curve<G>, m: nat, b: G, n: nat, a: G, m': nat, n': nat)
    requires Abelian(c)
    ensures c.add(Comb(c, m, b, n, a), Comb(c, m', b, n', a)) == Comb(c, m + m', b, n + n', a)
  {
    TimesAdd(c, m, m', b);
    TimesAdd(c, n, n', a);
    NegAdd(c, Times(c, n, a), Times(c, n', a));
    Rearrange(c, Times(c, m, b), c.neg(Times(c, n, a)), Times(c, m', b), c.neg(Times(c, n', a)));
  }

  lemma CombLeft<G(!new)>(c: Curve<G>, m: nat, b: G, n: nat, a: G, k: nat)
    requires Abelian(c)
    ensures c.add(Comb(c, m, b, n, a), Times(c, k, b)) == Comb(c, m + k, b, n, a)
  {
    Zeroes(c, c.zero);
    NegUnique(c, c.zero, c.zero);
    Zeroes(c, Times(c, k, b));
    CombAdd(c, m, b, n, a, k, 0);
  }

  lemma CombRight<G(!new)>(c: Curve<G>, m: nat, b: G, n: nat, a: G, k: nat)
    requires Abelian(c)
    ensures c.add(Comb(c, m, b, n, a), c.neg(Times(c, k, a))) == Comb(c, m, b, n + k, a)
  {
    Zeroes(c, c.neg(Times(c, k, a)));
    CombAdd(c, m, b, n, a, 0, k);
  }
}
