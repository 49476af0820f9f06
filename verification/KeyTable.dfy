/** The table of multiples of the public key in Ed25519.sol: eight successive additions leave every multiple
    over its own denominator, and one inversion serves all eight. */
module KeyTable {
  import opened Prelude
  import opened Arithmetic
  import opened Field25519
  import opened PointDecoding
  import opened Edwards
  import opened CurveGroup

  // ----- batch inversion -----

  /** The product of the first `n` denominators, as the forward loop accumulates it. */
  ghost function Prod(p: pos, zs: seq<nat>, n: nat): nat
    requires n <= |zs|
  {
    if n == 0 then 1 else Mul(p, Prod(p, zs, n - 1), zs[n - 1])
  }

  function Scale(p: pos, e: Entry, k: nat): Entry {
    Entry(Mul(p, e.s, k), Mul(p, e.d, k), Mul(p, e.t, k))
  }

  ghost predicate Divided(p: pos, e: Entry, z: nat, e': Entry) {
    exists k: nat :: Cong(z * k, 1, p) && e' == Scale(p, e, k)
  }

  lemma {:induction false} ProdNonZero(p: pos, zs: seq<nat>, n: nat)
    requires PrimeField(p) && p > 1 && n <= |zs| && forall j :: 0 <= j < n ==> zs[j] % p != 0
    ensures Prod(p, zs, n) % p != 0
  {
    if n == 0 {
      ModUnique(0, 1, p);
    } else {
      ProdNonZero(p, zs, n - 1);
      NonZeroProduct(p, Prod(p, zs, n - 1), zs[n - 1]);
      CongMod(Prod(p, zs, n - 1) * zs[n - 1], p);
    }
  }

  /** The inverse of a product times one factor is the inverse of the rest, and conversely. */
  lemma SplitInverse(p: pos, g: nat, a: nat, z: nat)
    requires Cong(g * Mul(p, a, z), 1, p)
    ensures Cong(z * Mul(p, g, a), 1, p) && Cong(Mul(p, g, z) * a, 1, p)
  {
    CongMod(a * z, p);
    CongMul(g, g, Mul(p, a, z), a * z, p);
    CongMod(g * a, p);
    CongMul(z, z, Mul(p, g, a), g * a, p);
    CongMod(g * z, p);
    CongMul(Mul(p, g, z), g * z, a, a, p);
    assert z * (g * a) == g * (a * z) == (g * z) * a;
  }

  /** The backward loop: `inverse` is the inverse of the product of all denominators. */
  method DivideAll(p: pos, tab: array<Entry>, zs: array<nat>, prefix: array<nat>, inverse: nat)
    requires tab.Length == zs.Length == prefix.Length > 0 && zs != prefix
    requires forall j :: 0 <= j < prefix.Length ==> prefix[j] == Prod(p, zs[..], j)
    requires Cong(inverse * Prod(p, zs[..], zs.Length), 1, p)
    modifies tab
    ensures forall j :: 0 <= j < tab.Length ==> Divided(p, old(tab[j]), zs[j], tab[j])
  {
    var cprod: nat := inverse;
    var i := tab.Length - 1;
    while true
      invariant 0 <= i < tab.Length
      invariant Cong(cprod * Prod(p, zs[..], i + 1), 1, p)
      invariant forall j :: 0 <= j <= i ==> tab[j] == old(tab[j])
      invariant forall j :: i < j < tab.Length ==> Divided(p, old(tab[j]), zs[j], tab[j])
      decreases i
    {
      SplitInverse(p, cprod, Prod(p, zs[..], i), zs[i]);
      var cinv := Mul(p, cprod, prefix[i]);
      tab[i] := Scale(p, tab[i], cinv);
      assert Divided(p, old(tab[i]), zs[i], tab[i]);
      if i == 0 {
        break;
      }
      cprod := Mul(p, cprod, zs[i]);
      i := i - 1;
    }
  }

  // ----- the entries before the division -----

  /** `e` over the denominator `z` stands for (x, y). */
  ghost predicate RawAt(p: pos, d: nat, e: Entry, z: nat, x: int, y: int) {
    && Cong(2 * e.s, z * (y + x), p)
    && Cong(2 * e.d, z * (y - x), p)
    && Cong(e.t, z * (d * (x * y)), p)
    && z % p != 0
  }

  lemma DividedIs(p: pos, d: nat, h: nat, e: Entry, z: nat, e': Entry, x: int, y: int)
    requires RawAt(p, d, e, z, x, y) && Divided(p, e, z, e') && Half(p, h)
    ensures EntryAt(p, d, h, e', x, y)
  {
    var k: nat :| Cong(z * k, 1, p) && e' == Scale(p, e, k);
    HalfOver(p, h, e.s, z, k, y + x);
    HalfOver(p, h, e.d, z, k, y - x);
    Over(p, e.t, z, k, d * (x * y));
  }

  lemma Over(p: pos, a: nat, z: nat, k: nat, n: int)
    requires Cong(a, z * n, p) && Cong(z * k, 1, p)
    ensures Cong(Mul(p, a, k), n, p)
  {
    CongMod(a * k, p);
    CongMul(a, z * n, k, k, p);
    CongMul(z * k, 1, n, n, p);
    assert z * n * k == z * k * n;
  }

  lemma HalfOver(p: pos, h: nat, a: nat, z: nat, k: nat, n: int)
    requires Cong(2 * a, z * n, p) && Cong(z * k, 1, p) && Half(p, h)
    ensures Cong(Mul(p, a, k), h * n, p)
  {
    CongMul(h, h, 2 * a, z * n, p);
    CongMul(2 * h, 1, a, a, p);
    assert h * (2 * a) == 2 * h * a;
    assert h * (z * n) == z * (h * n);
    Over(p, a, z, k, h * n);
  }

  /** The entry and its denominator that the forward loop stores. */
  function Store(p: pos, r: Projective, d2: nat): (Entry, nat)
    requires 2 * p <= W && r.x < p && r.y < p && r.z < p
  {
    (Entry(Plus(r.y, r.x), Minus(p, r.y, r.x), Mul(p, r.t, d2)), Plus(r.z, r.z))
  }

  lemma StoreIs(p: pos, d: nat, d2: nat, q: Quad, x: int, y: int)
    requires PrimeField(p) && p > 2 && 2 * p <= W && At(p, q, x, y) && Cong(d2, 2 * d, p)
    ensures var (e, z) := Store(p, Project(p, q), d2); RawAt(p, d, e, z, x, y)
  {
    var r, w := Project(p, q), q.u * q.v;
    ProjectIs(p, q, x, y);
    SumDiffIs(p, w, x, y, r.y, r.x);
    Doubled(p, w, r.z, r.y + r.x, y + x);
    Doubled(p, w, r.z, r.y - r.x + p, y - x);
    MulIs(p, r.t, w * (x * y), d2, 2 * d);
    CongMul(2 * r.z, 2 * w, d * (x * y), d * (x * y), p) by { CongMul(2, 2, r.z, w, p); }
    TwiceT(w, d, x * y);
    ModUnique(0, 2, p);
    NonZeroProduct(p, 2, w);
    CongMul(2, 2, r.z, w, p);
  }

  lemma TwiceT(w: int, d: nat, t: int)
    ensures (w * t) * (2 * d) == 2 * w * (d * t)
  {
    assert (w * t) * (2 * d) == 2 * (w * t * d) == 2 * (w * (d * t));
  }

  lemma Doubled(p: pos, w: int, z: nat, a: nat, n: int)
    requires Cong(z, w, p) && Cong(a, w * n, p)
    ensures Cong(2 * a, (z + z) * n, p)
  {
    CongMul(2, 2, a, w * n, p);
    CongMul(2, 2, z, w, p);
    CongMul(2 * z, 2 * w, n, n, p);
    assert 2 * (w * n) == 2 * w * n;
  }

  // ----- adding the key -----

  /** The key in the form the forward loop uses: y + x, y - x and 2 d x y. */
  function AddKey(p: pos, r: Projective, ks: nat, kd: nat, kt: nat): Quad
    requires 2 * p <= W && r.x < p && r.y < p && r.z < p
  {
    var cs, cd, c2z := Plus(r.y, r.x), Minus(p, r.y, r.x), Plus(r.z, r.z);
    var ab, aa, ac := Mul(p, cs, ks), Mul(p, cd, kd), Mul(p, r.t, kt);
    Quad(Minus(p, ab, aa), (c2z + ac) % p, Plus(ab, aa), (c2z + (p - ac)) % p)
  }

  lemma AddKeyIs(p: pos, d: nat, q: Quad, ks: nat, kd: nat, kt: nat,
                 x1: int, y1: int, x2: int, y2: int, x3: int, y3: int)
    requires PrimeField(p) && p > 2 && 2 * p <= W && At(p, q, x1, y1)
    requires Cong(ks, 1 * (y2 + x2), p) && Cong(kd, 1 * (y2 - x2), p) && Cong(kt, 2 * (d * (x2 * y2)), p)
    requires Sum(p, d, x1, y1, x2, y2, x3, y3)
    ensures At(p, AddKey(p, Project(p, q), ks, kd, kt), x3, y3)
  {
    var r, w := Project(p, q), q.u * q.v;
    ProjectIs(p, q, x1, y1);
    SumDiffIs(p, w, x1, y1, r.y, r.x);
    Numerators(p, w, 1, 2 * w, x1, y1, x2, y2, r.y + r.x, r.y - r.x + p, ks, kd);
    KeyDenominators(p, d, w, x1, y1, x2, y2, r.z, r.t, kt);
    ModUnique(0, 2, p);
    NonZeroProduct(p, 2, w);
    ScaledSum(p, d, x1, y1, x2, y2, x3, y3, AddKey(p, r, ks, kd, kt), 2 * w);
  }

  lemma KeyDenominators(p: pos, d: nat, w: int, x1: int, y1: int, x2: int, y2: int, z: nat, t: nat, kt: nat)
    requires Cong(z, w, p) && Cong(t, w * (x1 * y1), p) && Cong(kt, 2 * (d * (x2 * y2)), p)
    ensures var ac, k := Mul(p, t, kt), Cross(d, x1, y1, x2, y2);
      && Cong((z + z + ac) % p, 2 * w * (1 + k), p)
      && Cong((z + z + (p - ac)) % p, 2 * w * (1 - k), p)
  {
    var ac, k := Mul(p, t, kt), Cross(d, x1, y1, x2, y2);
    MulIs(p, t, w * (x1 * y1), kt, 2 * (d * (x2 * y2)));
    CrossIs(w, d, x1, y1, x2, y2);
    TwoOut(w * (x1 * y1), d * (x2 * y2), w, k);
    CongMul(2, 2, z, w, p);
    Denominators(p, 2 * w, k, z + z, ac);
    CongMod(z + z + ac, p);
    CongMod(z + z + (p - ac), p);
  }

  lemma TwoOut(a: int, b: int, w: int, k: int)
    requires a * b == w * k
    ensures a * (2 * b) == 2 * w * k
  {
    assert a * (2 * b) == 2 * (a * b);
    assert 2 * w * k == 2 * (w * k);
  }

  // ----- the whole table -----

  /** The table lists the multiples 8 to 15 of `a`. */
  ghost predicate TableOf<G>(p: pos, d: nat, h: nat, c: Curve<G>, t: seq<Entry>, a: G) {
    |t| == 8 && forall j :: 0 <= j < 8 ==> Lists(p, d, h, c, t[j], Times(c, 8 + j, a))
  }

  /** Five squarings after the chain and a product: the inverse of a number that is not zero. */
  method InvertNonZero(p: pos, x: nat) returns (r: nat)
    requires Is25519(p) && p > 1 && PrimeField(p) && x % p != 0
    ensures Cong(r * x, 1, p)
  {
    r := Invert(p, x);
    assert Unit(p, x);
    InvertIsInverse(p, x, r);
    ModUnique(0, 1, p);
  }

  lemma EightTimes<G(!new)>(c: Curve<G>, a: G)
    requires Abelian(c)
    ensures var a2 := c.add(a, a); var a4 := c.add(a2, a2); Times(c, 8, a) == c.add(a4, a4)
  {
    Zeroes(c, a);
    assert Times(c, 1, a) == a;
    TimesAdd(c, 1, 1, a);
    TimesAdd(c, 2, 2, a);
    TimesAdd(c, 4, 4, a);
  }

  method ThreeDoublings<G(!new)>(p: pos, ghost d: nat, ghost c: Curve<G>, ghost a: G, q: Quad) returns (r: Quad)
    requires PrimeField(p) && 2 * p <= W && Lawful(p, d, c) && Shows(p, c, q, a)
    ensures Shows(p, c, r, Times(c, 8, a))
  {
    r := Double(p, q);
    DoubleShows(p, d, c, q, a);
    ghost var a2, q2 := c.add(a, a), r;
    r := Double(p, r);
    DoubleShows(p, d, c, q2, a2);
    ghost var a4, q4 := c.add(a2, a2), r;
    r := Double(p, r);
    DoubleShows(p, d, c, q4, a4);
    EightTimes(c, a);
  }

  ghost predicate RawLists<G>(p: pos, d: nat, c: Curve<G>, e: Entry, z: nat, a: G) {
    RawAt(p, d, e, z, c.x(a), c.y(a))
  }

  /** The first `n` entries stand for the multiples from 8 on, each over its own denominator. */
  ghost predicate RawTable<G>(p: pos, d: nat, c: Curve<G>, a: G, ts: seq<Entry>, zs: seq<nat>, n: nat) {
    n <= |ts| == |zs| && forall j :: 0 <= j < n ==> RawLists(p, d, c, ts[j], zs[j], Times(c, 8 + j, a))
  }

  lemma RawTableNext<G>(p: pos, d: nat, c: Curve<G>, a: G, ts: seq<Entry>, zs: seq<nat>, n: nat,
                        ts': seq<Entry>, zs': seq<nat>)
    requires RawTable(p, d, c, a, ts, zs, n) && n < |ts'| == |zs'| && ts'[..n] == ts[..n] && zs'[..n] == zs[..n]
    requires RawLists(p, d, c, ts'[n], zs'[n], Times(c, 8 + n, a))
    ensures RawTable(p, d, c, a, ts', zs', n + 1)
  {
    forall j | 0 <= j < n
      ensures ts'[j] == ts[j] && zs'[j] == zs[j]
    {
      assert ts'[..n][j] == ts'[j] && ts[..n][j] == ts[j] && zs'[..n][j] == zs'[j] && zs[..n][j] == zs[j];
    }
  }

  lemma StoreLists<G(!new)>(p: pos, d: nat, d2: nat, c: Curve<G>, q: Quad, b: G)
    requires PrimeField(p) && p > 2 && 2 * p <= W && Shows(p, c, q, b) && Cong(d2, 2 * d, p)
    ensures var (e, z) := Store(p, Project(p, q), d2); RawLists(p, d, c, e, z, b)
  {
    StoreIs(p, d, d2, q, c.x(b), c.y(b));
  }

  /** One more key: from the `n`-th multiple to the next. */
  lemma NextMultiple<G(!new)>(p: pos, d: nat, c: Curve<G>, a: G, n: nat, q: Quad, ks: nat, kd: nat, kt: nat)
    requires PrimeField(p) && p > 2 && 2 * p <= W && Lawful(p, d, c)
    requires Cong(ks, 1 * (c.y(a) + c.x(a)), p) && Cong(kd, 1 * (c.y(a) - c.x(a)), p)
    requires Cong(kt, 2 * (d * (c.x(a) * c.y(a))), p)
    requires Shows(p, c, q, Times(c, n, a))
    ensures Shows(p, c, AddKey(p, Project(p, q), ks, kd, kt), Times(c, n + 1, a))
  {
    var b := Times(c, n, a);
    SumOf(p, d, c, b, a);
    assert Commutes(c, a, b);
    AddKeyIs(p, d, q, ks, kd, kt, c.x(b), c.y(b), c.x(a), c.y(a), c.x(c.add(b, a)), c.y(c.add(b, a)));
  }

  /** One entry with its denominator and the product of those before it. */
  method StoreAt(p: pos, tab: array<Entry>, zs: array<nat>, prefix: array<nat>, i: nat, e: Entry, z: nat, cprod: nat)
    returns (next: nat)
    requires i < tab.Length == zs.Length == prefix.Length && zs != prefix
    requires forall j :: 0 <= j < i ==> prefix[j] == Prod(p, zs[..], j)
    requires cprod == Prod(p, zs[..], i)
    modifies tab, zs, prefix
    ensures tab[i] == e && zs[i] == z
    ensures tab[..i] == old(tab[..i]) && zs[..i] == old(zs[..i])
    ensures forall j :: 0 <= j <= i ==> prefix[j] == Prod(p, zs[..], j)
    ensures next == Prod(p, zs[..], i + 1)
  {
    ghost var was := zs[..];
    tab[i] := e;
    zs[i] := z;
    prefix[i] := cprod;
    assert zs[..][..i] == was[..i];
    ProdPrefixes(p, zs[..], was, i);
    next := Mul(p, cprod, z);
  }

  /** The forward loop: entry `j` stands for `(8 + j) a` over its own denominator. */
  method Multiples<G(!new)>(p: pos, ghost d: nat, d2: nat, ghost c: Curve<G>, ghost a: G,
                            q: Quad, ks: nat, kd: nat, kt: nat,
                            tab: array<Entry>, zs: array<nat>, prefix: array<nat>) returns (cprod: nat)
    requires PrimeField(p) && p > 2 && 2 * p <= W && Lawful(p, d, c) && Cong(d2, 2 * d, p)
    requires Cong(ks, 1 * (c.y(a) + c.x(a)), p) && Cong(kd, 1 * (c.y(a) - c.x(a)), p)
    requires Cong(kt, 2 * (d * (c.x(a) * c.y(a))), p)
    requires Shows(p, c, q, Times(c, 8, a))
    requires tab.Length == zs.Length == prefix.Length == 8 && zs != prefix
    modifies tab, zs, prefix
    ensures RawTable(p, d, c, a, tab[..], zs[..], 8)
    ensures forall j :: 0 <= j < 8 ==> prefix[j] == Prod(p, zs[..], j)
    ensures cprod == Prod(p, zs[..], 8)
  {
    var kk := q;
    cprod := 1;
    var i := 0;
    while true
      invariant 0 <= i < 8
      invariant Shows(p, c, kk, Times(c, 8 + i, a))
      invariant RawTable(p, d, c, a, tab[..], zs[..], i)
      invariant forall j :: 0 <= j < i ==> prefix[j] == Prod(p, zs[..], j)
      invariant cprod == Prod(p, zs[..], i)
      decreases 8 - i
    {
      var r := Project(p, kk);
      StoreLists(p, d, d2, c, kk, Times(c, 8 + i, a));
      var (e, z) := Store(p, r, d2);
      ghost var ts, us := tab[..], zs[..];
      cprod := StoreAt(p, tab, zs, prefix, i, e, z, cprod);
      RawTableNext(p, d, c, a, ts, us, i, tab[..], zs[..]);
      if i == 7 {
        break;
      }
      NextMultiple(p, d, c, a, 8 + i, kk, ks, kd, kt);
      kk := AddKey(p, r, ks, kd, kt);
      i := i + 1;
    }
  }

  lemma ProdPrefixes(p: pos, zs: seq<nat>, zs': seq<nat>, n: nat)
    requires n <= |zs| && n <= |zs'| && zs[..n] == zs'[..n]
    ensures forall j :: 0 <= j <= n ==> Prod(p, zs, j) == Prod(p, zs', j)
  {
    forall j | 0 <= j <= n
      ensures Prod(p, zs, j) == Prod(p, zs', j)
    {
      assert zs[..j] == zs[..n][..j] == zs'[..j];
      ProdPrefix(p, zs, zs', j);
    }
  }

  lemma {:induction false} ProdPrefix(p: pos, zs: seq<nat>, zs': seq<nat>, n: nat)
    requires n <= |zs| && n <= |zs'| && zs[..n] == zs'[..n]
    ensures Prod(p, zs, n) == Prod(p, zs', n)
  {
    if n > 0 {
      assert zs[n - 1] == zs[..n][n - 1] == zs'[n - 1];
      assert zs[..n - 1] == zs[..n][..n - 1] == zs'[..n - 1];
      ProdPrefix(p, zs, zs', n - 1);
    }
  }

  /** One inversion, and the backward loop. */
  method DivideMultiples<G(!new)>(p: pos, ghost d: nat, ghost h: nat, ghost c: Curve<G>, ghost a: G,
                                  tab: array<Entry>, zs: array<nat>, prefix: array<nat>, cprod: nat)
    requires Is25519(p) && PrimeField(p) && p > 2 && Half(p, h)
    requires tab.Length == zs.Length == prefix.Length == 8 && zs != prefix
    requires RawTable(p, d, c, a, tab[..], zs[..], 8)
    requires forall j :: 0 <= j < 8 ==> prefix[j] == Prod(p, zs[..], j)
    requires cprod == Prod(p, zs[..], 8)
    modifies tab
    ensures forall j :: 0 <= j < 8 ==> Lists(p, d, h, c, tab[j], Times(c, 8 + j, a))
  {
    assert forall j :: 0 <= j < 8 ==> RawLists(p, d, c, tab[..][j], zs[..][j], Times(c, 8 + j, a));
    ProdNonZero(p, zs[..], 8);
    var inverse := InvertNonZero(p, cprod);
    ghost var raw := tab[..];
    DivideAll(p, tab, zs, prefix, inverse);
    forall j | 0 <= j < 8
      ensures Lists(p, d, h, c, tab[j], Times(c, 8 + j, a))
    {
      var b := Times(c, 8 + j, a);
      assert RawLists(p, d, c, raw[j], zs[..][j], b);
      DividedIs(p, d, h, raw[j], zs[j], tab[j], c.x(b), c.y(b));
    }
  }

  /** The table of (8 + j) a for the decoded key (kx, ky). */
  method BuildTable<G(!new)>(p: pos, ghost d: nat, d2: nat, ghost h: nat, ghost c: Curve<G>, ghost a: G,
                             kx: nat, ky: nat) returns (t: seq<Entry>)
    requires Is25519(p) && PrimeField(p) && p > 2 && 2 * p <= W && Half(p, h) && Lawful(p, d, c)
    requires Cong(d2, 2 * d, p) && Cong(kx, c.x(a), p) && Cong(ky, c.y(a), p) && kx <= p && ky + p < W
    ensures TableOf(p, d, h, c, t, a)
  {
    var ks, kd := Plus(ky, kx), (ky + p) - kx;
    var kt := Mul(p, Mul(p, kx, ky), d2);
    KeyForm(p, d, d2, kx, ky, c.x(a), c.y(a));
    ModUnique(0, 1, p);
    var q := ThreeDoublings(p, d, c, a, Quad(kx, 1, ky, 1));
    var tab, zs, prefix := new Entry[8](_ => Entry(0, 0, 0)), new nat[8](_ => 0), new nat[8](_ => 0);
    var cprod := Multiples(p, d, d2, c, a, q, ks, kd, kt, tab, zs, prefix);
    DivideMultiples(p, d, h, c, a, tab, zs, prefix, cprod);
    t := tab[..];
  }

  lemma KeyForm(p: pos, d: nat, d2: nat, kx: nat, ky: nat, x: int, y: int)
    requires Cong(d2, 2 * d, p) && Cong(kx, x, p) && Cong(ky, y, p)
    ensures Cong(ky + kx, 1 * (y + x), p) && Cong(ky + p - kx, 1 * (y - x), p)
    ensures Cong(Mul(p, Mul(p, kx, ky), d2), 2 * (d * (x * y)), p)
  {
    SumDiffIs(p, 1, x, y, ky, kx);
    MulIs(p, kx, x, ky, y);
    MulIs(p, Mul(p, kx, ky), x * y, d2, 2 * d);
    TwiceT(1, d, x * y);
    assert 1 * (x * y) == x * y;
  }
}
