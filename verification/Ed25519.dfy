/** Signature checking in Ed25519.sol (section 5.1.7 of RFC 8032): the joint sliding-window multiplication,
    the comparison with R, and the whole check. */
module Ed25519 {
  import opened Prelude
  import opened Arithmetic
  import opened Field25519
  import opened PointDecoding
  import opened Edwards
  import opened CurveGroup
  import opened KeyTable

  // ----- bits and windows -----

  /** `x & (8 << i) != 0`, `(x >> i) & 7` and `x & ~(7 << i)`. */
  predicate Bit(x: nat, i: nat) { (x / (8 * Pow2(i))) % 2 == 1 }

  function Digit(x: nat, i: nat): nat { (x / Pow2(i)) % 8 }

  function Clear(x: nat, i: nat): (r: nat)
    ensures r + Digit(x, i) * Pow2(i) == x
  {
    ModSplit(x, 8, Pow2(i));
    ModBelow(x, 8 * Pow2(i));
    x - Digit(x, i) * Pow2(i)
  }

  lemma ModBelow(x: nat, m: nat)
    requires m > 0
    ensures x % m <= x
  {
    assert x == (x / m) * m + x % m;
    assert (x / m) * m >= 0;
  }

  /** The low bits of a number in base `m`. */
  lemma ModSplit(x: nat, k: nat, m: nat)
    requires k > 0 && m > 0
    ensures k * m > 0
    ensures x % (k * m) == ((x / m) % k) * m + x % m
    ensures x / (k * m) == (x / m) / k
  {
    Euclid(x, m);
    Euclid(x / m, k);
    SplitAt(x, k, m, x / m, x % m, (x / m) / k, (x / m) % k);
  }

  lemma Euclid(x: nat, m: nat)
    requires m > 0
    ensures x == (x / m) * m + x % m && x % m < m
  {
  }

  lemma SplitAt(x: nat, k: nat, m: nat, q: nat, s: nat, a: nat, b: nat)
    requires x == q * m + s && q == a * k + b && s < m && b < k
    ensures k * m > 0 && x % (k * m) == b * m + s && x / (k * m) == a
  {
    TwoDigits(a, b, s, k, m);
    ModUnique(a, b * m + s, k * m);
  }

  lemma TwoDigits(a: nat, b: nat, s: nat, k: nat, m: nat)
    requires b < k && s < m
    ensures (a * k + b) * m + s == a * (k * m) + (b * m + s) && b * m + s < k * m
  {
    Associate(a, k, m);
    Distribute(a * k, b, m);
    Distribute(k - b - 1, b + 1, m);
    Distribute(b, 1, m);
    assert (k - b - 1) * m >= 0;
  }

  lemma Distribute(a: int, b: int, m: int)
    ensures (a + b) * m == a * m + b * m
  {
  }

  /** `done`, doubled `i` more times, and the bits of `x` below the then `width` make up the number. */
  ghost predicate Left(total: nat, done: nat, x: nat, i: nat, width: nat)
    requires width > 0
    decreases i
  {
    if i == 0 then done + x % width == total else Left(total, 2 * done, x, i - 1, 2 * width)
  }

  lemma DoubleOver(k: nat, m: nat)
    ensures (2 * k) * m == k * (2 * m)
  {
  }

  lemma {:induction false} LeftIs(total: nat, done: nat, x: nat, i: nat, width: nat)
    requires width > 0
    ensures width * Pow2(i) > 0
    ensures Left(total, done, x, i, width) <==> done * Pow2(i) + x % (width * Pow2(i)) == total
    decreases i
  {
    if i > 0 {
      LeftIs(total, 2 * done, x, i - 1, 2 * width);
      DoubleOver(width, Pow2(i - 1));
      DoubleOver(done, Pow2(i - 1));
    }
  }

  /** One window: taken when its top bit is set. */
  lemma Consume(total: nat, done: nat, x: nat, i: nat)
    requires Left(total, done, x, i, 16)
    ensures Bit(x, i) ==> Left(total, done + (8 + Digit(x, i)), Clear(x, i), i, 8)
    ensures !Bit(x, i) ==> Left(total, done, x, i, 8)
  {
    LeftIs(total, done, x, i, 16);
    WindowOf(x, i);
    if Bit(x, i) {
      var j := Digit(x, i);
      LeftIs(total, done + (8 + j), Clear(x, i), i, 8);
      assert (done + (8 + j)) * Pow2(i) == done * Pow2(i) + (8 + j) * Pow2(i);
    } else {
      LeftIs(total, done, x, i, 8);
    }
  }

  lemma WindowOf(x: nat, i: nat)
    ensures Bit(x, i) ==> x % (16 * Pow2(i)) == (8 + Digit(x, i)) * Pow2(i) + Clear(x, i) % (8 * Pow2(i))
    ensures !Bit(x, i) ==> x % (16 * Pow2(i)) == x % (8 * Pow2(i))
  {
    WindowIn(x, Pow2(i), Digit(x, i), Clear(x, i));
  }

  lemma WindowIn(x: nat, m: nat, j: nat, y: nat)
    requires m > 0 && j == (x / m) % 8 && y + j * m == x
    ensures (x / (8 * m)) % 2 == 1 ==> x % (16 * m) == (8 + j) * m + y % (8 * m)
    ensures (x / (8 * m)) % 2 == 0 ==> x % (16 * m) == x % (8 * m)
  {
    ModSplit(x, 2, 8 * m);
    assert 2 * (8 * m) == 16 * m;
    WithoutDigit(x, m, j, y);
    assert (8 + j) * m == 8 * m + j * m;
  }

  lemma WithoutDigit(x: nat, m: nat, j: nat, y: nat)
    requires m > 0 && j == (x / m) % 8 && y + j * m == x
    ensures x % (8 * m) == j * m + y % (8 * m)
  {
    ModSplit(x, 8, m);
    var q := x / (8 * m);
    assert x == q * (8 * m) + x % (8 * m);
    ModUnique(q, x % m, 8 * m);
  }

  /** The low three bits of a multiple of eight stay clear. */
  lemma ClearKeeps(x: nat, i: nat)
    requires x % 8 == 0
    ensures Clear(x, i) % 8 == 0
  {
    var j := Digit(x, i);
    if i < 3 {
      LowDigit(x, Pow2(i)) by { SmallPow2(i); }
    } else {
      HighDigit(j, i);
    }
    assert Clear(x, i) == x - j * Pow2(i);
    CongSub(x, 0, j * Pow2(i), 0, 8);
  }

  lemma SmallPow2(i: nat)
    requires i < 3
    ensures Pow2(i) == 1 || Pow2(i) == 2 || Pow2(i) == 4
  {
    assert Pow2(0) == 1 && Pow2(1) == 2 && Pow2(2) == 4;
  }

  lemma LowDigit(x: nat, m: nat)
    requires x % 8 == 0 && (m == 1 || m == 2 || m == 4)
    ensures (((x / m) % 8) * m) % 8 == 0
  {
    var q := x / 8;
    assert x == 8 * q;
    if m == 2 {
      HalfDigit(q);
    } else if m == 4 {
      QuarterDigit(q);
    }
  }

  lemma HalfDigit(q: nat)
    ensures (((8 * q / 2) % 8) * 2) % 8 == 0
  {
    assert 8 * q / 2 == 8 * (q / 2) + 4 * (q % 2);
    ModUnique(q / 2, 4 * (q % 2), 8);
  }

  lemma QuarterDigit(q: nat)
    ensures (((8 * q / 4) % 8) * 4) % 8 == 0
  {
    assert 8 * q / 4 == 8 * (q / 4) + 2 * (q % 4);
    ModUnique(q / 4, 2 * (q % 4), 8);
  }

  lemma HighDigit(j: nat, i: nat)
    requires i >= 3
    ensures (j * Pow2(i)) % 8 == 0
  {
    var m := Pow2(i - 3);
    assert Pow2(i) == 2 * Pow2(i - 1) == 4 * Pow2(i - 2) == 8 * m;
    assert j * (8 * m) == (j * m) * 8;
  }

  lemma AllLeft(total: nat, i: nat)
    requires total < 16 * Pow2(i)
    ensures Left(total, 0, total, i, 16)
  {
    LeftIs(total, 0, total, i, 16);
    ModUnique(0, total, 16 * Pow2(i));
  }

  lemma NoneLeft(total: nat, done: nat, x: nat)
    requires Left(total, done, x, 0, 8)
    ensures done + x % 8 == total
  {
  }

  // ----- the joint multiplication -----

  ghost predicate Ready<G(!new)>(p: pos, d: nat, h: nat, c: Curve<G>) {
    PrimeField(p) && p > 2 && 2 * p <= W && Half(p, h) && Lawful(p, d, c)
  }

  lemma Started<G(!new)>(p: pos, d: nat, h: nat, c: Curve<G>, b: G, a: G)
    requires Ready(p, d, h, c)
    ensures Shows(p, c, Quad(0, 1, 1, 1), Comb(c, 0, b, 0, a))
  {
    CombZero(c, b, a);
    ModUnique(0, 1, p);
    assert c.x(c.zero) * 1 == c.x(c.zero) && c.y(c.zero) * 1 == c.y(c.zero);
  }

  lemma TakeLeft<G(!new)>(p: pos, d: nat, h: nat, c: Curve<G>, t: seq<Entry>, q: Quad,
                          m: nat, b: G, n: nat, a: G, j: nat)
    requires Ready(p, d, h, c) && TableOf(p, d, h, c, t, b) && j < 8
    requires Shows(p, c, q, Comb(c, m, b, n, a))
    ensures Shows(p, c, AddEntry(p, q, t[j]), Comb(c, m + (8 + j), b, n, a))
  {
    AddShows(p, d, h, c, q, t[j], Comb(c, m, b, n, a), Times(c, 8 + j, b));
    CombLeft(c, m, b, n, a, 8 + j);
  }

  lemma TakeRight<G(!new)>(p: pos, d: nat, h: nat, c: Curve<G>, t: seq<Entry>, q: Quad,
                           m: nat, b: G, n: nat, a: G, j: nat)
    requires Ready(p, d, h, c) && TableOf(p, d, h, c, t, a) && j < 8
    requires Shows(p, c, q, Comb(c, m, b, n, a))
    ensures Shows(p, c, SubEntry(p, q, t[j]), Comb(c, m, b, n + (8 + j), a))
  {
    SubShows(p, d, h, c, q, t[j], Comb(c, m, b, n, a), Times(c, 8 + j, a));
    CombRight(c, m, b, n, a, 8 + j);
  }

  lemma TakeDouble<G(!new)>(p: pos, d: nat, h: nat, c: Curve<G>, q: Quad, m: nat, b: G, n: nat, a: G)
    requires Ready(p, d, h, c) && Shows(p, c, q, Comb(c, m, b, n, a))
    ensures Shows(p, c, Double(p, q), Comb(c, 2 * m, b, 2 * n, a))
  {
    DoubleShows(p, d, c, q, Comb(c, m, b, n, a));
    CombAdd(c, m, b, n, a, m, n);
  }

  /** A window of the first scalar. */
  method AddWindow<G(!new)>(p: pos, ghost d: nat, ghost h: nat, ghost c: Curve<G>, tb: seq<Entry>, q: Quad,
                            ghost b: G, ghost a: G, ghost m: nat, ghost n: nat, ghost s: nat, ss: nat, i: nat)
    returns (q': Quad, ss': nat, ghost m': nat)
    requires Ready(p, d, h, c) && TableOf(p, d, h, c, tb, b)
    requires Shows(p, c, q, Comb(c, m, b, n, a)) && Left(s, m, ss, i, 16) && ss % 8 == 0
    ensures Shows(p, c, q', Comb(c, m', b, n, a)) && Left(s, m', ss', i, 8) && ss' % 8 == 0
  {
    q', ss', m' := q, ss, m;
    Consume(s, m, ss, i);
    if Bit(ss, i) {
      var j := Digit(ss, i);
      ClearKeeps(ss, i);
      TakeLeft(p, d, h, c, tb, q, m, b, n, a, j);
      q', ss', m' := AddEntry(p, q, tb[j]), Clear(ss, i), m + (8 + j);
    }
  }

  /** A window of the second scalar. */
  method SubWindow<G(!new)>(p: pos, ghost d: nat, ghost h: nat, ghost c: Curve<G>, ta: seq<Entry>, q: Quad,
                            ghost b: G, ghost a: G, ghost m: nat, ghost n: nat, ghost t: nat, hhh: nat, i: nat)
    returns (q': Quad, hhh': nat, ghost n': nat)
    requires Ready(p, d, h, c) && TableOf(p, d, h, c, ta, a)
    requires Shows(p, c, q, Comb(c, m, b, n, a)) && Left(t, n, hhh, i, 16)
    ensures Shows(p, c, q', Comb(c, m, b, n', a)) && Left(t, n', hhh', i, 8)
  {
    q', hhh', n' := q, hhh, n;
    Consume(t, n, hhh, i);
    if Bit(hhh, i) {
      var j := Digit(hhh, i);
      TakeRight(p, d, h, c, ta, q, m, b, n, a, j);
      q', hhh', n' := SubEntry(p, q, ta[j]), Clear(hhh, i), n + (8 + j);
    }
  }

  /** The accumulator is m b - n a, and what is left of either scalar lies below `width`. */
  ghost predicate Partial<G>(p: pos, c: Curve<G>, q: Quad, b: G, a: G, m: nat, n: nat,
                             s: nat, t: nat, ss: nat, hhh: nat, i: nat, width: nat)
    requires width > 0
  {
    && Shows(p, c, q, Comb(c, m, b, n, a))
    && Left(s, m, ss, i, width) && Left(t, n, hhh, i, width)
    && ss % 8 == 0
  }

  method TakeWindows<G(!new)>(p: pos, ghost d: nat, ghost h: nat, ghost c: Curve<G>, tb: seq<Entry>, ta: seq<Entry>,
                              q: Quad, ghost b: G, ghost a: G, ghost m: nat, ghost n: nat,
                              ghost s: nat, ghost t: nat, ss: nat, hhh: nat, i: nat)
    returns (q': Quad, ss': nat, hhh': nat, ghost m': nat, ghost n': nat)
    requires Ready(p, d, h, c) && TableOf(p, d, h, c, tb, b) && TableOf(p, d, h, c, ta, a)
    requires Partial(p, c, q, b, a, m, n, s, t, ss, hhh, i, 16)
    ensures Partial(p, c, q', b, a, m', n', s, t, ss', hhh', i, 8)
  {
    q', ss', m' := AddWindow(p, d, h, c, tb, q, b, a, m, n, s, ss, i);
    q', hhh', n' := SubWindow(p, d, h, c, ta, q', b, a, m', n, t, hhh, i);
  }

  /** The closing block. */
  method LastWindow<G(!new)>(p: pos, ghost d: nat, ghost h: nat, ghost c: Curve<G>, ta: seq<Entry>,
                             q: Quad, ghost b: G, ghost a: G, ghost m: nat, ghost n: nat,
                             ghost s: nat, ghost t: nat, ghost ss: nat, hhh: nat) returns (q': Quad)
    requires Ready(p, d, h, c) && TableOf(p, d, h, c, ta, a)
    requires Partial(p, c, q, b, a, m, n, s, t, ss, hhh, 0, 8)
    ensures Shows(p, c, q', Comb(c, s, b, t + 8, a))
  {
    var j := hhh % 8;
    TakeRight(p, d, h, c, ta, q, m, b, n, a, j);
    NoneLeft(s, m, ss);
    NoneLeft(t, n, hhh);
    assert m == s && n + (8 + j) == t + 8;
    q' := SubEntry(p, q, ta[j]);
  }

  lemma NextPartial<G(!new)>(p: pos, d: nat, h: nat, c: Curve<G>, q: Quad, b: G, a: G, m: nat, n: nat,
                             s: nat, t: nat, ss: nat, hhh: nat, i: nat)
    requires Ready(p, d, h, c) && i > 0 && Partial(p, c, q, b, a, m, n, s, t, ss, hhh, i, 8)
    ensures Partial(p, c, Double(p, q), b, a, 2 * m, 2 * n, s, t, ss, hhh, i - 1, 16)
  {
    TakeDouble(p, d, h, c, q, m, b, n, a);
  }

  /** The loop from `top` (252 in the contract) down to zero. A window of `s` is added from the first table
      when its top bit is set, a window of `t` is subtracted from the second, and the last step subtracts the
      leftover low bits of `t` plus eight: the result is s b - (t + 8) a. */
  method JointMultiply<G(!new)>(p: pos, ghost d: nat, ghost h: nat, ghost c: Curve<G>,
                                tb: seq<Entry>, ta: seq<Entry>, ghost b: G, ghost a: G,
                                top: nat, s: nat, t: nat) returns (q: Quad)
    requires Ready(p, d, h, c) && TableOf(p, d, h, c, tb, b) && TableOf(p, d, h, c, ta, a)
    requires s % 8 == 0 && s < 16 * Pow2(top) && t < 16 * Pow2(top)
    ensures Shows(p, c, q, Comb(c, s, b, t + 8, a))
  {
    var ss, hhh, i := s, t, top;
    q := Quad(0, 1, 1, 1);
    ghost var m: nat, n: nat := 0, 0;
    Started(p, d, h, c, b, a);
    AllLeft(s, top);
    AllLeft(t, top);
    while true
      invariant Partial(p, c, q, b, a, m, n, s, t, ss, hhh, i, 16)
      decreases i
    {
      q, ss, hhh, m, n := TakeWindows(p, d, h, c, tb, ta, q, b, a, m, n, s, t, ss, hhh, i);
      if i == 0 {
        q := LastWindow(p, d, h, c, ta, q, b, a, m, n, s, t, ss, hhh);
        break;
      }
      NextPartial(p, d, h, c, q, b, a, m, n, s, t, ss, hhh, i);
      q, m, n, i := Double(p, q), 2 * m, 2 * n, i - 1;
    }
  }

  // ----- the comparison -----

  /** Back from two fractions to coordinates, with one inversion. */
  method Affine(p: pos, q: Quad, ghost x: nat, ghost y: nat) returns (vx: nat, vy: nat)
    requires Is25519(p) && PrimeField(p) && p > 1 && At(p, q, x, y) && x < p && y < p
    ensures vx == x && vy == y
  {
    var w := Mul(p, q.u, q.v);
    NonZeroProduct(p, q.u, q.v);
    CongMod(q.u * q.v, p);
    var vi := InvertNonZero(p, w);
    vx := Mul(p, q.x, Mul(p, vi, q.v));
    vy := Mul(p, q.y, Mul(p, vi, q.u));
    assert Cong(vi * (q.u * q.v), 1, p) by { CongMul(vi, vi, w, q.u * q.v, p); }
    FractionIs(p, q.x, q.u, q.v, vi, x);
    assert q.u * q.v == q.v * q.u;
    FractionIs(p, q.y, q.v, q.u, vi, y);
  }

  lemma FractionIs(p: pos, n: nat, u: nat, v: nat, vi: nat, x: nat)
    requires Cong(n, x * u, p) && Cong(vi * (u * v), 1, p) && x < p
    ensures Mul(p, n, Mul(p, vi, v)) == x
  {
    MulIs(p, vi, vi, v, v);
    MulIs(p, n, x * u, Mul(p, vi, v), vi * v);
    assert (x * u) * (vi * v) == x * (vi * (u * v)) by {
      Exchange(x, u, vi, v);
      assert (x * vi) * (u * v) == x * (vi * (u * v));
    }
    CongMul(x, x, vi * (u * v), 1, p);
    ModUnique(0, x, p);
    ModUnique(0, Mul(p, n, Mul(p, vi, v)), p);
  }

  // ----- the key -----

  /** `x` is an abscissa for the key with ordinate `y` and the given sign. */
  ghost predicate KeyAt(p: pos, d: nat, x: nat, y: nat, sign: nat) {
    x <= p && x % 2 == sign && OnCurve(p, d, x, y)
  }

  lemma OddModulus(p: pos, n: nat)
    requires n > 0 && p == Pow2(n) - 19
    ensures p % 2 == 1
  {
    assert Pow2(n) == 2 * Pow2(n - 1);
  }

  /** The sign singles out one abscissa. */
  lemma KeyUnique(p: pos, d: nat, x: nat, x': nat, y: nat, sign: nat)
    requires PrimeField(p) && p % 2 == 1 && NoPole(p, d)
    requires KeyAt(p, d, x, y, sign) && KeyAt(p, d, x', y, sign)
    ensures x == x'
  {
    var v := V(p, d, y);
    PointIsRoot(p, d, x, y);
    PointIsRoot(p, d, x', y);
    assert Cong(x * x * v, x' * x' * v, p);
    SameSquare(p, x, x', v);
  }

  /** The abscissa the contract uses is the one of section 5.1.3 of RFC 8032 exactly when the key is canonical;
      otherwise the RFC refuses the key. */
  lemma RfcKeyExactly(p: pos, d: nat, x: nat, y: nat, sign: nat)
    requires PrimeField(p) && p % 2 == 1 && p > 1 && NoPole(p, d) && sign < 2
    ensures RfcKey(p, d, x, y, sign) <==> KeyAt(p, d, x, y, sign) && Canonical(p, y, sign)
  {
    if sign == 1 && (y * y) % p == 1 {
      SignedZero(p, d, y);
      if RfcKey(p, d, x, y, sign) {
        KeyUnique(p, d, x, p, y, sign);
      }
    } else if KeyAt(p, d, x, y, sign) && x == p {
      PointIsRoot(p, d, p, y);
      MultipleSquare(p, V(p, d, y));
      ZeroRoot(p, y, V(p, d, y));
    }
  }

  lemma MultipleSquare(p: pos, v: nat)
    ensures Cong(p * p * v, 0 * 0 * v, p)
  {
    ModShift(0, 1, p);
    CongMul(p, 0, p, 0, p);
    CongMul(p * p, 0 * 0, v, v, p);
  }

  /** Every ordinate whose square is one is decoded, to the unreduced abscissa p when the sign bit is set. */
  lemma SignedZero(p: pos, d: nat, y: nat)
    requires p % 2 == 1 && (y * y) % p == 1
    ensures Decodable(p, d, y) && KeyAt(p, d, p, y, 1) && KeyAt(p, d, 0, y, 0)
  {
    UnitSquare(p, y);
    ZeroCandidate(p, V(p, d, y), Pow2(252) - 3);
    MultipleSquare(p, V(p, d, y));
    RootIsPoint(p, d, p, y);
    RootIsPoint(p, d, 0, y);
  }

  /** The contract and the RFC agree on which keys there are exactly on the canonical ones. */
  lemma RfcDecodesExactly(p: pos, d: nat, i: nat, y: nat, sign: nat)
    requires Is25519(p) && PrimeField(p) && Mul(p, i, i) == p - 1 && NoPole(p, d) && sign < 2
    ensures (exists x: nat :: RfcKey(p, d, x, y, sign)) <==> Decodable(p, d, y) && Canonical(p, y, sign)
  {
    OddModulus(p, 255);
    Exponent(p, 252);
    DecodesExactlyPoints(p, d, i, y);
    if Decodable(p, d, y) && Canonical(p, y, sign) {
      var x: nat :| OnCurve(p, d, x, y);
      PointHasKey(p, d, x, y, sign);
      var x' :| KeyAt(p, d, x', y, sign);
      RfcKeyExactly(p, d, x', y, sign);
    }
    if x: nat :| RfcKey(p, d, x, y, sign) {
      RfcKeyExactly(p, d, x, y, sign);
    }
  }

  /** Of a point and its opposite one has the wanted sign. */
  lemma PointHasKey(p: pos, d: nat, x: nat, y: nat, sign: nat)
    requires p % 2 == 1 && p > 1 && sign < 2 && OnCurve(p, d, x, y)
    ensures exists x': nat :: KeyAt(p, d, x', y, sign)
  {
    var r, v := x % p, V(p, d, y);
    PointIsRoot(p, d, x, y);
    CongMod(x, p);
    CongMul(r, x, r, x, p);
    CongMul(r * r, x * x, v, v, p);
    BothSigns(p, d, y, r);
    assert KeyAt(p, d, if r % 2 == sign then r else p - r, y, sign);
  }

  /** The neutral element with its sign bit set: decoded by the contract, refused by the RFC. */
  lemma SignedNeutral(p: pos, d: nat)
    requires PrimeField(p) && p % 2 == 1 && p > 1 && NoPole(p, d)
    ensures Decodable(p, d, 1) && KeyAt(p, d, p, 1, 1) && forall x: nat :: !RfcKey(p, d, x, 1, 1)
  {
    ModUnique(0, 1, p);
    SignedZero(p, d, 1);
    forall x: nat ensures !RfcKey(p, d, x, 1, 1) {
      RfcKeyExactly(p, d, x, 1, 1);
    }
  }

  /** The neutral element with the ordinate p + 1: decoded by the contract, refused by the RFC. */
  lemma UnreducedNeutral(p: pos, d: nat, y: nat)
    requires p % 2 == 1 && p > 1 && y == p + 1
    ensures Decodable(p, d, y) && KeyAt(p, d, 0, y, 0) && forall x: nat :: !RfcKey(p, d, x, y, 0)
  {
    assert (p + 1) * (p + 1) == (p + 2) * p + 1;
    ModUnique(p + 2, 1, p);
    SignedZero(p, d, y);
  }

  lemma SameSquare(p: pos, x: nat, x': nat, v: nat)
    requires PrimeField(p) && p % 2 == 1 && v % p != 0 && x <= p && x' <= p && x % 2 == x' % 2
    requires Cong(x * x * v, x' * x' * v, p)
    ensures x == x'
  {
    CongSub(x * x * v, x' * x' * v, x' * x' * v, x' * x' * v, p);
    assert x * x * v - x' * x' * v == (x * x - x' * x') * v;
    assert x * x - x' * x' == (x - x') * (x + x');
    ModUnique(0, 0, p);
    if (x - x') % p != 0 && (x + x') % p != 0 {
      NonZeroProduct(p, x - x', x + x');
      NonZeroProduct(p, x * x - x' * x', v);
    }
    Multiples3(p, x, x');
  }

  lemma Multiples3(p: pos, x: nat, x': nat)
    requires p % 2 == 1 && x <= p && x' <= p && x % 2 == x' % 2
    requires (x - x') % p == 0 || (x + x') % p == 0
    ensures x == x'
  {
    if (x - x') % p == 0 {
      ModShift(x - x', 1, p);
      SmallMultiple(x + (p - x'), p);
      ParityFlips(p, x');
    } else {
      SmallMultiple(x + x', p);
      OddSum(p, x, x');
    }
  }

  lemma OddSum(p: nat, x: nat, x': nat)
    requires p % 2 == 1 && x % 2 == x' % 2
    ensures x + x' != p
  {
    ModAdd(x, x', 2);
  }

  lemma SmallMultiple(z: nat, p: pos)
    requires z % p == 0 && z <= 2 * p
    ensures z == 0 || z == p || z == 2 * p
  {
    var q := z / p;
    assert z == q * p;
    assert q * p == (q - 2) * p + 2 * p;
    if q >= 3 {
      MulAtLeast(q - 2, p);
    }
  }

  // ----- the recomputed point -----

  /** `l` times eight annihilates every point. */
  ghost predicate OrderLaw<G(!new)>(c: Curve<G>, l: nat) {
    forall a {:trigger Times(c, 8 * l, a)} :: Times(c, 8 * l, a) == c.zero
  }

  /** The start offset 8 l - 8 and the eight of the closing block come to nothing. */
  lemma OffsetVanishes<G(!new)>(c: Curve<G>, b: G, a: G, l: nat, s: nat, k: nat)
    requires Abelian(c) && OrderLaw(c, l)
    ensures Comb(c, 8 * s, b, k + 8 * l, a) == Comb(c, s, Times(c, 8, b), k, a)
  {
    TimesTimes(c, s, 8, b);
    TimesAdd(c, k, 8 * l, a);
    Zeroes(c, Times(c, k, a));
  }

  lemma StartInRange(s: nat, k: nat, l: nat, top: nat)
    requires s < l && k < l && 9 * l < 16 * Pow2(top)
    ensures 8 * l >= 8 && (8 * s) % 8 == 0 && 8 * s < 16 * Pow2(top) && k + (8 * l - 8) < 16 * Pow2(top)
  {
  }

  method Multiply<G(!new)>(p: pos, ghost d: nat, d2: nat, l: nat, top: nat, tb: seq<Entry>,
                           ghost h: nat, ghost c: Curve<G>, ghost b: G, ghost a: G,
                           kx: nat, ky: nat, s: nat, k: nat) returns (q: Quad)
    requires Ready(p, d, h, c) && Is25519(p) && Cong(d2, 2 * d, p) && TableOf(p, d, h, c, tb, b) && OrderLaw(c, l)
    requires Cong(kx, c.x(a), p) && Cong(ky, c.y(a), p) && kx <= p && ky + p < W
    requires s < l && k < l && 9 * l < 16 * Pow2(top)
    ensures Shows(p, c, q, Comb(c, s, Times(c, 8, b), k, a))
  {
    var ta := BuildTable(p, d, d2, h, c, a, kx, ky);
    var s8, t := 8 * s, k + (8 * l - 8);
    StartInRange(s, k, l, top);
    q := JointMultiply(p, d, h, c, tb, ta, b, a, top, s8, t);
    OffsetVanishes(c, b, a, l, s, k);
  }

  /** Everything between the digest and the comparison: the affine coordinates of s g - k a, where a is the point of
      the key, g = 8 b is the base point and the fixed table holds the multiples of b. It refuses exactly when s is not
      reduced or the key is no point. */
  method Recompute<G(!new)>(p: pos, d: nat, d2: nat, i: nat, l: nat, top: nat, tb: seq<Entry>,
                            ghost h: nat, ghost c: Curve<G>, ghost b: G,
                            ky: nat, ksign: nat, s: nat, k: nat) returns (v: Option<(nat, nat)>)
    requires Ready(p, d, h, c) && Is25519(p) && Mul(p, i, i) == p - 1 && Cong(d2, 2 * d, p)
    requires TableOf(p, d, h, c, tb, b) && OrderLaw(c, l)
    requires ky + p < W && ksign < 2 && k < l && 9 * l < 16 * Pow2(top)
    ensures v.Some? <==> s < l && exists x: nat :: KeyAt(p, d, x, ky, ksign)
    ensures v.Some? ==> forall x: nat {:trigger KeyAt(p, d, x, ky, ksign)} :: KeyAt(p, d, x, ky, ksign) ==>
              var r := Comb(c, s, Times(c, 8, b), k, c.at(x, ky)); v.value == (c.x(r), c.y(r))
  {
    OddModulus(p, 255);
    var kx := DecodeX(p, d, i, ky, ksign);
    if kx.None? {
      DecodesExactlyPoints(p, d, i, ky);
      return None;
    }
    assert KeyAt(p, d, kx.value, ky, ksign);
    OnlyKey(p, d, kx.value, ky, ksign);
    if s >= l {
      return None;
    }
    ghost var a := c.at(kx.value, ky);
    assert SolutionLaw(p, d, c, kx.value, ky);
    var q := Multiply(p, d, d2, l, top, tb, h, c, b, a, kx.value, ky, s, k);
    ghost var r := Comb(c, s, Times(c, 8, b), k, a);
    assert PointLaw(p, d, c, r);
    var vx, vy := Affine(p, q, c.x(r), c.y(r));
    v := Some((vx, vy));
  }

  lemma OnlyKey(p: pos, d: nat, x: nat, y: nat, sign: nat)
    requires PrimeField(p) && p % 2 == 1 && NoPole(p, d) && KeyAt(p, d, x, y, sign)
    ensures forall x': nat {:trigger KeyAt(p, d, x', y, sign)} :: KeyAt(p, d, x', y, sign) ==> x' == x
  {
    forall x': nat {:trigger KeyAt(p, d, x', y, sign)} | KeyAt(p, d, x', y, sign)
      ensures x' == x
    {
      KeyUnique(p, d, x, x', y, sign);
    }
  }

  /** The digest is reduced from its two halves with `c` = 2^256 mod l. */
  lemma DigestReduced(h0: nat, h1: nat, c: nat, l: nat)
    requires l > 0 && c == W % l
    ensures (h0 + (h1 * c) % l) % l == (h0 + W * h1) % l
  {
    CongMod(h1 * c, l);
    CongMod(W, l);
    CongMul(h1, h1, c, W, l);
    CongAdd(h0, h0, (h1 * c) % l, h1 * W, l);
  }

  // ----- the constants of the contract -----

  const P: pos := 0x7fffffff_ffffffff_ffffffff_ffffffff_ffffffff_ffffffff_ffffffff_ffffffed
  const ROOT_OF_MINUS_ONE: nat := 0x2b832480_4fc1df0b_2b4d0099_3dfbd7a7_2f431806_ad2fe478_c4ee1b27_4a0ea0b0
  const D: nat := 0x52036cee_2b6ffe73_8cc74079_7779e898_00700a4d_4141d8ab_75eb4dca_135978a3
  const TWO_D: nat := 0x2406d9dc_56dffce7_198e80f2_eef3d130_00e0149a_8283b156_ebd69b94_26b2f159
  const L: nat := 0x10000000_00000000_00000000_00000000_14def9de_a2f79cd6_5812631a_5cf5d3ed
  const FOLD: nat := 0x0fffffff_ffffffff_ffffffff_fffffffe_c6ef5bf4_737dcf70_d6ec3174_8d98951d
  const START: nat := 0x80000000_00000000_00000000_00000000_a6f7cef5_17bce6b2_c09318d2_e7ae9f60

  lemma Squared(n: nat, v: nat)
    requires Pow2(n) == v
    ensures Pow2(n + n) == v * v
  {
    Pow2Add(n, n);
  }

  lemma PowersOfTwo()
    ensures Pow2(252) == 0x10000000_00000000_00000000_00000000_00000000_00000000_00000000_00000000
  {
    assert Pow2(4) == 16;
    Squared(4, 16);
    Squared(8, 0x100);
    Squared(16, 0x1_0000);
    Squared(32, 0x1_0000_0000);
    Squared(64, 0x1_0000_0000_0000_0000);
    Pow2Add(124, 4);
    Squared(124, 0x10000000_00000000_00000000_00000000);
    Pow2Add(248, 4);
  }

  /** The constants are what their uses require: the modulus and the curve constant -121665/121666 of RFC 8032,
      a square root of -1, the folding factor of the digest and the start offset. */
  lemma SourceConstants()
    ensures Is25519(P) && 2 * P <= W && 9 * L < 16 * Pow2(252)
    ensures Mul(P, ROOT_OF_MINUS_ONE, ROOT_OF_MINUS_ONE) == P - 1
    ensures Cong(D * 121666, -121665, P) && Cong(TWO_D, 2 * D, P)
    ensures FOLD == W % L && START == 8 * L - 8
  {
    PowersOfTwo();
    Pow2Add(252, 3);
    ModUnique(0x0ecaa2e2_f6a2302c_cedb31ac_05720688_238ced20_78f3eb0e_c9f22e8f_621972e4, P - 1, P);
    ModShift(-121665, 0x00013083, P);
    ModShift(TWO_D, 1, P);
    ModUnique(0x0000000f, FOLD, L);
  }
}
