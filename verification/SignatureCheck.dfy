/** The whole call `check(k, r, s, m1, m2)` of Ed25519.sol, from raw words to the group equation. */
module SignatureCheck {
  import opened Prelude
  import opened Arithmetic
  import opened Field25519
  import opened Lanes
  import opened Sha512
  import opened PointDecoding
  import opened Edwards
  import opened CurveGroup
  import opened KeyTable
  import opened Ed25519
  import opened Words

  // ----- numbers -----

  /** Section 5.1.2 of RFC 8032: 255 bits of the ordinate below the sign of the abscissa. */
  ghost predicate Encodes<G>(c: Curve<G>, a: G, n: nat) {
    n == c.y(a) + TOP * (c.x(a) % 2)
  }

  /** Section 5.1.7 of RFC 8032, without the cofactor, for a key as the contract decodes it: some abscissa makes the
      key a point a, and R encodes s g - k a. */
  ghost predicate Accepts<G>(p: pos, d: nat, l: nat, c: Curve<G>, g: G, y: nat, sign: nat, s: nat, k: nat, r: nat) {
    s < l && exists x: nat :: KeyAt(p, d, x, y, sign) && Encodes(c, Comb(c, s, g, k, c.at(x, y)), r)
  }

  /** The same for a key as section 5.1.3 of RFC 8032 decodes it. */
  ghost predicate RfcAccepts<G>(p: pos, d: nat, l: nat, c: Curve<G>, g: G, y: nat, sign: nat, s: nat, k: nat, r: nat) {
    s < l && exists x: nat :: RfcKey(p, d, x, y, sign) && Encodes(c, Comb(c, s, g, k, c.at(x, y)), r)
  }

  /** The contract accepts what the RFC accepts, and more only for keys that are not canonical. */
  lemma AcceptsRfc<G>(p: pos, d: nat, l: nat, c: Curve<G>, g: G, y: nat, sign: nat, s: nat, k: nat, r: nat)
    requires PrimeField(p) && p % 2 == 1 && p > 1 && NoPole(p, d) && sign < 2
    ensures RfcAccepts(p, d, l, c, g, y, sign, s, k, r) <==> Accepts(p, d, l, c, g, y, sign, s, k, r) && Canonical(p, y, sign)
  {
    forall x: nat
      ensures RfcKey(p, d, x, y, sign) <==> KeyAt(p, d, x, y, sign) && Canonical(p, y, sign)
    {
      RfcKeyExactly(p, d, x, y, sign);
    }
  }

  lemma ModulusFits(p: pos)
    requires Is25519(p)
    ensures p < TOP && W == 2 * TOP
  {
    PowersOfTwo();
    Pow2Add(252, 3);
  }

  // ----- words -----

  /** The five swaps. */
  function Swapped(x: bv256): bv256 { SwapSides(SwapLanes(SwapHalves(SwapPairs(SwapBytes(x))))) }

  /** The five swaps, then the low 255 bits, the top bit and the whole number. */
  method Unpack(x: bv256) returns (low: nat, top: nat, n: nat)
    ensures low == LowBits(Reversed(x)) && top == TopBit(Reversed(x)) && n == Number(Reversed(x))
    ensures low < TOP && top < 2 && n == low + TOP * top
  {
    var w := Swapped(x);
    SwapsReverseAll(x);
    low, top, n := LowBits(w), TopBit(w), Number(w);
    LowBitsFit(w);
    TopBitFits(w);
    SplitNumber(w);
  }

  /** The ordinate under the sign of the abscissa, swapped and compared with the word `r`. */
  method Compare(vx: nat, vy: nat, r: bv256) returns (ok: bool)
    requires vx < TOP && vy < TOP
    ensures ok <==> Number(Reversed(r)) == vy + TOP * (vx % 2)
  {
    var v := UnderSign(ToWord(vy), ToWord(vx));
    UnderSignNumber(vy, vx);
    SwapsReverseAll(v);
    SameReversed(v, r);
    ok := Swapped(v) == r;
  }

  function Join(low: nat, high: nat): nat { low + W * high }

  /** SHA-512(R, A, M) as a little-endian number, with the round constants `kk`. */
  function DigestNumber(kk: Table, r: bv256, k: bv256, m1: bv256, m2: bv72): nat {
    var h := Hash(kk, PaddedBlock(r, k, m1, m2));
    Join(Number(FirstHalf(h)), Number(SecondHalf(h)))
  }

  /** The digest and its reduction with `fold` = 2^256 mod l. */
  method ReducedDigest(kk: Table, r: bv256, k: bv256, m1: bv256, m2: bv72, fold: nat, l: pos) returns (hh: nat)
    requires fold == W % l
    ensures hh == DigestNumber(kk, r, k, m1, m2) % l
  {
    var h0, h1 := Digest(kk, r, k, m1, m2);
    hh := Reduce(Number(h0), Number(h1), fold, l);
  }

  method Reduce(h0: nat, h1: nat, fold: nat, l: pos) returns (hh: nat)
    requires fold == W % l
    ensures hh == Join(h0, h1) % l
  {
    hh := (h0 + (h1 * fold) % l) % l;
    DigestReduced(h0, h1, fold, l);
  }

  /** The check once the words of key and signature are numbers. */
  method CheckNumbers<G(!new)>(p: pos, d: nat, d2: nat, i: nat, l: nat, top: nat, tb: seq<Entry>,
                               ghost h: nat, ghost c: Curve<G>, ghost b: G,
                               ky: nat, ksign: nat, r: bv256, s: nat, k: nat) returns (ok: bool)
    requires Ready(p, d, h, c) && Is25519(p) && Mul(p, i, i) == p - 1 && Cong(d2, 2 * d, p)
    requires TableOf(p, d, h, c, tb, b) && OrderLaw(c, l) && 9 * l < 16 * Pow2(top)
    requires ky < TOP && ksign < 2 && k < l
    ensures ok <==> Accepts(p, d, l, c, Times(c, 8, b), ky, ksign, s, k, Number(Reversed(r)))
  {
    ModulusFits(p);
    var v := Recompute(p, d, d2, i, l, top, tb, h, c, b, ky, ksign, s, k);
    if v.None? {
      return false;
    }
    Decided(p, d, l, c, Times(c, 8, b), ky, ksign, s, k, Number(Reversed(r)), v.value.0, v.value.1);
    ok := Compare(v.value.0, v.value.1, r);
  }

  /** For the one point of the key acceptance is that `r` encodes the recomputed coordinates. */
  lemma Decided<G(!new)>(p: pos, d: nat, l: nat, c: Curve<G>, g: G, ky: nat, ksign: nat, s: nat, k: nat, r: nat, vx: nat, vy: nat)
    requires Lawful(p, d, c) && p < TOP && s < l && exists x: nat :: KeyAt(p, d, x, ky, ksign)
    requires forall x: nat {:trigger KeyAt(p, d, x, ky, ksign)} :: KeyAt(p, d, x, ky, ksign) ==>
               var q := Comb(c, s, g, k, c.at(x, ky)); (vx, vy) == (c.x(q), c.y(q))
    ensures vx < TOP && vy < TOP && (Accepts(p, d, l, c, g, ky, ksign, s, k, r) <==> r == vy + TOP * (vx % 2))
  {
    var x: nat :| KeyAt(p, d, x, ky, ksign);
    assert PointLaw(p, d, c, Comb(c, s, g, k, c.at(x, ky)));
  }

  /** The call accepts exactly when s, read low byte first, is reduced, the key word is a point a, and the word r
      encodes s g - k a with k = SHA-512(R, A, M) mod l. */
  method CheckWords<G(!new)>(p: pos, d: nat, d2: nat, i: nat, l: pos, fold: nat, top: nat, tb: seq<Entry>, kk: Table,
                             ghost h: nat, ghost c: Curve<G>, ghost b: G,
                             k: bv256, r: bv256, s: bv256, m1: bv256, m2: bv72) returns (ok: bool)
    requires Ready(p, d, h, c) && Is25519(p) && Mul(p, i, i) == p - 1 && Cong(d2, 2 * d, p)
    requires TableOf(p, d, h, c, tb, b) && OrderLaw(c, l) && fold == W % l && 9 * l < 16 * Pow2(top)
    ensures ok <==> Accepts(p, d, l, c, Times(c, 8, b), LowBits(Reversed(k)), TopBit(Reversed(k)), Number(Reversed(s)),
                            DigestNumber(kk, r, k, m1, m2) % l, Number(Reversed(r)))
  {
    var hh := ReducedDigest(kk, r, k, m1, m2, fold, l);
    var ky, ksign, _ := Unpack(k);
    var _, _, sn := Unpack(s);
    ok := CheckNumbers(p, d, d2, i, l, top, tb, h, c, b, ky, ksign, r, sn, hh);
  }

  /** `check` with the constants of the contract. The RFC accepts exactly what it accepts with a canonical
      key. */
  method CheckSignature<G(!new)>(tb: seq<Entry>, ghost h: nat, ghost c: Curve<G>, ghost b: G,
                                 k: bv256, r: bv256, s: bv256, m1: bv256, m2: bv72) returns (ok: bool)
    requires Ready(P, D, h, c) && TableOf(P, D, h, c, tb, b) && OrderLaw(c, L)
    ensures ok <==> Accepts(P, D, L, c, Times(c, 8, b), LowBits(Reversed(k)), TopBit(Reversed(k)), Number(Reversed(s)),
                            DigestNumber(KK, r, k, m1, m2) % L, Number(Reversed(r)))
    ensures RfcAccepts(P, D, L, c, Times(c, 8, b), LowBits(Reversed(k)), TopBit(Reversed(k)), Number(Reversed(s)),
                       DigestNumber(KK, r, k, m1, m2) % L, Number(Reversed(r)))
            <==> ok && Canonical(P, LowBits(Reversed(k)), TopBit(Reversed(k)))
  {
    SourceConstants();
    TopBitFits(Reversed(k));
    AcceptsRfc(P, D, L, c, Times(c, 8, b), LowBits(Reversed(k)), TopBit(Reversed(k)), Number(Reversed(s)),
               DigestNumber(KK, r, k, m1, m2) % L, Number(Reversed(r)));
    ok := CheckWords(P, D, TWO_D, ROOT_OF_MINUS_ONE, L, FOLD, 252, tb, KK, h, c, b, k, r, s, m1, m2);
  }

  // ----- where the contract and the RFC differ -----

  ghost predicate Neutral<G>(c: Curve<G>, a: G) {
    c.x(a) == 0 && c.y(a) == 1
  }

  lemma IsNeutral<G(!new)>(p: pos, d: nat, c: Curve<G>, a: G)
    requires Lawful(p, d, c) && Cong(c.x(a), 0, p) && Cong(c.y(a), 1, p)
    ensures Neutral(c, a)
  {
    assert PointLaw(p, d, c, a);
    ModUnique(0, 0, p);
    ModUnique(0, 1, p);
    ModUnique(0, c.x(a), p);
    ModUnique(0, c.y(a), p);
  }

  lemma NeutralSum<G(!new)>(p: pos, d: nat, c: Curve<G>, a: G, b: G)
    requires Lawful(p, d, c) && Neutral(c, a) && Neutral(c, b)
    ensures Neutral(c, c.add(a, b))
  {
    assert SumLaw(p, d, c, a, b);
    assert Cross(d, 0, 1, 0, 1) == 0;
    IsNeutral(p, d, c, c.add(a, b));
  }

  lemma {:induction false} NeutralTimes<G(!new)>(p: pos, d: nat, c: Curve<G>, n: nat, a: G)
    requires Lawful(p, d, c) && Neutral(c, a)
    ensures Neutral(c, Times(c, n, a))
  {
    if n == 0 {
      IsNeutral(p, d, c, c.zero);
    } else {
      NeutralTimes(p, d, c, n - 1, a);
      NeutralSum(p, d, c, a, Times(c, n - 1, a));
    }
  }

  lemma NeutralComb<G(!new)>(p: pos, d: nat, c: Curve<G>, g: G, k: nat, a: G)
    requires Lawful(p, d, c) && Neutral(c, a)
    ensures Neutral(c, Comb(c, 0, g, k, a))
  {
    var t := Times(c, k, a);
    NeutralTimes(p, d, c, k, a);
    assert PointLaw(p, d, c, t);
    IsNeutral(p, d, c, c.neg(t));
    IsNeutral(p, d, c, c.zero);
    NeutralSum(p, d, c, c.zero, c.neg(t));
  }

  /** The neutral element as a key with its sign bit set, s = 0 and R the encoding of the neutral element: whatever the
      digest, the contract accepts and the RFC does not. */
  lemma NeutralAccepted<G(!new)>(p: pos, d: nat, l: pos, c: Curve<G>, g: G, k: nat)
    requires PrimeField(p) && p % 2 == 1 && Lawful(p, d, c)
    ensures Accepts(p, d, l, c, g, 1, 1, 0, k, 1) && !RfcAccepts(p, d, l, c, g, 1, 1, 0, k, 1)
  {
    SignedNeutral(p, d);
    var a := c.at(p, 1);
    assert SolutionLaw(p, d, c, p, 1);
    ModShift(0, 1, p);
    IsNeutral(p, d, c, a);
    NeutralComb(p, d, c, g, k, a);
    assert KeyAt(p, d, p, 1, 1) && Encodes(c, Comb(c, 0, g, k, c.at(p, 1)), 1);
  }

  /** The words of such a key and of such an R. */
  const SIGNED_NEUTRAL: bv256 := 0x01000000_00000000_00000000_00000000_00000000_00000000_00000000_00000080
  const NEUTRAL: bv256 := 0x01000000_00000000_00000000_00000000_00000000_00000000_00000000_00000000

  lemma NeutralWords()
    ensures LowBits(Reversed(SIGNED_NEUTRAL)) == 1 && TopBit(Reversed(SIGNED_NEUTRAL)) == 1
    ensures Number(Reversed(NEUTRAL)) == 1 && Number(Reversed(0)) == 0
  {
  }

  /** With these words the call accepts whatever the digest, so every message, and the RFC none. */
  lemma NeutralSignature<G(!new)>(c: Curve<G>, g: G, k: nat)
    requires PrimeField(P) && Lawful(P, D, c)
    ensures var y, sign := LowBits(Reversed(SIGNED_NEUTRAL)), TopBit(Reversed(SIGNED_NEUTRAL));
            && Accepts(P, D, L, c, g, y, sign, Number(Reversed(0)), k, Number(Reversed(NEUTRAL)))
            && !RfcAccepts(P, D, L, c, g, y, sign, Number(Reversed(0)), k, Number(Reversed(NEUTRAL)))
  {
    NeutralWords();
    NeutralAccepted(P, D, L, c, g, k);
  }
}
