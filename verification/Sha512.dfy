/** SHA-512 of one block as section 6.4.2 of FIPS 180-4 defines it, and the packed computation of
    Ed25519.sol: four schedule words to a 256-bit word, working variables masked only where a
    rotation needs it. */
module Sha512 {
  import opened Lanes

  // ----- the standard -----

  /** The eight working variables, or a hash value. */
  datatype Words = Words(a: bv64, b: bv64, c: bv64, d: bv64, e: bv64, f: bv64, g: bv64, h: bv64)

  const IV: Words := Words(0x6a09e667_f3bcc908, 0xbb67ae85_84caa73b, 0x3c6ef372_fe94f82b, 0xa54ff53a_5f1d36f1,
                           0x510e527f_ade682d1, 0x9b05688c_2b3e6c1f, 0x1f83d9ab_fb41bd6b, 0x5be0cd19_137e2179)

  /** A table of round constants in the contract's layout: row `j`, column `i` is the constant of
      round `16 * i + j`. */
  type Table = kk: seq<seq<bv64>> | |kk| == 16 && forall j :: 0 <= j < 16 ==> |kk[j]| == 5
    witness seq(16, _ => seq(5, _ => 0))

  function K(kk: Table, t: nat): bv64
    requires t < 80
  {
    kk[t % 16][t / 16]
  }

  /** Schedule word `t` follows from the sixteen before it. */
  predicate ScheduledAt(w: seq<bv64>, t: nat)
    requires 16 <= t < |w|
  {
    w[t] == Add4(SmallSigma1(w[t - 2]), w[t - 7], SmallSigma0(w[t - 15]), w[t - 16])
  }

  predicate IsSchedule(w: seq<bv64>) {
    |w| >= 16 && forall t {:trigger ScheduledAt(w, t)} :: 16 <= t < |w| ==> ScheduledAt(w, t)
  }

  /** The message schedule of a block: sixteen words extended to eighty. */
  function Schedule(w: seq<bv64>): (r: seq<bv64>)
    requires IsSchedule(w) && |w| <= 80
    ensures |r| == 80 && IsSchedule(r) && r[..|w|] == w
    decreases 80 - |w|
  {
    if |w| == 80 then w
    else
      var n := |w|;
      var next := Add4(SmallSigma1(w[n - 2]), w[n - 7], SmallSigma0(w[n - 15]), w[n - 16]);
      ExtendSchedule(w, next);
      var r := Schedule(w + [next]);
      assert r[..n] == r[..n + 1][..n] == w;
      r
  }

  lemma ExtendSchedule(w: seq<bv64>, x: bv64)
    requires IsSchedule(w) && x == Add4(SmallSigma1(w[|w| - 2]), w[|w| - 7], SmallSigma0(w[|w| - 15]), w[|w| - 16])
    ensures IsSchedule(w + [x])
  {
    forall t {:trigger ScheduledAt(w + [x], t)} | 16 <= t < |w| + 1 ensures ScheduledAt(w + [x], t) {
      assert t < |w| ==> ScheduledAt(w, t);
    }
  }

  function Round(s: Words, k: bv64, w: bv64): Words {
    var t1 := Add5(s.h, BigSigma1(s.e), Ch(s.e, s.f, s.g), k, w);
    var t2 := Add2(BigSigma0(s.a), Maj(s.a, s.b, s.c));
    Words(Add2(t1, t2), s.a, s.b, s.c, Add2(s.d, t1), s.e, s.f, s.g)
  }

  /** The working variables before round `t`, for the schedule `w`. */
  function Rounds(kk: Table, w: seq<bv64>, t: nat): Words
    requires |w| == 80 && t <= 80
  {
    if t == 0 then IV else Round(Rounds(kk, w, t - 1), K(kk, t - 1), w[t - 1])
  }

  /** The hash value of a message of one padded block. */
  function Hash(kk: Table, block: seq<bv64>): Words
    requires |block| == 16
  {
    var s := Rounds(kk, Schedule(block), 80);
    Words(Add2(s.a, IV.a), Add2(s.b, IV.b), Add2(s.c, IV.c), Add2(s.d, IV.d),
          Add2(s.e, IV.e), Add2(s.f, IV.f), Add2(s.g, IV.g), Add2(s.h, IV.h))
  }

  // ----- one packed round -----

  datatype Packed = Packed(a: bv256, b: bv256, c: bv256, d: bv256, e: bv256, f: bv256, g: bv256, h: bv256)

  function PackedRound(p: Packed, k: bv256, w: bv256): Packed {
    var e := MaskLow(p.e);
    var temp1 := WideAdd5(p.h, WideSigma1(e), WideCh(e, p.f, p.g), k, w);
    var a := MaskLow(p.a);
    var temp2 := WideAdd2(WideSigma0(a), WideMaj(a, p.b, p.c));
    Packed(WideAdd2(temp1, temp2), a, p.b, p.c, WideAdd2(p.d, temp1), e, p.f, p.g)
  }

  /** The packed variables carry the scalar ones: `a` and `e` in their low lane, the rest exactly. */
  ghost predicate Carries(p: Packed, s: Words) {
    && Low(p.a) == s.a && p.b == Wide(s.b) && p.c == Wide(s.c) && p.d == Wide(s.d)
    && Low(p.e) == s.e && p.f == Wide(s.f) && p.g == Wide(s.g) && p.h == Wide(s.h)
  }

  /** A packed round is a round of the standard, whatever the upper lanes of the schedule word hold. */
  lemma RoundCarries(p: Packed, s: Words, k: bv64, w: bv256)
    requires Carries(p, s)
    ensures Carries(PackedRound(p, Wide(k), w), Round(s, k, Low(w)))
  {
    MaskIsWide(p.e);
    MaskIsWide(p.a);
    LowSigma1(s.e);
    LowCh(s.e, s.f, s.g);
    LowSigma0(s.a);
    LowMaj(s.a, s.b, s.c);
    LowWide(s.h);
    LowWide(k);
    LowWide(s.d);
    var e, a := MaskLow(p.e), MaskLow(p.a);
    LowAdd5(p.h, WideSigma1(e), WideCh(e, p.f, p.g), Wide(k), w);
    LowAdd2(WideSigma0(a), WideMaj(a, p.b, p.c));
    var temp1 := WideAdd5(p.h, WideSigma1(e), WideCh(e, p.f, p.g), Wide(k), w);
    var temp2 := WideAdd2(WideSigma0(a), WideMaj(a, p.b, p.c));
    LowAdd2(temp1, temp2);
    LowAdd2(p.d, temp1);
  }

  // ----- message expansion -----

  function ExpandHi(t0: bv256, t2: bv256, t3: bv256): bv256 {
    MaskHi(WideAdd4(MaskHi(t0), MiddleHi(t2), Sigma0Hi(t0), Sigma1Hi(t3)))
  }

  function ExpandLo(t0: bv256, t1: bv256, t2: bv256, t3: bv256, n1: bv256): bv256 {
    MaskLo(WideAdd4(MaskLo(t0), MiddleLo(t2, t3), Sigma0Lo(t0, t1), Sigma1Lo(n1)))
  }

  /** Four new schedule words from the last sixteen. */
  function Expand(t0: bv256, t1: bv256, t2: bv256, t3: bv256): bv256 {
    var n1 := ExpandHi(t0, t2, t3);
    Or(n1, ExpandLo(t0, t1, t2, t3, n1))
  }

  /** The schedule words `t` to `t + 3`, packed. */
  ghost function Quad(w: seq<bv64>, t: nat): bv256
    requires t + 4 <= |w|
  {
    Pack(w[t], w[t + 1], w[t + 2], w[t + 3])
  }

  /** One expansion step leaves the next four schedule words, with no carry between lanes. */
  lemma ExpandWords(w: seq<bv64>)
    requires |w| == 20
    requires w[16] == Add4(w[0], w[9], SmallSigma0(w[1]), SmallSigma1(w[14]))
    requires w[17] == Add4(w[1], w[10], SmallSigma0(w[2]), SmallSigma1(w[15]))
    requires w[18] == Add4(w[2], w[11], SmallSigma0(w[3]), SmallSigma1(w[16]))
    requires w[19] == Add4(w[3], w[12], SmallSigma0(w[4]), SmallSigma1(w[17]))
    ensures Expand(Quad(w, 0), Quad(w, 4), Quad(w, 8), Quad(w, 12)) == Quad(w, 16)
  {
    PackHi(w[0], w[1], w[2], w[3]);
    PackHi(w[8], w[9], w[10], w[11]);
    PackSigma0Hi(w[0], w[1], w[2], w[3]);
    PackSigma1Hi(w[12], w[13], w[14], w[15]);
    SumHi(w[0], w[1], w[9], w[10], SmallSigma0(w[1]), SmallSigma0(w[2]), SmallSigma1(w[14]), SmallSigma1(w[15]));
    PackLo(w[0], w[1], w[2], w[3], w[4], w[5], w[6], w[7]);
    PackLo(w[8], w[9], w[10], w[11], w[12], w[13], w[14], w[15]);
    PackSigma0Lo(w[0], w[1], w[2], w[3], w[4], w[5], w[6], w[7]);
    HiSigma1Lo(w[16], w[17]);
    SumLo(w[2], w[3], w[11], w[12], SmallSigma0(w[3]), SmallSigma0(w[4]), SmallSigma1(w[16]), SmallSigma1(w[17]));
    HiLo(w[16], w[17], w[18], w[19]);
  }

  lemma Ordered(w: seq<bv64>, t: nat)
    requires IsSchedule(w) && t + 16 < |w|
    ensures w[t + 16] == Add4(w[t], w[t + 9], SmallSigma0(w[t + 1]), SmallSigma1(w[t + 14]))
  {
    assert ScheduledAt(w, t + 16);
    Add4Swap(w[t], w[t + 9], SmallSigma0(w[t + 1]), SmallSigma1(w[t + 14]));
  }

  lemma ExpandIsSchedule(w: seq<bv64>, t: nat)
    requires IsSchedule(w) && t + 20 <= |w|
    ensures Expand(Quad(w, t), Quad(w, t + 4), Quad(w, t + 8), Quad(w, t + 12)) == Quad(w, t + 16)
  {
    var v := w[t..t + 20];
    Ordered(w, t);
    Ordered(w, t + 1);
    Ordered(w, t + 2);
    Ordered(w, t + 3);
    ExpandWords(v);
    assert Quad(v, 0) == Quad(w, t) && Quad(v, 4) == Quad(w, t + 4) && Quad(v, 8) == Quad(w, t + 8)
        && Quad(v, 12) == Quad(w, t + 12) && Quad(v, 16) == Quad(w, t + 16);
  }

  // ----- the contract's computation -----

  /** The padded block of the 105-byte message `r`, `k`, `m1`, `m2`. */
  function PaddedBlock(r: bv256, k: bv256, m1: bv256, m2: bv72): seq<bv64> {
    [Word0(r), Word1(r), Word2(r), Word3(r), Word0(k), Word1(k), Word2(k), Word3(k),
     Word0(m1), Word1(m1), Word2(m1), Word3(m1), TailWord0(m2), TailWord1(m2), 0, 105 * 8]
  }

  lemma LaneLow(w: seq<bv64>, t: nat, j: nat)
    requires t + 4 <= |w| && j < 4
    ensures Low(Lane(Quad(w, t), j)) == w[t + j]
  {
    var x := PackLaneIs(w[t], w[t + 1], w[t + 2], w[t + 3], j);
    if j == 0 {
    } else if j == 1 {
    } else if j == 2 {
    } else {
    }
  }

  lemma PackLaneIs(w0: bv64, w1: bv64, w2: bv64, w3: bv64, j: nat) returns (x: bv64)
    requires j < 4
    ensures x == Low(Lane(Pack(w0, w1, w2, w3), j))
    ensures (j == 0 ==> x == w0) && (j == 1 ==> x == w1) && (j == 2 ==> x == w2) && (j == 3 ==> x == w3)
  {
    PackLane(w0, w1, w2, w3, j);
    x := Low(Lane(Pack(w0, w1, w2, w3), j));
  }

  lemma RoundsCarry(kk: Table, p: Packed, w: seq<bv64>, t: nat, k: bv64, word: bv256)
    requires |w| == 80 && t < 80 && Carries(p, Rounds(kk, w, t)) && k == K(kk, t) && Low(word) == w[t]
    ensures Carries(PackedRound(p, Wide(k), word), Rounds(kk, w, t + 1))
  {
    RoundCarries(p, Rounds(kk, w, t), k, word);
  }

  /** Round `t`, on a packed schedule word that holds its word in lane `lane`. */
  method RoundAt(kk: Table, p0: Packed, k: bv64, x: bv256, lane: nat, ghost w: seq<bv64>, ghost t: nat) returns (p: Packed)
    requires lane < 4 && lane <= t < 80 && |w| == 80 && t - lane + 4 <= 80 && x == Quad(w, t - lane) && k == K(kk, t)
    requires Carries(p0, Rounds(kk, w, t))
    ensures Carries(p, Rounds(kk, w, t + 1))
  {
    LaneLow(w, t - lane, lane);
    RoundsCarry(kk, p0, w, t, k, Lane(x, lane));
    p := PackedRound(p0, Wide(k), Lane(x, lane));
  }

  lemma ConstantOf(kk: Table, i: nat, j: nat)
    requires i < 5 && j < 16
    ensures K(kk, 16 * i + j) == kk[j][i]
  {
    assert (16 * i + j) % 16 == j && (16 * i + j) / 16 == i;
  }

  /** Four rounds on one packed word; the contract has them unrolled. */
  method FourRounds(kk: Table, p0: Packed, x: bv256, i: nat, q: nat, ghost w: seq<bv64>) returns (p: Packed)
    requires i < 5 && q < 4 && |w| == 80 && x == Quad(w, 16 * i + 4 * q)
    requires Carries(p0, Rounds(kk, w, 16 * i + 4 * q))
    ensures Carries(p, Rounds(kk, w, 16 * i + 4 * q + 4))
  {
    p := p0;
    ghost var t := 16 * i + 4 * q;
    for lane := 0 to 4
      invariant Carries(p, Rounds(kk, w, t + lane))
    {
      ConstantOf(kk, i, 4 * q + lane);
      p := RoundAt(kk, p, kk[4 * q + lane][i], x, lane, w, t + lane);
    }
  }

  method SixteenRounds(kk: Table, p0: Packed, w0: bv256, w1: bv256, w2: bv256, w3: bv256, i: nat, ghost w: seq<bv64>)
    returns (p: Packed)
    requires i < 5 && |w| == 80 && Carries(p0, Rounds(kk, w, 16 * i))
    requires w0 == Quad(w, 16 * i) && w1 == Quad(w, 16 * i + 4) && w2 == Quad(w, 16 * i + 8) && w3 == Quad(w, 16 * i + 12)
    ensures Carries(p, Rounds(kk, w, 16 * i + 16))
  {
    p := FourRounds(kk, p0, w0, i, 0, w);
    p := FourRounds(kk, p, w1, i, 1, w);
    p := FourRounds(kk, p, w2, i, 2, w);
    p := FourRounds(kk, p, w3, i, 3, w);
  }

  /** One pass of message expansion: each packed word is replaced in turn, the later ones from the
      already replaced earlier ones. */
  method ExpandAll(w0: bv256, w1: bv256, w2: bv256, w3: bv256, ghost w: seq<bv64>, ghost t: nat)
    returns (t0: bv256, t1: bv256, t2: bv256, t3: bv256)
    requires IsSchedule(w) && t + 32 <= |w|
    requires w0 == Quad(w, t) && w1 == Quad(w, t + 4) && w2 == Quad(w, t + 8) && w3 == Quad(w, t + 12)
    ensures t0 == Quad(w, t + 16) && t1 == Quad(w, t + 20) && t2 == Quad(w, t + 24) && t3 == Quad(w, t + 28)
  {
    t0 := ExpandOne(w0, w1, w2, w3, w, t);
    t1 := ExpandOne(w1, w2, w3, t0, w, t + 4);
    t2 := ExpandOne(w2, w3, t0, t1, w, t + 8);
    t3 := ExpandOne(w3, t0, t1, t2, w, t + 12);
  }

  method ExpandOne(t0: bv256, t1: bv256, t2: bv256, t3: bv256, ghost w: seq<bv64>, ghost t: nat) returns (r: bv256)
    requires IsSchedule(w) && t + 20 <= |w|
    requires t0 == Quad(w, t) && t1 == Quad(w, t + 4) && t2 == Quad(w, t + 8) && t3 == Quad(w, t + 12)
    ensures r == Quad(w, t + 16)
  {
    ExpandIsSchedule(w, t);
    r := Expand(t0, t1, t2, t3);
  }

  lemma QuadIs(w: seq<bv64>, t: nat, a: bv64, b: bv64, c: bv64, d: bv64)
    requires t + 4 <= |w| && w[t] == a && w[t + 1] == b && w[t + 2] == c && w[t + 3] == d
    ensures Quad(w, t) == Pack(a, b, c, d)
  {
  }

  lemma SixteenAt<T>(w: seq<T>, b0: T, b1: T, b2: T, b3: T, b4: T, b5: T, b6: T, b7: T,
                     b8: T, b9: T, b10: T, b11: T, b12: T, b13: T, b14: T, b15: T)
    requires |w| >= 16 && w[..16] == [b0, b1, b2, b3, b4, b5, b6, b7, b8, b9, b10, b11, b12, b13, b14, b15]
    ensures w[0] == b0 && w[1] == b1 && w[2] == b2 && w[3] == b3 && w[4] == b4 && w[5] == b5 && w[6] == b6 && w[7] == b7
    ensures w[8] == b8 && w[9] == b9 && w[10] == b10 && w[11] == b11 && w[12] == b12 && w[13] == b13 && w[14] == b14 && w[15] == b15
  {
    assert forall i :: 0 <= i < 16 ==> w[..16][i] == w[i];
  }

  /** A block, given word by word. */
  lemma QuartersPack(w: seq<bv64>, b0: bv64, b1: bv64, b2: bv64, b3: bv64, b4: bv64, b5: bv64, b6: bv64, b7: bv64,
                     b8: bv64, b9: bv64, b10: bv64, b11: bv64, b12: bv64, b13: bv64, b14: bv64, b15: bv64)
    requires |w| == 80 && w[..16] == [b0, b1, b2, b3, b4, b5, b6, b7, b8, b9, b10, b11, b12, b13, b14, b15]
    ensures Quad(w, 0) == Pack(b0, b1, b2, b3) && Quad(w, 4) == Pack(b4, b5, b6, b7)
    ensures Quad(w, 8) == Pack(b8, b9, b10, b11) && Quad(w, 12) == Pack(b12, b13, b14, b15)
  {
    SixteenAt(w, b0, b1, b2, b3, b4, b5, b6, b7, b8, b9, b10, b11, b12, b13, b14, b15);
    QuadIs(w, 0, b0, b1, b2, b3);
    QuadIs(w, 4, b4, b5, b6, b7);
    QuadIs(w, 8, b8, b9, b10, b11);
    QuadIs(w, 12, b12, b13, b14, b15);
  }

  lemma PaddedPacks(r: bv256, k: bv256, m1: bv256, m2: bv72, w: seq<bv64>)
    requires |w| == 80 && w[..16] == PaddedBlock(r, k, m1, m2)
    ensures Interleave(r) == Quad(w, 0) && Interleave(k) == Quad(w, 4) && Interleave(m1) == Quad(w, 8) && Tail(m2) == Quad(w, 12)
  {
    QuartersPack(w, Word0(r), Word1(r), Word2(r), Word3(r), Word0(k), Word1(k), Word2(k), Word3(k),
                 Word0(m1), Word1(m1), Word2(m1), Word3(m1), TailWord0(m2), TailWord1(m2), 0, 105 * 8);
    InterleavePacks(r);
    InterleavePacks(k);
    InterleavePacks(m1);
    TailPacks(m2);
  }

  /** Rounds and expansions in turn, five times over. */
  method Compress(kk: Table, r: bv256, k: bv256, m1: bv256, m2: bv72, ghost w: seq<bv64>) returns (p: Packed)
    requires |w| == 80 && IsSchedule(w) && w[..16] == PaddedBlock(r, k, m1, m2)
    ensures Carries(p, Rounds(kk, w, 80))
  {
    var w0, w1, w2, w3 := Interleave(r), Interleave(k), Interleave(m1), Tail(m2);
    PaddedPacks(r, k, m1, m2, w);
    p := Packed(Wide(IV.a), Wide(IV.b), Wide(IV.c), Wide(IV.d), Wide(IV.e), Wide(IV.f), Wide(IV.g), Wide(IV.h));
    LowWide(IV.a);
    LowWide(IV.e);
    var i := 0;
    while true
      invariant 0 <= i < 5
      invariant w0 == Quad(w, 16 * i) && w1 == Quad(w, 16 * i + 4) && w2 == Quad(w, 16 * i + 8) && w3 == Quad(w, 16 * i + 12)
      invariant Carries(p, Rounds(kk, w, 16 * i))
      decreases 5 - i
    {
      p := SixteenRounds(kk, p, w0, w1, w2, w3, i, w);
      if i == 4 {
        break;
      }
      w0, w1, w2, w3 := ExpandAll(w0, w1, w2, w3, w, 16 * i);
      i := i + 1;
    }
  }

  /** The two halves of a hash value as 256-bit words in which its bytes stand in little-endian order. */
  function FirstHalf(h: Words): bv256 { Stack(Reverse(h.a), Reverse(h.b), Reverse(h.c), Reverse(h.d)) }
  function SecondHalf(h: Words): bv256 { Stack(Reverse(h.e), Reverse(h.f), Reverse(h.g), Reverse(h.h)) }

  /** The digest as the contract leaves it. */
  method Digest(kk: Table, r: bv256, k: bv256, m1: bv256, m2: bv72) returns (h0: bv256, h1: bv256)
    ensures var h := Hash(kk, PaddedBlock(r, k, m1, m2));
            h0 == FirstHalf(h) && h1 == SecondHalf(h)
  {
    ghost var w := Schedule(PaddedBlock(r, k, m1, m2));
    var p := Compress(kk, r, k, m1, m2, w);
    h0 := StackSums(p.a, p.b, p.c, p.d, Wide(IV.a), Wide(IV.b), Wide(IV.c), Wide(IV.d));
    h0 := SwapHalves(SwapPairs(SwapBytes(h0)));
    h1 := StackSums(p.e, p.f, p.g, p.h, Wide(IV.e), Wide(IV.f), Wide(IV.g), Wide(IV.h));
    h1 := SwapHalves(SwapPairs(SwapBytes(h1)));
    ghost var s := Rounds(kk, w, 80);
    SumsAre(p.a, p.b, p.c, p.d, s.a, s.b, s.c, s.d, IV.a, IV.b, IV.c, IV.d);
    SumsAre(p.e, p.f, p.g, p.h, s.e, s.f, s.g, s.h, IV.e, IV.f, IV.g, IV.h);
  }

  lemma SumsAre(a: bv256, b: bv256, c: bv256, d: bv256, a': bv64, b': bv64, c': bv64, d': bv64,
                i: bv64, j: bv64, k: bv64, l: bv64)
    requires Low(a) == a' && b == Wide(b') && c == Wide(c') && d == Wide(d')
    ensures SwapHalves(SwapPairs(SwapBytes(StackSums(a, b, c, d, Wide(i), Wide(j), Wide(k), Wide(l)))))
            == Stack(Reverse(Add2(a', i)), Reverse(Add2(b', j)), Reverse(Add2(c', k)), Reverse(Add2(d', l)))
  {
    StackSumsIs(a, b, c, d, Wide(i), Wide(j), Wide(k), Wide(l));
    LowAdd2(a, Wide(i)); LowAdd2(b, Wide(j)); LowAdd2(c, Wide(k)); LowAdd2(d, Wide(l));
    LowWide(b'); LowWide(c'); LowWide(d'); LowWide(i); LowWide(j); LowWide(k); LowWide(l);
    SwapsReverse(Add2(a', i), Add2(b', j), Add2(c', k), Add2(d', l));
  }

  /** The table of the contract, which is that of section 4.2.3 of FIPS 180-4. */
  const KK: Table := [
    [0x428a2f98_d728ae22, 0xe49b69c1_9ef14ad2, 0x27b70a85_46d22ffc, 0x19a4c116_b8d2d0c8, 0xca273ece_ea26619c],
    [0x71374491_23ef65cd, 0xefbe4786_384f25e3, 0x2e1b2138_5c26c926, 0x1e376c08_5141ab53, 0xd186b8c7_21c0c207],
    [0xb5c0fbcf_ec4d3b2f, 0xfc19dc6_8b8cd5b5, 0x4d2c6dfc_5ac42aed, 0x2748774c_df8eeb99, 0xeada7dd6_cde0eb1e],
    [0xe9b5dba5_8189dbbc, 0x240ca1cc_77ac9c65, 0x53380d13_9d95b3df, 0x34b0bcb5_e19b48a8, 0xf57d4f7f_ee6ed178],
    [0x3956c25b_f348b538, 0x2de92c6f_592b0275, 0x650a7354_8baf63de, 0x391c0cb3_c5c95a63, 0x6f067aa_72176fba],
    [0x59f111f1_b605d019, 0x4a7484aa_6ea6e483, 0x766a0abb_3c77b2a8, 0x4ed8aa4a_e3418acb, 0xa637dc5_a2c898a6],
    [0x923f82a4_af194f9b, 0x5cb0a9dc_bd41fbd4, 0x81c2c92e_47edaee6, 0x5b9cca4f_7763e373, 0x113f9804_bef90dae],
    [0xab1c5ed5_da6d8118, 0x76f988da_831153b5, 0x92722c85_1482353b, 0x682e6ff3_d6b2b8a3, 0x1b710b35_131c471b],
    [0xd807aa98_a3030242, 0x983e5152_ee66dfab, 0xa2bfe8a1_4cf10364, 0x748f82ee_5defb2fc, 0x28db77f5_23047d84],
    [0x12835b01_45706fbe, 0xa831c66d_2db43210, 0xa81a664b_bc423001, 0x78a5636f_43172f60, 0x32caab7b_40c72493],
    [0x243185be_4ee4b28c, 0xb00327c8_98fb213f, 0xc24b8b70_d0f89791, 0x84c87814_a1f0ab72, 0x3c9ebe0a_15c9bebc],
    [0x550c7dc3_d5ffb4e2, 0xbf597fc7_beef0ee4, 0xc76c51a3_0654be30, 0x8cc70208_1a6439ec, 0x431d67c4_9c100d4c],
    [0x72be5d74_f27b896f, 0xc6e00bf3_3da88fc2, 0xd192e819_d6ef5218, 0x90befffa_23631e28, 0x4cc5d4be_cb3e42b6],
    [0x80deb1fe_3b1696b1, 0xd5a79147_930aa725, 0xd6990624_5565a910, 0xa4506ceb_de82bde9, 0x597f299c_fc657e2a],
    [0x9bdc06a7_25c71235, 0x6ca6351_e003826f, 0xf40e3585_5771202a, 0xbef9a3f7_b2c67915, 0x5fcb6fab_3ad6faec],
    [0xc19bf174_cf692694, 0x14292967_0a0e6e70, 0x106aa070_32bbd1b8, 0xc67178f2_e372532b, 0x6c44198c_4a475817]]
}
