/** SHA-512 of a message given as bytes: the padding of section 5.1.2 of FIPS 180-4 and the bytes of the digest, and how the
    words that the contract passes around stand for them. */
module Sha512Message {
  import opened Prelude
  import opened Borsh
  import opened Lanes
  import opened Words
  import opened Sha512
  import opened Edwards
  import opened SignatureCheck

  // ----- big-endian words -----

  /** Eight bytes, the first the highest. */
  function BeLimb(s: Bytes): bv64
    requires |s| == 8
  {
    Eight(Octet(s[7]), Octet(s[6]), Octet(s[5]), Octet(s[4]), Octet(s[3]), Octet(s[2]), Octet(s[1]), Octet(s[0]))
  }

  /** A `bytes32` as a word. */
  function BeWord(s: Bytes): bv256
    requires |s| == 32
  {
    Stack(BeLimb(s[24..]), BeLimb(s[16..24]), BeLimb(s[8..16]), BeLimb(s[..8]))
  }

  /** A `bytes9` as a word. */
  function BeNine(s: Bytes): bv72
    requires |s| == 9
  {
    Nine(BeLimb(s[..8]), Octet(s[8]))
  }

  function Nine(x: bv64, b: bv8): bv72 { ((x as bv72) << 8) | (b as bv72) }

  lemma RawReverse(a: bv8, b: bv8, c: bv8, d: bv8, e: bv8, f: bv8, g: bv8, h: bv8)
    ensures Reverse(Eight(a, b, c, d, e, f, g, h)) == Eight(h, g, f, e, d, c, b, a)
  {
  }

  lemma ReverseLimb(s: Bytes)
    requires |s| == 8
    ensures Reverse(BeLimb(s)) == Limb(s) && Reverse(Limb(s)) == BeLimb(s)
  {
    RawReverse(Octet(s[7]), Octet(s[6]), Octet(s[5]), Octet(s[4]), Octet(s[3]), Octet(s[2]), Octet(s[1]), Octet(s[0]));
    RawReverse(Octet(s[0]), Octet(s[1]), Octet(s[2]), Octet(s[3]), Octet(s[4]), Octet(s[5]), Octet(s[6]), Octet(s[7]));
  }

  lemma BeWordWords(s: Bytes)
    requires |s| == 32
    ensures Word0(BeWord(s)) == BeLimb(s[..8]) && Word1(BeWord(s)) == BeLimb(s[8..16])
    ensures Word2(BeWord(s)) == BeLimb(s[16..24]) && Word3(BeWord(s)) == BeLimb(s[24..])
  {
    StackWords(BeLimb(s[24..]), BeLimb(s[16..24]), BeLimb(s[8..16]), BeLimb(s[..8]));
  }

  /** A word reversed is the little-endian number of its bytes. */
  lemma ReversedValue(s: Bytes)
    requires |s| == 32
    ensures Number(Reversed(BeWord(s))) == LeValue(s)
  {
    BeWordWords(s);
    ReverseLimb(s[..8]);
    ReverseLimb(s[8..16]);
    ReverseLimb(s[16..24]);
    ReverseLimb(s[24..]);
    WordValue(s);
  }

  // ----- padding -----

  function Zeroes(n: nat): (s: Bytes)
    ensures |s| == n && forall i :: 0 <= i < n ==> s[i] == 0
  {
    if n == 0 then [] else [0] + Zeroes(n - 1)
  }

  /** The one bit, zeros, and the length in bits as a 128-bit number, high byte first. The length of a message of one
      block fits two bytes. */
  function Padded(m: Bytes): (s: Bytes)
    requires |m| <= 111
    ensures |s| == 128
  {
    m + [0x80] + Zeroes(111 - |m|) + Zeroes(14) + [8 * |m| / 256, 8 * |m| % 256]
  }

  /** What `f` makes of every eight bytes. */
  function Cut<T>(f: Bytes -> T, s: Bytes): (w: seq<T>)
    requires |s| % 8 == 0
    ensures |w| == |s| / 8
  {
    if s == [] then [] else [f(s[..8])] + Cut(f, s[8..])
  }

  lemma {:induction false} CutConcat<T>(f: Bytes -> T, a: Bytes, b: Bytes)
    requires |a| % 8 == 0 && |b| % 8 == 0
    ensures Cut(f, a + b) == Cut(f, a) + Cut(f, b)
  {
    if a == [] {
      assert a + b == b;
    } else {
      assert (a + b)[..8] == a[..8] && (a + b)[8..] == a[8..] + b;
      CutConcat(f, a[8..], b);
    }
  }

  lemma CutEight<T>(f: Bytes -> T, s: Bytes)
    requires |s| == 8
    ensures Cut(f, s) == [f(s)]
  {
    assert s[..8] == s && s[8..] == [];
  }

  lemma CutFour<T>(f: Bytes -> T, a: Bytes, b: Bytes, c: Bytes, d: Bytes)
    requires |a| == |b| == |c| == |d| == 8
    ensures Cut(f, a + b + c + d) == [f(a), f(b), f(c), f(d)]
  {
    var ab := CutPair(f, a, b);
    var abc := CutPair(f, ab, c);
    var abcd := CutPair(f, abc, d);
    CutEight(f, a);
    CutEight(f, b);
    CutEight(f, c);
    CutEight(f, d);
  }

  lemma CutParts<T>(f: Bytes -> T, a: Bytes, b: Bytes, c: Bytes, d: Bytes)
    requires |a| % 8 == 0 && |b| % 8 == 0 && |c| % 8 == 0 && |d| % 8 == 0
    ensures |a + (b + (c + d))| % 8 == 0
    ensures Cut(f, a + (b + (c + d))) == Cut(f, a) + (Cut(f, b) + (Cut(f, c) + Cut(f, d)))
  {
    var cd := CutPair(f, c, d);
    var bcd := CutPair(f, b, cd);
    var abcd := CutPair(f, a, bcd);
  }

  lemma CutPair<T>(f: Bytes -> T, a: Bytes, b: Bytes) returns (s: Bytes)
    requires |a| % 8 == 0 && |b| % 8 == 0
    ensures s == a + b && |s| % 8 == 0 && Cut(f, s) == Cut(f, a) + Cut(f, b)
  {
    s := a + b;
    CutConcat(f, a, b);
  }

  /** Words of eight bytes, the first byte the highest. */
  function Limbs(s: Bytes): (w: seq<bv64>)
    requires |s| % 8 == 0
    ensures |w| == |s| / 8
  {
    Cut(EightBytes, s)
  }

  function EightBytes(s: Bytes): bv64 { if |s| == 8 then BeLimb(s) else 0 }

  /** What follows the first 96 bytes. */
  lemma PaddedSplit(a: Bytes, m2: Bytes)
    requires |a| == 96 && |m2| == 9
    ensures Padded(a + m2) == a + (m2[..8] + [m2[8], 0x80, 0, 0, 0, 0, 0, 0] + [0, 0, 0, 0, 0, 0, 0, 0] + [0, 0, 0, 0, 0, 0, 0x03, 0x48])
  {
    var s := Padded(a + m2);
    assert s[105] == 0x80 && s[126] == 0x03 && s[127] == 0x48;
    assert forall i :: 106 <= i < 126 ==> s[i] == 0;
  }

  lemma SmallOctets()
    ensures Octet(0) == 0 && Octet(0x80) == 0x80 && Octet(0x03) == 0x03 && Octet(0x48) == 0x48
  {
  }

  lemma RawNine(x: bv64, b: bv8)
    ensures TailWord0(Nine(x, b)) == x && TailWord1(Nine(x, b)) == Eight(0, 0, 0, 0, 0, 0, 0x80, b)
  {
  }

  lemma RawLast()
    ensures Eight(0, 0, 0, 0, 0, 0, 0, 0) == 0 && Eight(0x48, 0x03, 0, 0, 0, 0, 0, 0) == 105 * 8
  {
  }

  lemma TailLimbs(s: Bytes)
    requires |s| == 9
    ensures BeLimb([s[8], 0x80, 0, 0, 0, 0, 0, 0]) == TailWord1(BeNine(s)) && BeLimb(s[..8]) == TailWord0(BeNine(s))
    ensures BeLimb([0, 0, 0, 0, 0, 0, 0, 0]) == 0 && BeLimb([0, 0, 0, 0, 0, 0, 0x03, 0x48]) == 105 * 8
  {
    SmallOctets();
    RawNine(BeLimb(s[..8]), Octet(s[8]));
    RawLast();
  }

  /** The four words of a 256-bit word, and of the end of the block. */
  function WordsOf(x: bv256): seq<bv64> { [Word0(x), Word1(x), Word2(x), Word3(x)] }
  function TailOf(m: bv72): seq<bv64> { [TailWord0(m), TailWord1(m), 0, 105 * 8] }

  lemma FourFours<T>(a0: T, a1: T, a2: T, a3: T, b0: T, b1: T, b2: T, b3: T, c0: T, c1: T, c2: T, c3: T, d0: T, d1: T, d2: T, d3: T)
    ensures [a0, a1, a2, a3, b0, b1, b2, b3, c0, c1, c2, c3, d0, d1, d2, d3] ==
            [a0, a1, a2, a3] + ([b0, b1, b2, b3] + ([c0, c1, c2, c3] + [d0, d1, d2, d3]))
  {
  }

  lemma BlockSplit(r: bv256, k: bv256, m1: bv256, m2: bv72)
    ensures PaddedBlock(r, k, m1, m2) == WordsOf(r) + (WordsOf(k) + (WordsOf(m1) + TailOf(m2)))
  {
    FourFours(Word0(r), Word1(r), Word2(r), Word3(r), Word0(k), Word1(k), Word2(k), Word3(k),
              Word0(m1), Word1(m1), Word2(m1), Word3(m1), TailWord0(m2), TailWord1(m2), 0, 105 * 8);
  }

  lemma WordLimbs(s: Bytes)
    requires |s| == 32
    ensures Limbs(s) == WordsOf(BeWord(s))
  {
    assert s == s[..8] + s[8..16] + s[16..24] + s[24..];
    CutFour(EightBytes, s[..8], s[8..16], s[16..24], s[24..]);
    BeWordWords(s);
  }

  lemma EndLimbs(s: Bytes)
    requires |s| == 9
    ensures Limbs(s[..8] + [s[8], 0x80, 0, 0, 0, 0, 0, 0] + [0, 0, 0, 0, 0, 0, 0, 0] + [0, 0, 0, 0, 0, 0, 0x03, 0x48]) == TailOf(BeNine(s))
  {
    CutFour(EightBytes, s[..8], [s[8], 0x80, 0, 0, 0, 0, 0, 0], [0, 0, 0, 0, 0, 0, 0, 0], [0, 0, 0, 0, 0, 0, 0x03, 0x48]);
    TailLimbs(s);
  }

  /** The block that the contract builds is the padded message R, A, M: the first 32 bytes of M come in one word, the last
      nine in another. */
  lemma PaddedIs(r: Bytes, a: Bytes, m1: Bytes, m2: Bytes)
    requires |r| == |a| == |m1| == 32 && |m2| == 9
    ensures PaddedBlock(BeWord(r), BeWord(a), BeWord(m1), BeNine(m2)) == Limbs(Padded(r + a + m1 + m2))
  {
    PaddedSplit(r + a + m1, m2);
    var end := m2[..8] + [m2[8], 0x80, 0, 0, 0, 0, 0, 0] + [0, 0, 0, 0, 0, 0, 0, 0] + [0, 0, 0, 0, 0, 0, 0x03, 0x48];
    assert (r + a + m1) + end == r + (a + (m1 + end));
    CutParts(EightBytes, r, a, m1, end);
    WordLimbs(r);
    WordLimbs(a);
    WordLimbs(m1);
    EndLimbs(m2);
    BlockSplit(BeWord(r), BeWord(a), BeWord(m1), BeNine(m2));
  }

  // ----- the digest -----

  ghost predicate HalfBytes(a: bv64, b: bv64, c: bv64, d: bv64, s: Bytes) {
    |s| == 32 && a == BeLimb(s[..8]) && b == BeLimb(s[8..16]) && c == BeLimb(s[16..24]) && d == BeLimb(s[24..])
  }

  /** The 64 bytes of a hash value, each word's highest byte first. */
  ghost predicate DigestBytes(h: Sha512.Words, s: Bytes) {
    exists a, b :: s == a + b && HalfBytes(h.a, h.b, h.c, h.d, a) && HalfBytes(h.e, h.f, h.g, h.h, b)
  }

  lemma BeBytes(x: bv64) returns (s: Bytes)
    ensures |s| == 8 && BeLimb(s) == x
  {
    s := LimbBytes(Reverse(x));
    ReverseLimb(s);
    ReverseTwice(x);
  }

  lemma HalfExists(a: bv64, b: bv64, c: bv64, d: bv64) returns (s: Bytes)
    ensures HalfBytes(a, b, c, d, s)
  {
    var p := BeBytes(a);
    var q := BeBytes(b);
    var r := BeBytes(c);
    var t := BeBytes(d);
    s := p + q + r + t;
    assert s[..8] == p && s[8..16] == q && s[16..24] == r && s[24..] == t;
  }

  /** Every hash value has its bytes. */
  lemma DigestExists(h: Sha512.Words) returns (s: Bytes)
    ensures DigestBytes(h, s)
  {
    var p := HalfExists(h.a, h.b, h.c, h.d);
    var q := HalfExists(h.e, h.f, h.g, h.h);
    s := p + q;
  }

  /** `s` is SHA-512 of a message of one block, with the round constants `kk`. */
  ghost predicate IsDigest(kk: Table, m: Bytes, s: Bytes)
    requires |m| <= 111
  {
    DigestBytes(Hash(kk, Limbs(Padded(m))), s)
  }

  lemma HalfValue(a: bv64, b: bv64, c: bv64, d: bv64, s: Bytes)
    requires HalfBytes(a, b, c, d, s)
    ensures Number(Stack(Reverse(a), Reverse(b), Reverse(c), Reverse(d))) == LeValue(s)
  {
    ReverseLimb(s[..8]);
    ReverseLimb(s[8..16]);
    ReverseLimb(s[16..24]);
    ReverseLimb(s[24..]);
    WordValue(s);
  }

  lemma FirstValue(h: Sha512.Words, s: Bytes)
    requires HalfBytes(h.a, h.b, h.c, h.d, s)
    ensures Number(FirstHalf(h)) == LeValue(s)
  {
    HalfValue(h.a, h.b, h.c, h.d, s);
  }

  lemma SecondValue(h: Sha512.Words, s: Bytes)
    requires HalfBytes(h.e, h.f, h.g, h.h, s)
    ensures Number(SecondHalf(h)) == LeValue(s)
  {
    HalfValue(h.e, h.f, h.g, h.h, s);
  }

  lemma JoinValue(x: nat, y: nat, a: Bytes, b: Bytes)
    requires |a| == 32 && x == LeValue(a) && y == LeValue(b)
    ensures Join(x, y) == LeValue(a + b)
  {
    LeConcat(a, b);
    Bases();
  }

  lemma HashValue(h: Sha512.Words, a: Bytes, b: Bytes)
    requires HalfBytes(h.a, h.b, h.c, h.d, a) && HalfBytes(h.e, h.f, h.g, h.h, b)
    ensures Join(Number(FirstHalf(h)), Number(SecondHalf(h))) == LeValue(a + b)
  {
    FirstValue(h, a);
    SecondValue(h, b);
    JoinValue(Number(FirstHalf(h)), Number(SecondHalf(h)), a, b);
  }

  lemma DigestValue(h: Sha512.Words, s: Bytes)
    requires DigestBytes(h, s)
    ensures Join(Number(FirstHalf(h)), Number(SecondHalf(h))) == LeValue(s)
  {
    var a, b :| s == a + b && HalfBytes(h.a, h.b, h.c, h.d, a) && HalfBytes(h.e, h.f, h.g, h.h, b);
    HashValue(h, a, b);
  }

  /** Section 5.1.7 of RFC 8032: the number the contract reduces is SHA-512(R, A, M) as a little-endian number. */
  lemma DigestIs(kk: Table, r: Bytes, a: Bytes, m1: Bytes, m2: Bytes, s: Bytes)
    requires |r| == |a| == |m1| == 32 && |m2| == 9 && IsDigest(kk, r + a + m1 + m2, s)
    ensures DigestNumber(kk, BeWord(r), BeWord(a), BeWord(m1), BeNine(m2)) == LeValue(s)
  {
    PaddedIs(r, a, m1, m2);
    DigestValue(Hash(kk, Limbs(Padded(r + a + m1 + m2))), s);
  }
}
