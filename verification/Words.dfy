/** 256-bit words as strings of 32 bytes, the lowest first, and as numbers. */
module Words {
  import opened Prelude
  import opened Borsh
  import opened Lanes

  function Small(b: bv8): Byte { b as nat }

  function Nibble(n: nat): bv8
    requires n < 16
  {
    if n < 8 then
      if n < 4 then (if n == 0 then 0 else if n == 1 then 1 else if n == 2 then 2 else 3)
      else (if n == 4 then 4 else if n == 5 then 5 else if n == 6 then 6 else 7)
    else
      if n < 12 then (if n == 8 then 8 else if n == 9 then 9 else if n == 10 then 10 else 11)
      else (if n == 12 then 12 else if n == 13 then 13 else if n == 14 then 14 else 15)
  }

  function Nibbles(high: bv8, low: bv8): bv8 { (high << 4) | low }

  /** A byte from a number. */
  function Octet(b: Byte): bv8 { Nibbles(Nibble(b / 16), Nibble(b % 16)) }

  lemma NibbleSmall(n: nat)
    requires n < 16
    ensures Small(Nibble(n)) == n && Nibble(n) & 0xf0 == 0
  {
  }

  lemma NibblesSmall(high: bv8, low: bv8)
    requires high & 0xf0 == 0 && low & 0xf0 == 0
    ensures Small(Nibbles(high, low)) == 16 * (Small(high) as nat) + Small(low)
  {
  }

  lemma SmallOctet(b: Byte)
    ensures Small(Octet(b)) == b
  {
    NibbleSmall(b / 16);
    NibbleSmall(b % 16);
    NibblesSmall(Nibble(b / 16), Nibble(b % 16));
  }

  lemma SmallInjective(a: bv8, b: bv8)
    requires Small(a) == Small(b)
    ensures a == b
  {
  }

  lemma OctetSmall(b: bv8)
    ensures Octet(Small(b)) == b
  {
    SmallOctet(Small(b));
    SmallInjective(Octet(Small(b)), b);
  }

  // ----- words from bytes -----

  function Eight(a: bv8, b: bv8, c: bv8, d: bv8, e: bv8, f: bv8, g: bv8, h: bv8): bv64 {
    (a as bv64) | ((b as bv64) << 8) | ((c as bv64) << 16) | ((d as bv64) << 24)
    | ((e as bv64) << 32) | ((f as bv64) << 40) | ((g as bv64) << 48) | ((h as bv64) << 56)
  }

  function Value(x: bv64): nat { x as nat }

  /** Eight digits in base 256. */
  function Digits(a: nat, b: nat, c: nat, d: nat, e: nat, f: nat, g: nat, h: nat): nat {
    Digits4(a, b, c, d) + 0x1_0000_0000 * Digits4(e, f, g, h)
  }

  function Digits4(a: nat, b: nat, c: nat, d: nat): nat {
    a + 0x100 * b + 0x1_0000 * c + 0x100_0000 * d
  }

  lemma EightValue(a: bv8, b: bv8, c: bv8, d: bv8, e: bv8, f: bv8, g: bv8, h: bv8)
    ensures Value(Eight(a, b, c, d, e, f, g, h)) ==
            Digits(Small(a), Small(b), Small(c), Small(d), Small(e), Small(f), Small(g), Small(h))
  {
  }

  const W1: nat := 0x1_00000000_00000000
  const W2: nat := 0x1_00000000_00000000_00000000_00000000
  const W3: nat := 0x1_00000000_00000000_00000000_00000000_00000000_00000000

  lemma StackValue(a: bv64, b: bv64, c: bv64, d: bv64)
    ensures Number(Stack(a, b, c, d)) == Value(a) + W1 * Value(b) + W2 * Value(c) + W3 * Value(d)
  {
  }

  function Limb(s: Bytes): bv64
    requires |s| == 8
  {
    Eight(Octet(s[0]), Octet(s[1]), Octet(s[2]), Octet(s[3]), Octet(s[4]), Octet(s[5]), Octet(s[6]), Octet(s[7]))
  }

  function WordOf(s: Bytes): bv256
    requires |s| == 32
  {
    Stack(Limb(s[..8]), Limb(s[8..16]), Limb(s[16..24]), Limb(s[24..]))
  }

  lemma LeEight(s: Bytes)
    requires |s| == 8
    ensures LeValue(s) == Digits(s[0], s[1], s[2], s[3], s[4], s[5], s[6], s[7])
  {
    LeFour(s[..4]);
    LeFour(s[4..]);
    assert s == s[..4] + s[4..];
    LeConcat(s[..4], s[4..]);
    Bases();
  }

  lemma LeFour(s: Bytes)
    requires |s| == 4
    ensures LeValue(s) == Digits4(s[0], s[1], s[2], s[3])
  {
    assert LeValue(s) == s[0] + 256 * LeValue(s[1..]);
    assert LeValue(s[1..]) == s[1] + 256 * LeValue(s[1..][1..]) && s[1..][1..] == s[2..];
    assert LeValue(s[2..]) == s[2] + 256 * LeValue(s[2..][1..]) && s[2..][1..] == s[3..];
    assert LeValue(s[3..]) == s[3] + 256 * LeValue(s[3..][1..]) && s[3..][1..] == [];
  }

  lemma LimbValue(s: Bytes)
    requires |s| == 8
    ensures Value(Limb(s)) == LeValue(s)
  {
    EightValue(Octet(s[0]), Octet(s[1]), Octet(s[2]), Octet(s[3]), Octet(s[4]), Octet(s[5]), Octet(s[6]), Octet(s[7]));
    SmallOctet(s[0]); SmallOctet(s[1]); SmallOctet(s[2]); SmallOctet(s[3]);
    SmallOctet(s[4]); SmallOctet(s[5]); SmallOctet(s[6]); SmallOctet(s[7]);
    LeEight(s);
  }

  lemma LeQuarters(s: Bytes)
    requires |s| == 32
    ensures LeValue(s) == LeValue(s[..8]) + W1 * LeValue(s[8..16]) + W2 * LeValue(s[16..24]) + W3 * LeValue(s[24..])
  {
    var a, b := s[..16], s[16..];
    assert s == a + b && a == s[..8] + s[8..16] && b == s[16..24] + s[24..];
    LeConcat(a, b);
    LeConcat(s[..8], s[8..16]);
    LeConcat(s[16..24], s[24..]);
    BasesAre();
    FourSum(LeValue(s[..8]), LeValue(s[8..16]), LeValue(s[16..24]), LeValue(s[24..]));
  }

  lemma BasesAre()
    ensures Base(8) == W1 && Base(16) == W2
  {
    Bases();
  }

  lemma FourSum(a: nat, b: nat, c: nat, d: nat)
    ensures (a + W1 * b) + W2 * (c + W1 * d) == a + W1 * b + W2 * c + W3 * d
  {
  }

  /** The number of a word is the little-endian value of its bytes. */
  lemma WordValue(s: Bytes)
    requires |s| == 32
    ensures Number(WordOf(s)) == LeValue(s)
  {
    StackValue(Limb(s[..8]), Limb(s[8..16]), Limb(s[16..24]), Limb(s[24..]));
    LimbValue(s[..8]);
    LimbValue(s[8..16]);
    LimbValue(s[16..24]);
    LimbValue(s[24..]);
    LeQuarters(s);
  }

  // ----- bytes of words -----

  function Piece0(x: bv64): bv8 { (x & 0xff) as bv8 }
  function Piece1(x: bv64): bv8 { ((x >> 8) & 0xff) as bv8 }
  function Piece2(x: bv64): bv8 { ((x >> 16) & 0xff) as bv8 }
  function Piece3(x: bv64): bv8 { ((x >> 24) & 0xff) as bv8 }
  function Piece4(x: bv64): bv8 { ((x >> 32) & 0xff) as bv8 }
  function Piece5(x: bv64): bv8 { ((x >> 40) & 0xff) as bv8 }
  function Piece6(x: bv64): bv8 { ((x >> 48) & 0xff) as bv8 }
  function Piece7(x: bv64): bv8 { (x >> 56) as bv8 }

  lemma EightPieces(x: bv64)
    ensures Eight(Piece0(x), Piece1(x), Piece2(x), Piece3(x), Piece4(x), Piece5(x), Piece6(x), Piece7(x)) == x
  {
  }

  lemma LimbBytes(x: bv64) returns (s: Bytes)
    ensures |s| == 8 && Limb(s) == x
  {
    s := [Small(Piece0(x)), Small(Piece1(x)), Small(Piece2(x)), Small(Piece3(x)),
          Small(Piece4(x)), Small(Piece5(x)), Small(Piece6(x)), Small(Piece7(x))];
    OctetSmall(Piece0(x)); OctetSmall(Piece1(x)); OctetSmall(Piece2(x)); OctetSmall(Piece3(x));
    OctetSmall(Piece4(x)); OctetSmall(Piece5(x)); OctetSmall(Piece6(x)); OctetSmall(Piece7(x));
    EightPieces(x);
  }

  lemma WordBytes(x: bv256) returns (s: Bytes)
    ensures |s| == 32 && WordOf(s) == x
  {
    var a := LimbBytes(Word3(x));
    var b := LimbBytes(Word2(x));
    var c := LimbBytes(Word1(x));
    var d := LimbBytes(Word0(x));
    s := a + b + c + d;
    assert s[..8] == a && s[8..16] == b && s[16..24] == c && s[24..] == d;
    WordsStack(x);
  }

  /** Words with the same number are the same. */
  lemma NumberInjective(x: bv256, y: bv256)
    requires Number(x) == Number(y)
    ensures x == y
  {
    var s := WordBytes(x);
    var t := WordBytes(y);
    WordValue(s);
    WordValue(t);
    LeBound(s);
    LeReads(s, LeValue(s));
    LeReads(t, LeValue(s));
  }

  /** The word of a number. */
  function ToWord(n: U256): bv256 { WordOf(LeBytes(32, n)) }

  lemma ToWordNumber(n: U256)
    ensures Number(ToWord(n)) == n
  {
    var s := LeBytes(32, n);
    Fits32(n);
    WordValue(s);
    LeReads(s, n);
  }

  // ----- an ordinate under a sign -----

  /** `y | (x << 255)`. */
  function UnderSign(y: bv256, x: bv256): bv256 { y | (x << 255) }

  function TopPart(x: bv256): bv256 { x >> 255 }
  function LowPart(x: bv256): bv256 { x & 0x7fffffff_ffffffff_ffffffff_ffffffff_ffffffff_ffffffff_ffffffff_ffffffff }
  function LowBit(x: bv256): bv256 { x & 1 }
  function Odd(a: bv8): bv256 { (a & 1) as bv256 }

  lemma TopPartNumber(x: bv256)
    ensures Number(TopPart(x)) == TopBit(x)
  {
  }

  lemma ZeroNumber()
    ensures Number(0) == 0
  {
  }

  lemma LowPartNumber(x: bv256)
    ensures Number(LowPart(x)) == LowBits(x)
  {
  }

  lemma LowUnderSign(y: bv256, x: bv256)
    ensures LowPart(UnderSign(y, x)) == LowPart(y)
  {
  }

  lemma TopUnderSign(y: bv256, x: bv256)
    requires TopPart(y) == 0
    ensures TopPart(UnderSign(y, x)) == LowBit(x)
  {
  }

  lemma LowBitStack(a: bv8, b: bv8, c: bv8, d: bv8, e: bv8, f: bv8, g: bv8, h: bv8, k: bv64, l: bv64, m: bv64)
    ensures LowBit(Stack(Eight(a, b, c, d, e, f, g, h), k, l, m)) == Odd(a)
  {
  }

  lemma OddNumber(a: bv8)
    ensures Number(Odd(a)) == Small(a) % 2
  {
  }

  lemma LowBitLimb(s: Bytes, k: bv64, l: bv64, m: bv64)
    requires |s| == 8
    ensures LowBit(Stack(Limb(s), k, l, m)) == Odd(Octet(s[0]))
  {
    LowBitStack(Octet(s[0]), Octet(s[1]), Octet(s[2]), Octet(s[3]), Octet(s[4]), Octet(s[5]), Octet(s[6]), Octet(s[7]), k, l, m);
  }

  lemma LowBitWord(s: Bytes)
    requires |s| == 32
    ensures Number(LowBit(WordOf(s))) == s[0] % 2
  {
    LowBitLimb(s[..8], Limb(s[8..16]), Limb(s[16..24]), Limb(s[24..]));
    assert s[..8][0] == s[0];
    OddNumber(Octet(s[0]));
    SmallOctet(s[0]);
  }

  lemma FirstByte(n: nat)
    ensures LeBytes(32, n)[0] % 2 == n % 2
  {
    assert LeBytes(32, n)[0] == n % 256;
  }

  lemma LowBitIs(n: U256)
    ensures Number(LowBit(ToWord(n))) == n % 2
  {
    LowBitWord(LeBytes(32, n));
    FirstByte(n);
  }

  lemma NoTop(a: bv256)
    requires Number(a) < TOP
    ensures TopPart(a) == 0 && LowBits(a) == Number(a)
  {
    SplitNumber(a);
    TopBitFits(a);
    TopPartNumber(a);
    ZeroNumber();
    NumberInjective(TopPart(a), 0);
  }

  lemma UnderSignSplit(a: bv256, b: bv256, w: bv256)
    requires Number(a) < TOP && w == UnderSign(a, b)
    ensures Number(w) == Number(a) + TOP * Number(LowBit(b))
  {
    NoTop(a);
    LowUnderSign(a, b);
    TopUnderSign(a, b);
    LowPartNumber(a);
    LowPartNumber(w);
    TopPartNumber(w);
    SplitNumber(w);
  }

  /** The word built from a reduced ordinate and an abscissa. */
  lemma UnderSignNumber(y: U256, x: U256)
    requires y < TOP
    ensures Number(UnderSign(ToWord(y), ToWord(x))) == y + TOP * (x % 2)
  {
    ToWordNumber(y);
    UnderSignSplit(ToWord(y), ToWord(x), UnderSign(ToWord(y), ToWord(x)));
    LowBitIs(x);
  }

  /** Reversing a word and comparing it with `r` is comparing its number with that of `r` reversed. */
  lemma SameReversed(w: bv256, r: bv256)
    ensures Reversed(w) == r <==> Number(w) == Number(Reversed(r))
  {
    ReversedTwice(w);
    ReversedTwice(r);
    if Number(w) == Number(Reversed(r)) {
      NumberInjective(w, Reversed(r));
    }
  }
}
