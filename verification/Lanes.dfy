/** The word functions of SHA-512 (section 4.1.3 of FIPS 180-4), and the same functions inside 256-bit
    words that hold four 64-bit lanes. Sums are modulo 2^64 and 2^256. */
module Lanes {

  // ----- 64-bit words -----

  function BigSigma0(x: bv64): bv64 { x.RotateRight(28) ^ x.RotateRight(34) ^ x.RotateRight(39) }
  function BigSigma1(x: bv64): bv64 { x.RotateRight(14) ^ x.RotateRight(18) ^ x.RotateRight(41) }
  function SmallSigma0(x: bv64): bv64 { x.RotateRight(1) ^ x.RotateRight(8) ^ (x >> 7) }
  function SmallSigma1(x: bv64): bv64 { x.RotateRight(19) ^ x.RotateRight(61) ^ (x >> 6) }
  function Ch(x: bv64, y: bv64, z: bv64): bv64 { (x & y) ^ (!x & z) }
  function Maj(x: bv64, y: bv64, z: bv64): bv64 { (x & y) ^ (x & z) ^ (y & z) }
  function Add2(a: bv64, b: bv64): bv64 { a + b }
  function Add4(a: bv64, b: bv64, c: bv64, d: bv64): bv64 { a + b + c + d }
  function Add5(a: bv64, b: bv64, c: bv64, d: bv64, e: bv64): bv64 { a + b + c + d + e }

  // ----- 256-bit words -----

  function Wide(x: bv64): bv256 { x as bv256 }
  function Low(x: bv256): bv64 { (x & 0xffffffff_ffffffff) as bv64 }
  function MaskLow(x: bv256): bv256 { x & 0xffffffff_ffffffff }
  function WideAdd2(a: bv256, b: bv256): bv256 { a + b }
  function WideAdd4(a: bv256, b: bv256, c: bv256, d: bv256): bv256 { a + b + c + d }
  function WideAdd5(a: bv256, b: bv256, c: bv256, d: bv256, e: bv256): bv256 { a + b + c + d + e }
  function WideSigma1(e: bv256): bv256 { ((e | (e << 64)) >> 14) ^ ((e | (e << 64)) >> 18) ^ ((e | (e << 64)) >> 41) }
  function WideSigma0(a: bv256): bv256 { ((a | (a << 64)) >> 28) ^ ((a | (a << 64)) >> 34) ^ ((a | (a << 64)) >> 39) }
  function WideCh(e: bv256, f: bv256, g: bv256): bv256 { (e & (f ^ g)) ^ g }
  function WideMaj(a: bv256, b: bv256, c: bv256): bv256 { (a & (b | c)) | (b & c) }

  /** Four schedule words in one: from the top the first, the third, the second and the fourth. */
  function Pack(w0: bv64, w1: bv64, w2: bv64, w3: bv64): bv256 {
    ((w0 as bv256) << 192) | ((w2 as bv256) << 128) | ((w1 as bv256) << 64) | (w3 as bv256)
  }

  /** Two words in the lanes of the first and the second, and of the third and the fourth. */
  function Hi(a: bv64, b: bv64): bv256 { ((a as bv256) << 192) | ((b as bv256) << 64) }
  function Lo(c: bv64, d: bv64): bv256 { ((c as bv256) << 128) | (d as bv256) }
  function MaskHi(x: bv256): bv256 { x & 0xffffffff_ffffffff_00000000_00000000_ffffffff_ffffffff_00000000_00000000 }
  function MaskLo(x: bv256): bv256 { x & 0xffffffff_ffffffff_00000000_00000000_ffffffff_ffffffff }
  function Or(x: bv256, y: bv256): bv256 { x | y }

  // The addends of the first two new schedule words.
  function MiddleHi(t: bv256): bv256 { ((t & 0xffffffff_ffffffff_00000000_00000000) << 128) | ((t & 0xffffffff_ffffffff_00000000_00000000_00000000_00000000) >> 64) }
  function Sigma0Hi(t: bv256): bv256 {
    var u := ((t & 0xffffffff_ffffffff_00000000_00000000) << 64) | ((t & 0xffffffff_ffffffff_00000000_00000000_00000000_00000000) >> 128);
    (((u | (u << 64)) << 63) ^ ((u | (u << 64)) << 56) ^ (u << 57)) & 0xffffffff_ffffffff_00000000_00000000_ffffffff_ffffffff_00000000_00000000
  }
  function Sigma1Hi(t: bv256): bv256 {
    var v := t & 0xffffffff_ffffffff_00000000_00000000_ffffffff_ffffffff;
    (((v | (v << 64)) << 45) ^ ((v | (v << 64)) << 3) ^ (v << 58)) & 0xffffffff_ffffffff_00000000_00000000_ffffffff_ffffffff_00000000_00000000
  }

  // The addends of the other two.
  function MiddleLo(t: bv256, next: bv256): bv256 { ((t & 0xffffffff_ffffffff) << 128) | (next >> 192) }
  function Sigma0Lo(t: bv256, next: bv256): bv256 {
    var u := ((t & 0xffffffff_ffffffff) << 128) | (next >> 192);
    (((u | (u << 64)) >> 1) ^ ((u | (u << 64)) >> 8) ^ (u >> 7)) & 0xffffffff_ffffffff_00000000_00000000_ffffffff_ffffffff
  }
  function Sigma1Lo(n: bv256): bv256 {
    (((n | (n >> 64)) >> 19) ^ ((n | (n >> 64)) >> 61) ^ (n >> 70)) & 0xffffffff_ffffffff_00000000_00000000_ffffffff_ffffffff
  }

  // ----- the same facts on bare bit-vectors -----

  lemma LowDef(x: bv256)
    ensures Low(x) == (x & 0xffffffff_ffffffff) as bv64
  {
  }

  lemma WideDef(x: bv64)
    ensures Wide(x) == x as bv256
  {
  }

  lemma WideAdd2Def(a: bv256, b: bv256)
    ensures WideAdd2(a, b) == a + b
  {
  }

  lemma WideAdd5Def(a: bv256, b: bv256, c: bv256, d: bv256, e: bv256)
    ensures WideAdd5(a, b, c, d, e) == a + b + c + d + e
  {
  }

  lemma RawAdd2(a: bv256, b: bv256)
    ensures Low(a + b) == Add2((a & 0xffffffff_ffffffff) as bv64, (b & 0xffffffff_ffffffff) as bv64)
  {
  }

  lemma RawAdd5(a: bv256, b: bv256, c: bv256, d: bv256, e: bv256)
    ensures Low(a + b + c + d + e) == Add5((a & 0xffffffff_ffffffff) as bv64, (b & 0xffffffff_ffffffff) as bv64, (c & 0xffffffff_ffffffff) as bv64, (d & 0xffffffff_ffffffff) as bv64, (e & 0xffffffff_ffffffff) as bv64)
  {
  }

  lemma RawSigma1(x: bv64)
    ensures Low(((((x as bv256) | ((x as bv256) << 64)) >> 14) ^ (((x as bv256) | ((x as bv256) << 64)) >> 18) ^ (((x as bv256) | ((x as bv256) << 64)) >> 41))) == BigSigma1(x)
  {
  }

  lemma RawWideSigma1(x: bv64)
    ensures WideSigma1(x as bv256) == ((((x as bv256) | ((x as bv256) << 64)) >> 14) ^ (((x as bv256) | ((x as bv256) << 64)) >> 18) ^ (((x as bv256) | ((x as bv256) << 64)) >> 41))
  {
  }

  lemma RawSigma0(x: bv64)
    ensures Low(((((x as bv256) | ((x as bv256) << 64)) >> 28) ^ (((x as bv256) | ((x as bv256) << 64)) >> 34) ^ (((x as bv256) | ((x as bv256) << 64)) >> 39))) == BigSigma0(x)
  {
  }

  lemma RawWideSigma0(x: bv64)
    ensures WideSigma0(x as bv256) == ((((x as bv256) | ((x as bv256) << 64)) >> 28) ^ (((x as bv256) | ((x as bv256) << 64)) >> 34) ^ (((x as bv256) | ((x as bv256) << 64)) >> 39))
  {
  }

  lemma SmallDef(x: bv64)
    ensures SmallSigma0(x) == x.RotateRight(1) ^ x.RotateRight(8) ^ (x >> 7)
    ensures SmallSigma1(x) == x.RotateRight(19) ^ x.RotateRight(61) ^ (x >> 6)
  {
  }

  lemma PackDef(w0: bv64, w1: bv64, w2: bv64, w3: bv64)
    ensures Pack(w0, w1, w2, w3) == (((w0 as bv256) << 192) | ((w2 as bv256) << 128) | ((w1 as bv256) << 64) | (w3 as bv256))
  {
  }

  lemma RawSigma0Hi(w0: bv64, w1: bv64, w2: bv64, w3: bv64)
    ensures Sigma0Hi((((w0 as bv256) << 192) | ((w2 as bv256) << 128) | ((w1 as bv256) << 64) | (w3 as bv256))) == Hi(w1.RotateRight(1) ^ w1.RotateRight(8) ^ (w1 >> 7), w2.RotateRight(1) ^ w2.RotateRight(8) ^ (w2 >> 7))
  {
  }

  lemma RawSigma1Hi(w0: bv64, w1: bv64, w2: bv64, w3: bv64)
    ensures Sigma1Hi((((w0 as bv256) << 192) | ((w2 as bv256) << 128) | ((w1 as bv256) << 64) | (w3 as bv256))) == Hi(w2.RotateRight(19) ^ w2.RotateRight(61) ^ (w2 >> 6), w3.RotateRight(19) ^ w3.RotateRight(61) ^ (w3 >> 6))
  {
  }

  lemma RawSigma0Lo(w0: bv64, w1: bv64, w2: bv64, w3: bv64, w4: bv64, w5: bv64, w6: bv64, w7: bv64)
    ensures Sigma0Lo((((w0 as bv256) << 192) | ((w2 as bv256) << 128) | ((w1 as bv256) << 64) | (w3 as bv256)), (((w4 as bv256) << 192) | ((w6 as bv256) << 128) | ((w5 as bv256) << 64) | (w7 as bv256))) == Lo(w3.RotateRight(1) ^ w3.RotateRight(8) ^ (w3 >> 7), w4.RotateRight(1) ^ w4.RotateRight(8) ^ (w4 >> 7))
  {
  }

  lemma RawSigma1Lo(a: bv64, b: bv64)
    ensures Sigma1Lo(((a as bv256 << 192) | (b as bv256 << 64))) == Lo(a.RotateRight(19) ^ a.RotateRight(61) ^ (a >> 6), b.RotateRight(19) ^ b.RotateRight(61) ^ (b >> 6))
  {
  }

  lemma HiDef(a: bv64, b: bv64)
    ensures Hi(a, b) == ((a as bv256 << 192) | (b as bv256 << 64))
  {
  }

  lemma LoDef(c: bv64, d: bv64)
    ensures Lo(c, d) == ((c as bv256 << 128) | (d as bv256))
  {
  }

  lemma Add4Def(a: bv64, b: bv64, c: bv64, d: bv64)
    ensures Add4(a, b, c, d) == a + b + c + d
  {
  }

  lemma RawSumHi(a1: bv64, b1: bv64, a2: bv64, b2: bv64, a3: bv64, b3: bv64, a4: bv64, b4: bv64)
    ensures MaskHi(((a1 as bv256 << 192) | (b1 as bv256 << 64)) + ((a2 as bv256 << 192) | (b2 as bv256 << 64)) + ((a3 as bv256 << 192) | (b3 as bv256 << 64)) + ((a4 as bv256 << 192) | (b4 as bv256 << 64))) == Hi(a1 + a2 + a3 + a4, b1 + b2 + b3 + b4)
  {
  }

  lemma RawSumLo(c1: bv64, d1: bv64, c2: bv64, d2: bv64, c3: bv64, d3: bv64, c4: bv64, d4: bv64)
    ensures MaskLo(((c1 as bv256 << 128) | (d1 as bv256)) + ((c2 as bv256 << 128) | (d2 as bv256)) + ((c3 as bv256 << 128) | (d3 as bv256)) + ((c4 as bv256 << 128) | (d4 as bv256))) == Lo(c1 + c2 + c3 + c4, d1 + d2 + d3 + d4)
  {
  }

  lemma RawWideHi(a1: bv64, b1: bv64, a2: bv64, b2: bv64, a3: bv64, b3: bv64, a4: bv64, b4: bv64)
    ensures WideAdd4(((a1 as bv256 << 192) | (b1 as bv256 << 64)), ((a2 as bv256 << 192) | (b2 as bv256 << 64)), ((a3 as bv256 << 192) | (b3 as bv256 << 64)), ((a4 as bv256 << 192) | (b4 as bv256 << 64))) == ((a1 as bv256 << 192) | (b1 as bv256 << 64)) + ((a2 as bv256 << 192) | (b2 as bv256 << 64)) + ((a3 as bv256 << 192) | (b3 as bv256 << 64)) + ((a4 as bv256 << 192) | (b4 as bv256 << 64))
  {
  }

  lemma RawWideLo(c1: bv64, d1: bv64, c2: bv64, d2: bv64, c3: bv64, d3: bv64, c4: bv64, d4: bv64)
    ensures WideAdd4(((c1 as bv256 << 128) | (d1 as bv256)), ((c2 as bv256 << 128) | (d2 as bv256)), ((c3 as bv256 << 128) | (d3 as bv256)), ((c4 as bv256 << 128) | (d4 as bv256))) == ((c1 as bv256 << 128) | (d1 as bv256)) + ((c2 as bv256 << 128) | (d2 as bv256)) + ((c3 as bv256 << 128) | (d3 as bv256)) + ((c4 as bv256 << 128) | (d4 as bv256))
  {
  }

  // ----- low lanes -----

  lemma LowWide(x: bv64)
    ensures Low(Wide(x)) == x
  {
  }

  lemma MaskIsWide(x: bv256)
    ensures MaskLow(x) == Wide(Low(x))
  {
  }

  lemma LowSigma1(e: bv64)
    ensures Low(WideSigma1(Wide(e))) == BigSigma1(e)
  {
    WideDef(e); RawWideSigma1(e); RawSigma1(e);
  }

  lemma LowSigma0(a: bv64)
    ensures Low(WideSigma0(Wide(a))) == BigSigma0(a)
  {
    WideDef(a); RawWideSigma0(a); RawSigma0(a);
  }

  lemma LowCh(e: bv64, f: bv64, g: bv64)
    ensures Low(WideCh(Wide(e), Wide(f), Wide(g))) == Ch(e, f, g)
  {
  }

  lemma LowMaj(a: bv64, b: bv64, c: bv64)
    ensures Low(WideMaj(Wide(a), Wide(b), Wide(c))) == Maj(a, b, c)
  {
  }

  lemma LowAdd2(a: bv256, b: bv256)
    ensures Low(WideAdd2(a, b)) == Add2(Low(a), Low(b))
  {
    WideAdd2Def(a, b); RawAdd2(a, b); LowDef(a); LowDef(b);
  }

  lemma LowAdd5(a: bv256, b: bv256, c: bv256, d: bv256, e: bv256)
    ensures Low(WideAdd5(a, b, c, d, e)) == Add5(Low(a), Low(b), Low(c), Low(d), Low(e))
  {
    WideAdd5Def(a, b, c, d, e); RawAdd5(a, b, c, d, e); LowDef(a); LowDef(b); LowDef(c); LowDef(d); LowDef(e);
  }

  // ----- lanes of the schedule -----

  lemma PackLow(w0: bv64, w1: bv64, w2: bv64, w3: bv64)
    ensures Low(Pack(w0, w1, w2, w3) >> 192) == w0
    ensures Low(Pack(w0, w1, w2, w3) >> 64) == w1
    ensures Low(Pack(w0, w1, w2, w3) >> 128) == w2
    ensures Low(Pack(w0, w1, w2, w3)) == w3
  {
  }

  lemma PackHi(w0: bv64, w1: bv64, w2: bv64, w3: bv64)
    ensures MaskHi(Pack(w0, w1, w2, w3)) == Hi(w0, w1)
    ensures MiddleHi(Pack(w0, w1, w2, w3)) == Hi(w1, w2)
  {
  }

  lemma PackSigma0Hi(w0: bv64, w1: bv64, w2: bv64, w3: bv64)
    ensures Sigma0Hi(Pack(w0, w1, w2, w3)) == Hi(SmallSigma0(w1), SmallSigma0(w2))
  {
    PackDef(w0, w1, w2, w3); RawSigma0Hi(w0, w1, w2, w3); SmallDef(w1); SmallDef(w2);
  }

  lemma PackSigma1Hi(w0: bv64, w1: bv64, w2: bv64, w3: bv64)
    ensures Sigma1Hi(Pack(w0, w1, w2, w3)) == Hi(SmallSigma1(w2), SmallSigma1(w3))
  {
    PackDef(w0, w1, w2, w3); RawSigma1Hi(w0, w1, w2, w3); SmallDef(w2); SmallDef(w3);
  }

  lemma SumHi(a1: bv64, b1: bv64, a2: bv64, b2: bv64, a3: bv64, b3: bv64, a4: bv64, b4: bv64)
    ensures MaskHi(WideAdd4(Hi(a1, b1), Hi(a2, b2), Hi(a3, b3), Hi(a4, b4))) == Hi(Add4(a1, a2, a3, a4), Add4(b1, b2, b3, b4))
  {
    HiDef(a1, b1); HiDef(a2, b2); HiDef(a3, b3); HiDef(a4, b4);
    RawWideHi(a1, b1, a2, b2, a3, b3, a4, b4); RawSumHi(a1, b1, a2, b2, a3, b3, a4, b4);
    Add4Def(a1, a2, a3, a4); Add4Def(b1, b2, b3, b4);
  }

  lemma PackLo(w0: bv64, w1: bv64, w2: bv64, w3: bv64, w4: bv64, w5: bv64, w6: bv64, w7: bv64)
    ensures MaskLo(Pack(w0, w1, w2, w3)) == Lo(w2, w3)
    ensures MiddleLo(Pack(w0, w1, w2, w3), Pack(w4, w5, w6, w7)) == Lo(w3, w4)
  {
  }

  lemma PackSigma0Lo(w0: bv64, w1: bv64, w2: bv64, w3: bv64, w4: bv64, w5: bv64, w6: bv64, w7: bv64)
    ensures Sigma0Lo(Pack(w0, w1, w2, w3), Pack(w4, w5, w6, w7)) == Lo(SmallSigma0(w3), SmallSigma0(w4))
  {
    PackDef(w0, w1, w2, w3); PackDef(w4, w5, w6, w7); RawSigma0Lo(w0, w1, w2, w3, w4, w5, w6, w7); SmallDef(w3); SmallDef(w4);
  }

  lemma HiSigma1Lo(a: bv64, b: bv64)
    ensures Sigma1Lo(Hi(a, b)) == Lo(SmallSigma1(a), SmallSigma1(b))
  {
    HiDef(a, b); RawSigma1Lo(a, b); SmallDef(a); SmallDef(b);
  }

  lemma SumLo(c1: bv64, d1: bv64, c2: bv64, d2: bv64, c3: bv64, d3: bv64, c4: bv64, d4: bv64)
    ensures MaskLo(WideAdd4(Lo(c1, d1), Lo(c2, d2), Lo(c3, d3), Lo(c4, d4))) == Lo(Add4(c1, c2, c3, c4), Add4(d1, d2, d3, d4))
  {
    LoDef(c1, d1); LoDef(c2, d2); LoDef(c3, d3); LoDef(c4, d4);
    RawWideLo(c1, d1, c2, d2, c3, d3, c4, d4); RawSumLo(c1, d1, c2, d2, c3, d3, c4, d4);
    Add4Def(c1, c2, c3, c4); Add4Def(d1, d2, d3, d4);
  }

  lemma HiLo(w0: bv64, w1: bv64, w2: bv64, w3: bv64)
    ensures Or(Hi(w0, w1), Lo(w2, w3)) == Pack(w0, w1, w2, w3)
  {
  }

  lemma Add4Swap(a: bv64, b: bv64, c: bv64, d: bv64)
    ensures Add4(a, b, c, d) == Add4(d, b, c, a)
  {
  }

  // ----- the padded message -----

  /** The `i`-th 64-bit word of a 256-bit word, from the top. */
  function Word0(x: bv256): bv64 { (x >> 192) as bv64 }
  function Word1(x: bv256): bv64 { ((x >> 128) & 0xffffffff_ffffffff) as bv64 }
  function Word2(x: bv256): bv64 { ((x >> 64) & 0xffffffff_ffffffff) as bv64 }
  function Word3(x: bv256): bv64 { (x & 0xffffffff_ffffffff) as bv64 }

  /** Swaps the two middle lanes. */
  function Interleave(x: bv256): bv256 {
    (x & 0xffffffff_ffffffff_00000000_00000000_00000000_00000000_ffffffff_ffffffff) | ((x & 0xffffffff_ffffffff_00000000_00000000_00000000_00000000) >> 64) | ((x & 0xffffffff_ffffffff_00000000_00000000) << 64)
  }

  lemma InterleavePacks(x: bv256)
    ensures Interleave(x) == Pack(Word0(x), Word1(x), Word2(x), Word3(x))
  {
  }

  /** The last nine message bytes, the padding bit and the length in bits, as the contract packs them. */
  function Tail(m: bv72): bv256 {
    ((((m as bv256) << 184) & 0xffffffff_ffffffff_00000000_00000000_00000000_00000000_00000000_00000000)
     | ((((m as bv256) << 184) & 0xffffffff_ffffffff_00000000_00000000_00000000_00000000) >> 64))
    | 0x800000_00000000_00000000_00000348
  }

  /** The same as words: eight bytes, the ninth byte followed by the padding bit, and a 128-bit length. */
  function TailWord0(m: bv72): bv64 { (m >> 8) as bv64 }
  function TailWord1(m: bv72): bv64 { ((m & 0xff) as bv64 << 56) | 0x80_0000_0000_0000 }

  lemma TailPacks(m: bv72)
    ensures Tail(m) == Pack(TailWord0(m), TailWord1(m), 0, 105 * 8)
  {
  }

  // ----- the digest -----

  /** Reverses the bytes of a word. */
  function Reverse(x: bv64): bv64 {
    ((x & 0xff) << 56) | ((x & 0xff00) << 40) | ((x & 0xff0000) << 24) | ((x & 0xff000000) << 8)
    | ((x >> 8) & 0xff000000) | ((x >> 24) & 0xff0000) | ((x >> 40) & 0xff00) | (x >> 56)
  }

  /** Four words, the first in the lowest lane. */
  function Stack(a: bv64, b: bv64, c: bv64, d: bv64): bv256 {
    (a as bv256) | ((b as bv256) << 64) | ((c as bv256) << 128) | ((d as bv256) << 192)
  }

  /** The contract's three swaps: neighbouring bytes, byte pairs and half lanes. */
  function SwapBytes(x: bv256): bv256 { ((x & 0xff00ff_00ff00ff_00ff00ff_00ff00ff_00ff00ff_00ff00ff_00ff00ff_00ff00ff) << 8) | ((x & 0xff00ff00_ff00ff00_ff00ff00_ff00ff00_ff00ff00_ff00ff00_ff00ff00_ff00ff00) >> 8) }
  function SwapPairs(x: bv256): bv256 { ((x & 0xffff_0000ffff_0000ffff_0000ffff_0000ffff_0000ffff_0000ffff_0000ffff) << 16) | ((x & 0xffff0000_ffff0000_ffff0000_ffff0000_ffff0000_ffff0000_ffff0000_ffff0000) >> 16) }
  function SwapHalves(x: bv256): bv256 { ((x & 0xffffffff_00000000_ffffffff_00000000_ffffffff_00000000_ffffffff) << 32) | ((x & 0xffffffff_00000000_ffffffff_00000000_ffffffff_00000000_ffffffff_00000000) >> 32) }

  // The same swaps inside one word.
  function Bytes64(x: bv64): bv64 { ((x & 0xff00ff_00ff00ff) << 8) | ((x & 0xff00ff00_ff00ff00) >> 8) }
  function Pairs64(x: bv64): bv64 { ((x & 0xffff_0000ffff) << 16) | ((x & 0xffff0000_ffff0000) >> 16) }
  function Halves64(x: bv64): bv64 { (x << 32) | (x >> 32) }

  lemma StackDef(a: bv64, b: bv64, c: bv64, d: bv64)
    ensures Stack(a, b, c, d) == ((a as bv256) | ((b as bv256) << 64) | ((c as bv256) << 128) | ((d as bv256) << 192))
  {
  }

  lemma RawSwapBytes(a: bv64, b: bv64, c: bv64, d: bv64)
    ensures SwapBytes(((a as bv256) | ((b as bv256) << 64) | ((c as bv256) << 128) | ((d as bv256) << 192)))
            == Stack((((a & 0xff00ff_00ff00ff) << 8) | ((a & 0xff00ff00_ff00ff00) >> 8)), (((b & 0xff00ff_00ff00ff) << 8) | ((b & 0xff00ff00_ff00ff00) >> 8)), (((c & 0xff00ff_00ff00ff) << 8) | ((c & 0xff00ff00_ff00ff00) >> 8)), (((d & 0xff00ff_00ff00ff) << 8) | ((d & 0xff00ff00_ff00ff00) >> 8)))
  {
  }

  lemma BytesDef(x: bv64)
    ensures Bytes64(x) == (((x & 0xff00ff_00ff00ff) << 8) | ((x & 0xff00ff00_ff00ff00) >> 8))
  {
  }

  lemma SwapBytesStack(a: bv64, b: bv64, c: bv64, d: bv64)
    ensures SwapBytes(Stack(a, b, c, d)) == Stack(Bytes64(a), Bytes64(b), Bytes64(c), Bytes64(d))
  {
    StackDef(a, b, c, d);
    RawSwapBytes(a, b, c, d);
    BytesDef(a); BytesDef(b); BytesDef(c); BytesDef(d);
  }

  lemma RawSwapPairs(a: bv64, b: bv64, c: bv64, d: bv64)
    ensures SwapPairs(((a as bv256) | ((b as bv256) << 64) | ((c as bv256) << 128) | ((d as bv256) << 192)))
            == Stack((((a & 0xffff_0000ffff) << 16) | ((a & 0xffff0000_ffff0000) >> 16)), (((b & 0xffff_0000ffff) << 16) | ((b & 0xffff0000_ffff0000) >> 16)), (((c & 0xffff_0000ffff) << 16) | ((c & 0xffff0000_ffff0000) >> 16)), (((d & 0xffff_0000ffff) << 16) | ((d & 0xffff0000_ffff0000) >> 16)))
  {
  }

  lemma PairsDef(x: bv64)
    ensures Pairs64(x) == (((x & 0xffff_0000ffff) << 16) | ((x & 0xffff0000_ffff0000) >> 16))
  {
  }

  lemma SwapPairsStack(a: bv64, b: bv64, c: bv64, d: bv64)
    ensures SwapPairs(Stack(a, b, c, d)) == Stack(Pairs64(a), Pairs64(b), Pairs64(c), Pairs64(d))
  {
    StackDef(a, b, c, d);
    RawSwapPairs(a, b, c, d);
    PairsDef(a); PairsDef(b); PairsDef(c); PairsDef(d);
  }

  lemma RawSwapHalves(a: bv64, b: bv64, c: bv64, d: bv64)
    ensures SwapHalves(((a as bv256) | ((b as bv256) << 64) | ((c as bv256) << 128) | ((d as bv256) << 192)))
            == Stack(((a << 32) | (a >> 32)), ((b << 32) | (b >> 32)), ((c << 32) | (c >> 32)), ((d << 32) | (d >> 32)))
  {
  }

  lemma HalvesDef(x: bv64)
    ensures Halves64(x) == ((x << 32) | (x >> 32))
  {
  }

  lemma SwapHalvesStack(a: bv64, b: bv64, c: bv64, d: bv64)
    ensures SwapHalves(Stack(a, b, c, d)) == Stack(Halves64(a), Halves64(b), Halves64(c), Halves64(d))
  {
    StackDef(a, b, c, d);
    RawSwapHalves(a, b, c, d);
    HalvesDef(a); HalvesDef(b); HalvesDef(c); HalvesDef(d);
  }

  lemma ReverseIs(x: bv64)
    ensures Halves64(Pairs64(Bytes64(x))) == Reverse(x)
  {
  }

  lemma SwapsReverse(a: bv64, b: bv64, c: bv64, d: bv64)
    ensures SwapHalves(SwapPairs(SwapBytes(Stack(a, b, c, d)))) == Stack(Reverse(a), Reverse(b), Reverse(c), Reverse(d))
  {
    SwapBytesStack(a, b, c, d);
    SwapPairsStack(Bytes64(a), Bytes64(b), Bytes64(c), Bytes64(d));
    SwapHalvesStack(Pairs64(Bytes64(a)), Pairs64(Bytes64(b)), Pairs64(Bytes64(c)), Pairs64(Bytes64(d)));
    ReverseIs(a); ReverseIs(b); ReverseIs(c); ReverseIs(d);
  }

  /** Four sums with the initial value, masked except where the shift drops the rest. */
  function StackSums(a: bv256, b: bv256, c: bv256, d: bv256, i: bv256, j: bv256, k: bv256, l: bv256): bv256 {
    ((a + i) & 0xffffffff_ffffffff) | (((b + j) & 0xffffffff_ffffffff) << 64) | (((c + k) & 0xffffffff_ffffffff) << 128) | ((d + l) << 192)
  }

  lemma RawStackSums(a: bv256, b: bv256, c: bv256, d: bv256, i: bv256, j: bv256, k: bv256, l: bv256)
    ensures StackSums(a, b, c, d, i, j, k, l)
            == Stack(((a + i) & 0xffffffff_ffffffff) as bv64, ((b + j) & 0xffffffff_ffffffff) as bv64, ((c + k) & 0xffffffff_ffffffff) as bv64, ((d + l) & 0xffffffff_ffffffff) as bv64)
  {
  }

  lemma StackSumsIs(a: bv256, b: bv256, c: bv256, d: bv256, i: bv256, j: bv256, k: bv256, l: bv256)
    ensures StackSums(a, b, c, d, i, j, k, l)
            == Stack(Low(WideAdd2(a, i)), Low(WideAdd2(b, j)), Low(WideAdd2(c, k)), Low(WideAdd2(d, l)))
  {
    RawStackSums(a, b, c, d, i, j, k, l);
    WideAdd2Def(a, i); WideAdd2Def(b, j); WideAdd2Def(c, k); WideAdd2Def(d, l);
    LowDef(a + i); LowDef(b + j); LowDef(c + k); LowDef(d + l);
  }

  /** The shift that brings word `j` of a packed word to the low lane. */
  function Lane(x: bv256, j: nat): bv256
    requires j < 4
  {
    if j == 0 then x >> 192 else if j == 1 then x >> 64 else if j == 2 then x >> 128 else x
  }

  lemma PackLane(w0: bv64, w1: bv64, w2: bv64, w3: bv64, j: nat)
    requires j < 4
    ensures Low(Lane(Pack(w0, w1, w2, w3), j)) == if j == 0 then w0 else if j == 1 then w1 else if j == 2 then w2 else w3
  {
    PackLow(w0, w1, w2, w3);
  }

  // ----- whole words -----

  /** The last two swaps of a 256-bit word: neighbouring lanes, and halves. */
  function SwapLanes(x: bv256): bv256 { ((x & 0xffffffff_ffffffff_00000000_00000000_ffffffff_ffffffff) << 64) | ((x & 0xffffffff_ffffffff_00000000_00000000_ffffffff_ffffffff_00000000_00000000) >> 64) }
  function SwapSides(x: bv256): bv256 { (x << 128) | (x >> 128) }

  /** All 32 bytes in the opposite order. */
  function Reversed(x: bv256): bv256 { Stack(Reverse(Word0(x)), Reverse(Word1(x)), Reverse(Word2(x)), Reverse(Word3(x))) }

  lemma WordsStack(x: bv256)
    ensures x == Stack(Word3(x), Word2(x), Word1(x), Word0(x))
  {
  }

  lemma StackWords(a: bv64, b: bv64, c: bv64, d: bv64)
    ensures Word0(Stack(a, b, c, d)) == d && Word1(Stack(a, b, c, d)) == c
    ensures Word2(Stack(a, b, c, d)) == b && Word3(Stack(a, b, c, d)) == a
  {
  }

  lemma SwapStack(a: bv64, b: bv64, c: bv64, d: bv64)
    ensures SwapSides(SwapLanes(Stack(a, b, c, d))) == Stack(d, c, b, a)
  {
  }

  lemma ReverseTwice(x: bv64)
    ensures Reverse(Reverse(x)) == x
  {
  }

  /** The contract's five swaps reverse a word. */
  lemma SwapsReverseAll(x: bv256)
    ensures SwapSides(SwapLanes(SwapHalves(SwapPairs(SwapBytes(x))))) == Reversed(x)
  {
    var a, b, c, d := Word3(x), Word2(x), Word1(x), Word0(x);
    WordsStack(x);
    SwapsReverse(a, b, c, d);
    SwapStack(Reverse(a), Reverse(b), Reverse(c), Reverse(d));
  }

  /** Reversing undoes itself, so a reversed word is the given one exactly when the word is the given one reversed. */
  lemma ReversedTwice(x: bv256)
    ensures Reversed(Reversed(x)) == x
  {
    var a, b, c, d := Word0(x), Word1(x), Word2(x), Word3(x);
    StackWords(Reverse(a), Reverse(b), Reverse(c), Reverse(d));
    ReverseTwice(a); ReverseTwice(b); ReverseTwice(c); ReverseTwice(d);
    WordsStack(x);
  }

  // ----- words as numbers -----

  const TOP: nat := 0x80000000_00000000_00000000_00000000_00000000_00000000_00000000_00000000

  function Number(x: bv256): nat { x as nat }

  /** The low 255 bits and the top bit. */
  function LowBits(x: bv256): nat { (x & 0x7fffffff_ffffffff_ffffffff_ffffffff_ffffffff_ffffffff_ffffffff_ffffffff) as nat }
  function TopBit(x: bv256): nat { (x >> 255) as nat }

  function Topped(x: bv256): bv256 { x | 0x80000000_00000000_00000000_00000000_00000000_00000000_00000000_00000000 }

  lemma ToppedNumber(x: bv256)
    ensures Number(Topped(x)) == LowBits(x) + TOP
  {
  }

  lemma NumberFits(x: bv256)
    ensures Number(x) < 2 * TOP
  {
  }

  lemma TopBitFits(x: bv256)
    ensures TopBit(x) < 2
  {
  }

  lemma SplitNumber(x: bv256)
    ensures Number(x) == LowBits(x) + TOP * TopBit(x)
  {
  }

  lemma LowBitsFit(x: bv256)
    ensures LowBits(x) < TOP
  {
    ToppedNumber(x);
    NumberFits(Topped(x));
  }
}
