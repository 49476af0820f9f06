/** The constants of SHA-512 (sections 4.2.3 and 5.3.5 of FIPS 180-4): the round constants are the first 64 bits of the
    fractional parts of the cube roots of the first eighty primes, and the initial value those of the square roots of
    the first eight. */
module Sha512Constants {
  import opened Arithmetic
  import opened Sha512

  // ----- the first eighty primes -----

  // Sixteen to a pass of the contract's loop.
  const P0: seq<nat> := [2, 3, 5, 7, 11, 13, 17, 19, 23, 29, 31, 37, 41, 43, 47, 53]
  const P1: seq<nat> := [59, 61, 67, 71, 73, 79, 83, 89, 97, 101, 103, 107, 109, 113, 127, 131]
  const P2: seq<nat> := [137, 139, 149, 151, 157, 163, 167, 173, 179, 181, 191, 193, 197, 199, 211, 223]
  const P3: seq<nat> := [227, 229, 233, 239, 241, 251, 257, 263, 269, 271, 277, 281, 283, 293, 307, 311]
  const P4: seq<nat> := [313, 317, 331, 337, 347, 349, 353, 359, 367, 373, 379, 383, 389, 397, 401, 409]

  function Row(c: nat): seq<nat>
    requires c < 5
  {
    if c == 0 then P0 else if c == 1 then P1 else if c == 2 then P2 else if c == 3 then P3 else P4
  }

  lemma RowLength(c: nat)
    requires c < 5
    ensures |Row(c)| == 16
  {
  }

  /** The prime of round `t`. */
  function PrimeOf(t: nat): nat
    requires t < 80
  {
    RowLength(t / 16);
    Row(t / 16)[t % 16]
  }

  ghost predicate Prime(n: nat) {
    n >= 2 && forall k: nat {:trigger n % k} :: 2 <= k < n ==> n % k != 0
  }

  /** Not a proper multiple of a prime below twenty. */
  predicate Sieved(n: nat) {
    && (n == 2 || n % 2 != 0) && (n == 3 || n % 3 != 0) && (n == 5 || n % 5 != 0) && (n == 7 || n % 7 != 0)
    && (n == 11 || n % 11 != 0) && (n == 13 || n % 13 != 0) && (n == 17 || n % 17 != 0) && (n == 19 || n % 19 != 0)
  }

  lemma Divides(n: nat, k: nat, j: nat)
    requires j > 0 && k > 0 && n % k == 0 && k % j == 0
    ensures n % j == 0
  {
    var a, b := n / k, k / j;
    assert n == a * k && k == b * j;
    Associate(a, b, j);
    ModUnique(a * b, 0, j);
  }

  lemma SmallFactor(k: nat)
    requires 2 <= k <= 20
    ensures k % 2 == 0 || k % 3 == 0 || k % 5 == 0 || k % 7 == 0 || k == 11 || k == 13 || k == 17 || k == 19
  {
  }

  /** A divisor up to twenty other than n itself sieves n out. */
  lemma Caught(n: nat, k: nat)
    requires 2 <= k <= 20 && k < n && n % k == 0
    ensures !Sieved(n)
  {
    SmallFactor(k);
    if k % 2 == 0 {
      Divides(n, k, 2);
    } else if k % 3 == 0 {
      Divides(n, k, 3);
    } else if k % 5 == 0 {
      Divides(n, k, 5);
    } else if k % 7 == 0 {
      Divides(n, k, 7);
    }
  }

  /** Below 441 the sieve leaves exactly the primes. */
  lemma SievedIsPrime(n: nat)
    requires 2 <= n < 441
    ensures Sieved(n) <==> Prime(n)
  {
    if Sieved(n) {
      forall k: nat {:trigger n % k} | 2 <= k < n ensures n % k != 0 {
        if n % k == 0 {
          var j := n / k;
          assert n == j * k;
          Cofactor(n, k, j);
          if k <= 20 {
            Caught(n, k);
          } else {
            ModUnique(k, 0, j);
            Caught(n, j);
          }
        }
      }
    }
  }

  lemma Cofactor(n: nat, k: nat, j: nat)
    requires n == j * k && 2 <= k < n < 441
    ensures 2 <= j < n && (k <= 20 || j <= 20) && n == k * j
  {
    MulAtLeast(k - 1, j);
    assert k * j == (k - 1) * j + j;
    if j >= 21 && k >= 21 {
      MulAtLeast(j - 20, k);
    }
  }

  /** The members of `list` are what the sieve leaves from `lo` up to `hi`. */
  predicate Holds(list: seq<nat>, lo: nat, hi: nat, n: nat) {
    n in list <==> lo <= n < hi && Sieved(n)
  }

  lemma Cases(n: nat, a: nat)
    ensures a <= n < a + 17 ==>
              || n == a || n == a + 1 || n == a + 2 || n == a + 3 || n == a + 4 || n == a + 5 || n == a + 6 || n == a + 7
              || n == a + 8 || n == a + 9 || n == a + 10 || n == a + 11 || n == a + 12 || n == a + 13 || n == a + 14
              || n == a + 15 || n == a + 16
  {
  }

  lemma From2(n: nat)
    ensures Holds([2, 3, 5, 7, 11, 13], 2, 15, n)
  {
    Cases(n, 2);
  }

  lemma From15(n: nat)
    ensures Holds([17, 19, 23], 15, 28, n)
  {
    Cases(n, 15);
  }

  lemma From28(n: nat)
    ensures Holds([29, 31, 37], 28, 41, n)
  {
    Cases(n, 28);
  }

  lemma From41(n: nat)
    ensures Holds([41, 43, 47, 53], 41, 54, n)
  {
    Cases(n, 41);
  }

  lemma Row0(n: nat)
    ensures Holds(P0, 2, 54, n)
  {
    From2(n);
    From15(n);
    From28(n);
    From41(n);
    assert P0 == [2, 3, 5, 7, 11, 13] + [17, 19, 23] + [29, 31, 37] + [41, 43, 47, 53];
  }

  lemma From54(n: nat)
    ensures Holds([59, 61, 67], 54, 69, n)
  {
    Cases(n, 54);
  }

  lemma From69(n: nat)
    ensures Holds([71, 73, 79, 83], 69, 85, n)
  {
    Cases(n, 69);
  }

  lemma From85(n: nat)
    ensures Holds([89, 97], 85, 100, n)
  {
    Cases(n, 85);
  }

  lemma From100(n: nat)
    ensures Holds([101, 103, 107, 109, 113], 100, 116, n)
  {
    Cases(n, 100);
  }

  lemma From116(n: nat)
    ensures Holds([127, 131], 116, 132, n)
  {
    Cases(n, 116);
  }

  lemma Row1(n: nat)
    ensures Holds(P1, 54, 132, n)
  {
    From54(n);
    From69(n);
    From85(n);
    From100(n);
    From116(n);
    assert P1 == [59, 61, 67] + [71, 73, 79, 83] + [89, 97] + [101, 103, 107, 109, 113] + [127, 131];
  }

  lemma From132(n: nat)
    ensures Holds([137, 139], 132, 147, n)
  {
    Cases(n, 132);
  }

  lemma From147(n: nat)
    ensures Holds([149, 151, 157], 147, 162, n)
  {
    Cases(n, 147);
  }

  lemma From162(n: nat)
    ensures Holds([163, 167, 173], 162, 178, n)
  {
    Cases(n, 162);
  }

  lemma From178(n: nat)
    ensures Holds([179, 181, 191], 178, 193, n)
  {
    Cases(n, 178);
  }

  lemma From193(n: nat)
    ensures Holds([193, 197, 199], 193, 208, n)
  {
    Cases(n, 193);
  }

  lemma From208(n: nat)
    ensures Holds([211, 223], 208, 224, n)
  {
    Cases(n, 208);
  }

  lemma Row2(n: nat)
    ensures Holds(P2, 132, 224, n)
  {
    From132(n);
    From147(n);
    From162(n);
    From178(n);
    From193(n);
    From208(n);
    assert P2 == [137, 139] + [149, 151, 157] + [163, 167, 173] + [179, 181, 191] + [193, 197, 199] + [211, 223];
  }

  lemma From224(n: nat)
    ensures Holds([227, 229, 233], 224, 238, n)
  {
    Cases(n, 224);
  }

  lemma From238(n: nat)
    ensures Holds([239, 241, 251], 238, 253, n)
  {
    Cases(n, 238);
  }

  lemma From253(n: nat)
    ensures Holds([257, 263], 253, 268, n)
  {
    Cases(n, 253);
  }

  lemma From268(n: nat)
    ensures Holds([269, 271, 277, 281], 268, 282, n)
  {
    Cases(n, 268);
  }

  lemma From282(n: nat)
    ensures Holds([283, 293], 282, 297, n)
  {
    Cases(n, 282);
  }

  lemma From297(n: nat)
    ensures Holds([307, 311], 297, 312, n)
  {
    Cases(n, 297);
  }

  lemma Row3(n: nat)
    ensures Holds(P3, 224, 312, n)
  {
    From224(n);
    From238(n);
    From253(n);
    From268(n);
    From282(n);
    From297(n);
    assert P3 == [227, 229, 233] + [239, 241, 251] + [257, 263] + [269, 271, 277, 281] + [283, 293] + [307, 311];
  }

  lemma From312(n: nat)
    ensures Holds([313, 317], 312, 328, n)
  {
    Cases(n, 312);
  }

  lemma From328(n: nat)
    ensures Holds([331, 337], 328, 344, n)
  {
    Cases(n, 328);
  }

  lemma From344(n: nat)
    ensures Holds([347, 349, 353, 359], 344, 361, n)
  {
    Cases(n, 344);
  }

  lemma From361(n: nat)
    ensures Holds([367, 373], 361, 377, n)
  {
    Cases(n, 361);
  }

  lemma From377(n: nat)
    ensures Holds([379, 383, 389], 377, 393, n)
  {
    Cases(n, 377);
  }

  lemma From393(n: nat)
    ensures Holds([397, 401, 409], 393, 410, n)
  {
    Cases(n, 393);
  }

  lemma Row4(n: nat)
    ensures Holds(P4, 312, 410, n)
  {
    From312(n);
    From328(n);
    From344(n);
    From361(n);
    From377(n);
    From393(n);
    assert P4 == [313, 317] + [331, 337] + [347, 349, 353, 359] + [367, 373] + [379, 383, 389] + [397, 401, 409];
  }

  /** The five rows hold the primes below 410 and nothing else. */
  lemma PrimesListed(n: nat)
    requires n < 410
    ensures n in P0 || n in P1 || n in P2 || n in P3 || n in P4 <==> Prime(n)
  {
    Row0(n);
    Row1(n);
    Row2(n);
    Row3(n);
    Row4(n);
    if n >= 2 {
      SievedIsPrime(n);
    }
  }

  predicate Ascends(s: seq<nat>) {
    forall i :: 0 <= i < |s| - 1 ==> s[i] < s[i + 1]
  }

  lemma Row0Ascends()
    ensures |P0| == 16 && Ascends(P0) && P0[0] == 2 && P0[15] == 53
  {
  }

  lemma Row1Ascends()
    ensures |P1| == 16 && Ascends(P1) && P1[0] == 59 && P1[15] == 131
  {
  }

  lemma Row2Ascends()
    ensures |P2| == 16 && Ascends(P2) && P2[0] == 137 && P2[15] == 223
  {
  }

  lemma Row3Ascends()
    ensures |P3| == 16 && Ascends(P3) && P3[0] == 227 && P3[15] == 311
  {
  }

  lemma Row4Ascends()
    ensures |P4| == 16 && Ascends(P4) && P4[0] == 313 && P4[15] == 409
  {
  }

  lemma RowsAscend(c: nat)
    requires c < 5
    ensures |Row(c)| == 16 && Ascends(Row(c))
    ensures c < 4 ==> |Row(c + 1)| == 16 && Row(c)[15] < Row(c + 1)[0]
  {
    Row0Ascends();
    Row1Ascends();
    Row2Ascends();
    Row3Ascends();
    Row4Ascends();
  }

  /** ... in ascending order. */
  lemma PrimesAscend(t: nat)
    requires t < 79
    ensures PrimeOf(t) < PrimeOf(t + 1)
  {
    RowsAscend(t / 16);
    if t % 16 == 15 {
      assert (t + 1) / 16 == t / 16 + 1 && (t + 1) % 16 == 0;
    } else {
      assert (t + 1) / 16 == t / 16 && (t + 1) % 16 == t % 16 + 1;
    }
  }

  // ----- roots -----

  const UNIT: nat := 0x1_00000000_00000000

  function Square(x: nat): nat { x * x }

  function Cube(x: nat): nat { x * x * x }

  /** `x` is the root of `q` in units of 2^-64, rounded down. */
  predicate IsCubeRoot(q: nat, x: nat) {
    Cube(x) <= q * Cube(UNIT) < Cube(x + 1)
  }

  predicate IsSquareRoot(q: nat, x: nat) {
    Square(x) <= q * Square(UNIT) < Square(x + 1)
  }

  /** `k` holds the first 64 bits of the fractional part of a root, `n` its integral part. */
  ghost predicate CubeRootBits(q: nat, k: nat) {
    k < UNIT && exists n: nat :: IsCubeRoot(q, n * UNIT + k)
  }

  ghost predicate SquareRootBits(q: nat, k: nat) {
    k < UNIT && exists n: nat :: IsSquareRoot(q, n * UNIT + k)
  }

  /** The bits are determined by the number. */
  lemma BitsUnique(q: nat, a: nat, b: nat)
    requires CubeRootBits(q, a) && CubeRootBits(q, b)
    ensures a == b
  {
    var m: nat :| IsCubeRoot(q, m * UNIT + a);
    var n: nat :| IsCubeRoot(q, n * UNIT + b);
    RootUnique(q, m * UNIT + a, n * UNIT + b);
    DivUnique(m, a, n, b, UNIT);
  }

  function Bits(k: bv64): nat { k as nat }

  /** A table of round constants as section 4.2.3 of FIPS 180-4 prescribes it. */
  ghost predicate Standard(kk: Table) {
    forall t {:trigger K(kk, t)} :: 0 <= t < 80 ==> CubeRootBits(PrimeOf(t), Bits(K(kk, t)))
  }

  lemma Found(q: nat, n: nat, k: bv64)
    requires IsCubeRoot(q, n * UNIT + Bits(k))
    ensures CubeRootBits(q, Bits(k))
  {
  }

  // Row `j` of the table holds the constants of the rounds j, 16 + j, 32 + j, 48 + j and 64 + j.
  lemma Constants0(c: nat)
    requires c < 5
    ensures CubeRootBits(Row(c)[0], Bits(KK[0][c]))
  {
    match c
    case 0 => Found(2, 1, KK[0][0]);
    case 1 => Found(59, 3, KK[0][1]);
    case 2 => Found(137, 5, KK[0][2]);
    case 3 => Found(227, 6, KK[0][3]);
    case 4 => Found(313, 6, KK[0][4]);
  }

  lemma Constants1(c: nat)
    requires c < 5
    ensures CubeRootBits(Row(c)[1], Bits(KK[1][c]))
  {
    match c
    case 0 => Found(3, 1, KK[1][0]);
    case 1 => Found(61, 3, KK[1][1]);
    case 2 => Found(139, 5, KK[1][2]);
    case 3 => Found(229, 6, KK[1][3]);
    case 4 => Found(317, 6, KK[1][4]);
  }

  lemma Constants2(c: nat)
    requires c < 5
    ensures CubeRootBits(Row(c)[2], Bits(KK[2][c]))
  {
    match c
    case 0 => Found(5, 1, KK[2][0]);
    case 1 => Found(67, 4, KK[2][1]);
    case 2 => Found(149, 5, KK[2][2]);
    case 3 => Found(233, 6, KK[2][3]);
    case 4 => Found(331, 6, KK[2][4]);
  }

  lemma Constants3(c: nat)
    requires c < 5
    ensures CubeRootBits(Row(c)[3], Bits(KK[3][c]))
  {
    match c
    case 0 => Found(7, 1, KK[3][0]);
    case 1 => Found(71, 4, KK[3][1]);
    case 2 => Found(151, 5, KK[3][2]);
    case 3 => Found(239, 6, KK[3][3]);
    case 4 => Found(337, 6, KK[3][4]);
  }

  lemma Constants4(c: nat)
    requires c < 5
    ensures CubeRootBits(Row(c)[4], Bits(KK[4][c]))
  {
    match c
    case 0 => Found(11, 2, KK[4][0]);
    case 1 => Found(73, 4, KK[4][1]);
    case 2 => Found(157, 5, KK[4][2]);
    case 3 => Found(241, 6, KK[4][3]);
    case 4 => Found(347, 7, KK[4][4]);
  }

  lemma Constants5(c: nat)
    requires c < 5
    ensures CubeRootBits(Row(c)[5], Bits(KK[5][c]))
  {
    match c
    case 0 => Found(13, 2, KK[5][0]);
    case 1 => Found(79, 4, KK[5][1]);
    case 2 => Found(163, 5, KK[5][2]);
    case 3 => Found(251, 6, KK[5][3]);
    case 4 => Found(349, 7, KK[5][4]);
  }

  lemma Constants6(c: nat)
    requires c < 5
    ensures CubeRootBits(Row(c)[6], Bits(KK[6][c]))
  {
    match c
    case 0 => Found(17, 2, KK[6][0]);
    case 1 => Found(83, 4, KK[6][1]);
    case 2 => Found(167, 5, KK[6][2]);
    case 3 => Found(257, 6, KK[6][3]);
    case 4 => Found(353, 7, KK[6][4]);
  }

  lemma Constants7(c: nat)
    requires c < 5
    ensures CubeRootBits(Row(c)[7], Bits(KK[7][c]))
  {
    match c
    case 0 => Found(19, 2, KK[7][0]);
    case 1 => Found(89, 4, KK[7][1]);
    case 2 => Found(173, 5, KK[7][2]);
    case 3 => Found(263, 6, KK[7][3]);
    case 4 => Found(359, 7, KK[7][4]);
  }

  lemma Constants8(c: nat)
    requires c < 5
    ensures CubeRootBits(Row(c)[8], Bits(KK[8][c]))
  {
    match c
    case 0 => Found(23, 2, KK[8][0]);
    case 1 => Found(97, 4, KK[8][1]);
    case 2 => Found(179, 5, KK[8][2]);
    case 3 => Found(269, 6, KK[8][3]);
    case 4 => Found(367, 7, KK[8][4]);
  }

  lemma Constants9(c: nat)
    requires c < 5
    ensures CubeRootBits(Row(c)[9], Bits(KK[9][c]))
  {
    match c
    case 0 => Found(29, 3, KK[9][0]);
    case 1 => Found(101, 4, KK[9][1]);
    case 2 => Found(181, 5, KK[9][2]);
    case 3 => Found(271, 6, KK[9][3]);
    case 4 => Found(373, 7, KK[9][4]);
  }

  lemma Constants10(c: nat)
    requires c < 5
    ensures CubeRootBits(Row(c)[10], Bits(KK[10][c]))
  {
    match c
    case 0 => Found(31, 3, KK[10][0]);
    case 1 => Found(103, 4, KK[10][1]);
    case 2 => Found(191, 5, KK[10][2]);
    case 3 => Found(277, 6, KK[10][3]);
    case 4 => Found(379, 7, KK[10][4]);
  }

  lemma Constants11(c: nat)
    requires c < 5
    ensures CubeRootBits(Row(c)[11], Bits(KK[11][c]))
  {
    match c
    case 0 => Found(37, 3, KK[11][0]);
    case 1 => Found(107, 4, KK[11][1]);
    case 2 => Found(193, 5, KK[11][2]);
    case 3 => Found(281, 6, KK[11][3]);
    case 4 => Found(383, 7, KK[11][4]);
  }

  lemma Constants12(c: nat)
    requires c < 5
    ensures CubeRootBits(Row(c)[12], Bits(KK[12][c]))
  {
    match c
    case 0 => Found(41, 3, KK[12][0]);
    case 1 => Found(109, 4, KK[12][1]);
    case 2 => Found(197, 5, KK[12][2]);
    case 3 => Found(283, 6, KK[12][3]);
    case 4 => Found(389, 7, KK[12][4]);
  }

  lemma Constants13(c: nat)
    requires c < 5
    ensures CubeRootBits(Row(c)[13], Bits(KK[13][c]))
  {
    match c
    case 0 => Found(43, 3, KK[13][0]);
    case 1 => Found(113, 4, KK[13][1]);
    case 2 => Found(199, 5, KK[13][2]);
    case 3 => Found(293, 6, KK[13][3]);
    case 4 => Found(397, 7, KK[13][4]);
  }

  lemma Constants14(c: nat)
    requires c < 5
    ensures CubeRootBits(Row(c)[14], Bits(KK[14][c]))
  {
    match c
    case 0 => Found(47, 3, KK[14][0]);
    case 1 => Found(127, 5, KK[14][1]);
    case 2 => Found(211, 5, KK[14][2]);
    case 3 => Found(307, 6, KK[14][3]);
    case 4 => Found(401, 7, KK[14][4]);
  }

  lemma Constants15(c: nat)
    requires c < 5
    ensures CubeRootBits(Row(c)[15], Bits(KK[15][c]))
  {
    match c
    case 0 => Found(53, 3, KK[15][0]);
    case 1 => Found(131, 5, KK[15][1]);
    case 2 => Found(223, 6, KK[15][2]);
    case 3 => Found(311, 6, KK[15][3]);
    case 4 => Found(409, 7, KK[15][4]);
  }

  /** The contract's table is the standard's. */
  lemma TableIsStandard()
    ensures Standard(KK)
  {
    forall t {:trigger K(KK, t)} | 0 <= t < 80 ensures CubeRootBits(PrimeOf(t), Bits(K(KK, t))) {
      ConstantAt(t % 16, t / 16);
    }
  }

  lemma ConstantAt(j: nat, c: nat)
    requires j < 16 && c < 5
    ensures |Row(c)| == 16 && CubeRootBits(Row(c)[j], Bits(KK[j][c]))
  {
    RowLength(c);
    if j < 8 {
      ConstantLow(j, c);
    } else {
      ConstantHigh(j, c);
    }
  }

  lemma ConstantLow(j: nat, c: nat)
    requires 0 <= j < 8 && c < 5
    ensures |Row(c)| == 16 && CubeRootBits(Row(c)[j], Bits(KK[j][c]))
  {
    match j
    case 0 => Constants0(c);
    case 1 => Constants1(c);
    case 2 => Constants2(c);
    case 3 => Constants3(c);
    case 4 => Constants4(c);
    case 5 => Constants5(c);
    case 6 => Constants6(c);
    case 7 => Constants7(c);
  }

  lemma ConstantHigh(j: nat, c: nat)
    requires 8 <= j < 16 && c < 5
    ensures |Row(c)| == 16 && CubeRootBits(Row(c)[j], Bits(KK[j][c]))
  {
    match j
    case 8 => Constants8(c);
    case 9 => Constants9(c);
    case 10 => Constants10(c);
    case 11 => Constants11(c);
    case 12 => Constants12(c);
    case 13 => Constants13(c);
    case 14 => Constants14(c);
    case 15 => Constants15(c);
  }

  lemma FoundSquare(q: nat, n: nat, k: bv64)
    requires IsSquareRoot(q, n * UNIT + Bits(k))
    ensures SquareRootBits(q, Bits(k))
  {
  }

  /** The initial value comes from the square roots of the first eight primes. */
  lemma InitialIsStandard()
    ensures SquareRootBits(2, Bits(IV.a)) && SquareRootBits(3, Bits(IV.b)) && SquareRootBits(5, Bits(IV.c))
    ensures SquareRootBits(7, Bits(IV.d)) && SquareRootBits(11, Bits(IV.e)) && SquareRootBits(13, Bits(IV.f))
    ensures SquareRootBits(17, Bits(IV.g)) && SquareRootBits(19, Bits(IV.h))
  {
    FoundSquare(2, 1, IV.a);
    FoundSquare(3, 1, IV.b);
    FoundSquare(5, 2, IV.c);
    FoundSquare(7, 2, IV.d);
    FoundSquare(11, 3, IV.e);
    FoundSquare(13, 3, IV.f);
    FoundSquare(17, 4, IV.g);
    FoundSquare(19, 4, IV.h);
  }

  lemma RootUnique(q: nat, x: nat, y: nat)
    requires IsCubeRoot(q, x) && IsCubeRoot(q, y)
    ensures x == y
  {
    if x < y {
      CubeMonotone(x + 1, y);
    } else if y < x {
      CubeMonotone(y + 1, x);
    }
  }

  lemma CubeMonotone(x: nat, y: nat)
    requires x <= y
    ensures Cube(x) <= Cube(y)
  {
    var e := y - x;
    assert y * y == x * x + (2 * x + e) * e;
    assert y * y * y == (x * x) * y + ((2 * x + e) * e) * y;
    assert (x * x) * y == x * x * x + (x * x) * e;
    assert (x * x) * e >= 0 && ((2 * x + e) * e) * y >= 0;
  }
}
