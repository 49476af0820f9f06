/** The example of FIPS 180-4 for one block: the hash of "abc". It fixes the functions of section 4.1.3, the schedule and
    the rounds by their values, independently of how the contract packs them. */
module Sha512Example {
  import opened Lanes
  import opened Sha512

  /** Schedule words `t` to `t + 15`. */
  ghost predicate Sixteen(w: seq<bv64>, t: nat, x: seq<bv64>) {
    |w| == 80 && t + 16 <= 80 && |x| == 16 && forall i :: 0 <= i < 16 ==> w[t + i] == x[i]
  }

  /** One word of the schedule from the sixteen before it and those already found. */
  ghost predicate Follows(x: seq<bv64>, y: seq<bv64>, i: nat)
    requires |x| == |y| == 16 && i < 16
  {
    y[i] == Add4(SmallSigma1(if i < 2 then x[14 + i] else y[i - 2]), if i < 7 then x[9 + i] else y[i - 7],
                 SmallSigma0(if i < 15 then x[1 + i] else y[0]), x[i])
  }

  /** Where the sixteen words at `t` are `x` and the first `n` after them are those of `y`. */
  lemma Lookup<T>(w: seq<T>, t: nat, x: seq<T>, y: seq<T>, i: nat)
    requires |x| == |y| == 16 && i < 16 && t + 16 + i < |w|
    requires forall j :: 0 <= j < 16 ==> w[t + j] == x[j]
    requires forall j :: 0 <= j < i ==> w[t + 16 + j] == y[j]
    ensures w[t + 16 + i - 2] == if i < 2 then x[14 + i] else y[i - 2]
    ensures w[t + 16 + i - 7] == if i < 7 then x[9 + i] else y[i - 7]
    ensures w[t + 16 + i - 15] == if i < 15 then x[1 + i] else y[0]
    ensures w[t + 16 + i - 16] == x[i]
  {
    assert w[t + 16 + i - 2] == if i < 2 then w[t + (14 + i)] else w[t + 16 + (i - 2)];
    assert w[t + 16 + i - 7] == if i < 7 then w[t + (9 + i)] else w[t + 16 + (i - 7)];
    assert w[t + 16 + i - 15] == if i < 15 then w[t + (1 + i)] else w[t + 16 + 0];
  }

  lemma Scheduled(w: seq<bv64>, n: nat, p: bv64, q: bv64, r: bv64, u: bv64)
    requires IsSchedule(w) && 16 <= n < |w| && w[n - 2] == p && w[n - 7] == q && w[n - 15] == r && w[n - 16] == u
    ensures w[n] == Add4(SmallSigma1(p), q, SmallSigma0(r), u)
  {
    assert ScheduledAt(w, n);
  }

  lemma {:induction false} Next(w: seq<bv64>, t: nat, x: seq<bv64>, y: seq<bv64>, n: nat)
    requires IsSchedule(w) && Sixteen(w, t, x) && t + 32 <= 80 && |y| == 16 && n <= 16
    requires forall i :: 0 <= i < 16 ==> Follows(x, y, i)
    ensures forall i :: 0 <= i < n ==> w[t + 16 + i] == y[i]
  {
    if n > 0 {
      Next(w, t, x, y, n - 1);
      var i := n - 1;
      Lookup(w, t, x, y, i);
      Scheduled(w, t + 16 + i, if i < 2 then x[14 + i] else y[i - 2], if i < 7 then x[9 + i] else y[i - 7],
                if i < 15 then x[1 + i] else y[0], x[i]);
      assert Follows(x, y, i);
    }
  }

  lemma Step(kk: Table, w: seq<bv64>, t: nat, s: Words, k: bv64, x: bv64, s': Words)
    requires |w| == 80 && t < 80 && Rounds(kk, w, t) == s && K(kk, t) == k && w[t] == x && Round(s, k, x) == s'
    ensures Rounds(kk, w, t + 1) == s'
  {
  }

  const W0: seq<bv64> := [
      0x61626380_00000000, 0, 0, 0, 0, 0, 0, 0,
      0, 0, 0, 0, 0, 0, 0, 0x00000000_00000018]
  const W1: seq<bv64> := [
      0x61626380_00000000, 0x00030000_000000c0, 0x0a9699a2_4c700003, 0x00000c00_60000603, 0x549ef626_39858996, 0x00c00033_00003c00, 0x1497007a_8a0e9dbc, 0x62e56500_cc0780f0,
      0x7760dd47_5a538797, 0xf1554b71_1c1c0003, 0xca2993a4_345d9ff2, 0x5e0e66b5_c783dd32, 0xe25a625d_00494b62, 0x9f44486f_b1e4fbd2, 0xb31b8c2b_06085f2f, 0x0e987660_934142f6]
  const W2: seq<bv64> := [
      0xa4af2cfd_09fbb924, 0xad289e2e_0bd53186, 0x3c74563a_a2f9673e, 0x6ccdcd14_cc14b53f, 0xc3f925b3_37f22bde, 0x5bcc77a7_5ad95b54, 0x3ec2257a_dca09a52, 0x28246960_001fc5eb,
      0x04e33a75_ce2be88a, 0x7d5314b3_c359e0e7, 0xaef7a285_ff251266, 0x0b847258_1deea04f, 0xb174e26e_ddc7b033, 0x5d63bae5_8ddd88de, 0x4c044007_b744ccbb, 0xe6a9aa4d_74dc7d43]
  const W3: seq<bv64> := [
      0xebeaf123_7248019c, 0x361e80b2_d00f3193, 0x2e983912_5df3b175, 0x33196292_93ad5363, 0x9cbc5d89_ac1b89d5, 0x275e23ff_eeca50b7, 0x3b80d680_bf69ef58, 0x0d069693_3945a125,
      0x7533eabc_b786ff00, 0xb89826ce_e6fbf0e5, 0x249b4fbc_ad623e9f, 0x4aea9df2_b02d6f1e, 0x2cc57475_a55e8d8f, 0xb2574ae9_38d8be89, 0xc1b35a57_b16d6aea, 0xcc4918b5_949206bb]
  const W4: seq<bv64> := [
      0x5099c3ad_d79f90ec, 0x5ea81d78_e7660bf1, 0xebee6267_405ac2a9, 0xb01f2192_6108a4ab, 0x786433dd_2fe65556, 0xc54a6eaa_24a0552c, 0xb3c8f153_0bdbaa9e, 0xbb8abfe5_6f469338,
      0xf63d4265_cc1c5a78, 0xbe8355ea_73129afb, 0x49e2db8e_bdcfbeb5, 0x82269d4a_883a3d99, 0xfdf53df3_011f362b, 0x464af567_1d71c12e, 0xe449b681_98ec611c, 0x92aeeed1_a7bcf7d2]

  lemma Expands0a(i: nat)
    requires i < 4
    ensures Follows(W0, W1, i)
  {
    match i
    case 0 => assert Add4(SmallSigma1(0), 0, SmallSigma0(0), 0x61626380_00000000) == 0x61626380_00000000;
    case 1 => assert Add4(SmallSigma1(0x00000000_00000018), 0, SmallSigma0(0), 0) == 0x00030000_000000c0;
    case 2 => assert Add4(SmallSigma1(0x61626380_00000000), 0, SmallSigma0(0), 0) == 0x0a9699a2_4c700003;
    case 3 => assert Add4(SmallSigma1(0x00030000_000000c0), 0, SmallSigma0(0), 0) == 0x00000c00_60000603;
  }

  lemma Expands0b(i: nat)
    requires 4 <= i < 8
    ensures Follows(W0, W1, i)
  {
    match i
    case 4 => assert Add4(SmallSigma1(0x0a9699a2_4c700003), 0, SmallSigma0(0), 0) == 0x549ef626_39858996;
    case 5 => assert Add4(SmallSigma1(0x00000c00_60000603), 0, SmallSigma0(0), 0) == 0x00c00033_00003c00;
    case 6 => assert Add4(SmallSigma1(0x549ef626_39858996), 0x00000000_00000018, SmallSigma0(0), 0) == 0x1497007a_8a0e9dbc;
    case 7 => assert Add4(SmallSigma1(0x00c00033_00003c00), 0x61626380_00000000, SmallSigma0(0), 0) == 0x62e56500_cc0780f0;
  }

  lemma Expands0c(i: nat)
    requires 8 <= i < 12
    ensures Follows(W0, W1, i)
  {
    match i
    case 8 => assert Add4(SmallSigma1(0x1497007a_8a0e9dbc), 0x00030000_000000c0, SmallSigma0(0), 0) == 0x7760dd47_5a538797;
    case 9 => assert Add4(SmallSigma1(0x62e56500_cc0780f0), 0x0a9699a2_4c700003, SmallSigma0(0), 0) == 0xf1554b71_1c1c0003;
    case 10 => assert Add4(SmallSigma1(0x7760dd47_5a538797), 0x00000c00_60000603, SmallSigma0(0), 0) == 0xca2993a4_345d9ff2;
    case 11 => assert Add4(SmallSigma1(0xf1554b71_1c1c0003), 0x549ef626_39858996, SmallSigma0(0), 0) == 0x5e0e66b5_c783dd32;
  }

  lemma Expands0d(i: nat)
    requires 12 <= i < 16
    ensures Follows(W0, W1, i)
  {
    match i
    case 12 => assert Add4(SmallSigma1(0xca2993a4_345d9ff2), 0x00c00033_00003c00, SmallSigma0(0), 0) == 0xe25a625d_00494b62;
    case 13 => assert Add4(SmallSigma1(0x5e0e66b5_c783dd32), 0x1497007a_8a0e9dbc, SmallSigma0(0), 0) == 0x9f44486f_b1e4fbd2;
    case 14 => assert Add4(SmallSigma1(0xe25a625d_00494b62), 0x62e56500_cc0780f0, SmallSigma0(0x00000000_00000018), 0) == 0xb31b8c2b_06085f2f;
    case 15 => assert Add4(SmallSigma1(0x9f44486f_b1e4fbd2), 0x7760dd47_5a538797, SmallSigma0(0x61626380_00000000), 0x00000000_00000018) == 0x0e987660_934142f6;
  }

  lemma Expands1a(i: nat)
    requires i < 4
    ensures Follows(W1, W2, i)
  {
    match i
    case 0 => assert Add4(SmallSigma1(0xb31b8c2b_06085f2f), 0xf1554b71_1c1c0003, SmallSigma0(0x00030000_000000c0), 0x61626380_00000000) == 0xa4af2cfd_09fbb924;
    case 1 => assert Add4(SmallSigma1(0x0e987660_934142f6), 0xca2993a4_345d9ff2, SmallSigma0(0x0a9699a2_4c700003), 0x00030000_000000c0) == 0xad289e2e_0bd53186;
    case 2 => assert Add4(SmallSigma1(0xa4af2cfd_09fbb924), 0x5e0e66b5_c783dd32, SmallSigma0(0x00000c00_60000603), 0x0a9699a2_4c700003) == 0x3c74563a_a2f9673e;
    case 3 => assert Add4(SmallSigma1(0xad289e2e_0bd53186), 0xe25a625d_00494b62, SmallSigma0(0x549ef626_39858996), 0x00000c00_60000603) == 0x6ccdcd14_cc14b53f;
  }

  lemma Expands1b(i: nat)
    requires 4 <= i < 8
    ensures Follows(W1, W2, i)
  {
    match i
    case 4 => assert Add4(SmallSigma1(0x3c74563a_a2f9673e), 0x9f44486f_b1e4fbd2, SmallSigma0(0x00c00033_00003c00), 0x549ef626_39858996) == 0xc3f925b3_37f22bde;
    case 5 => assert Add4(SmallSigma1(0x6ccdcd14_cc14b53f), 0xb31b8c2b_06085f2f, SmallSigma0(0x1497007a_8a0e9dbc), 0x00c00033_00003c00) == 0x5bcc77a7_5ad95b54;
    case 6 => assert Add4(SmallSigma1(0xc3f925b3_37f22bde), 0x0e987660_934142f6, SmallSigma0(0x62e56500_cc0780f0), 0x1497007a_8a0e9dbc) == 0x3ec2257a_dca09a52;
    case 7 => assert Add4(SmallSigma1(0x5bcc77a7_5ad95b54), 0xa4af2cfd_09fbb924, SmallSigma0(0x7760dd47_5a538797), 0x62e56500_cc0780f0) == 0x28246960_001fc5eb;
  }

  lemma Expands1c(i: nat)
    requires 8 <= i < 12
    ensures Follows(W1, W2, i)
  {
    match i
    case 8 => assert Add4(SmallSigma1(0x3ec2257a_dca09a52), 0xad289e2e_0bd53186, SmallSigma0(0xf1554b71_1c1c0003), 0x7760dd47_5a538797) == 0x04e33a75_ce2be88a;
    case 9 => assert Add4(SmallSigma1(0x28246960_001fc5eb), 0x3c74563a_a2f9673e, SmallSigma0(0xca2993a4_345d9ff2), 0xf1554b71_1c1c0003) == 0x7d5314b3_c359e0e7;
    case 10 => assert Add4(SmallSigma1(0x04e33a75_ce2be88a), 0x6ccdcd14_cc14b53f, SmallSigma0(0x5e0e66b5_c783dd32), 0xca2993a4_345d9ff2) == 0xaef7a285_ff251266;
    case 11 => assert Add4(SmallSigma1(0x7d5314b3_c359e0e7), 0xc3f925b3_37f22bde, SmallSigma0(0xe25a625d_00494b62), 0x5e0e66b5_c783dd32) == 0x0b847258_1deea04f;
  }

  lemma Expands1d(i: nat)
    requires 12 <= i < 16
    ensures Follows(W1, W2, i)
  {
    match i
    case 12 => assert Add4(SmallSigma1(0xaef7a285_ff251266), 0x5bcc77a7_5ad95b54, SmallSigma0(0x9f44486f_b1e4fbd2), 0xe25a625d_00494b62) == 0xb174e26e_ddc7b033;
    case 13 => assert Add4(SmallSigma1(0x0b847258_1deea04f), 0x3ec2257a_dca09a52, SmallSigma0(0xb31b8c2b_06085f2f), 0x9f44486f_b1e4fbd2) == 0x5d63bae5_8ddd88de;
    case 14 => assert Add4(SmallSigma1(0xb174e26e_ddc7b033), 0x28246960_001fc5eb, SmallSigma0(0x0e987660_934142f6), 0xb31b8c2b_06085f2f) == 0x4c044007_b744ccbb;
    case 15 => assert Add4(SmallSigma1(0x5d63bae5_8ddd88de), 0x04e33a75_ce2be88a, SmallSigma0(0xa4af2cfd_09fbb924), 0x0e987660_934142f6) == 0xe6a9aa4d_74dc7d43;
  }

  lemma Expands2a(i: nat)
    requires i < 4
    ensures Follows(W2, W3, i)
  {
    match i
    case 0 => assert Add4(SmallSigma1(0x4c044007_b744ccbb), 0x7d5314b3_c359e0e7, SmallSigma0(0xad289e2e_0bd53186), 0xa4af2cfd_09fbb924) == 0xebeaf123_7248019c;
    case 1 => assert Add4(SmallSigma1(0xe6a9aa4d_74dc7d43), 0xaef7a285_ff251266, SmallSigma0(0x3c74563a_a2f9673e), 0xad289e2e_0bd53186) == 0x361e80b2_d00f3193;
    case 2 => assert Add4(SmallSigma1(0xebeaf123_7248019c), 0x0b847258_1deea04f, SmallSigma0(0x6ccdcd14_cc14b53f), 0x3c74563a_a2f9673e) == 0x2e983912_5df3b175;
    case 3 => assert Add4(SmallSigma1(0x361e80b2_d00f3193), 0xb174e26e_ddc7b033, SmallSigma0(0xc3f925b3_37f22bde), 0x6ccdcd14_cc14b53f) == 0x33196292_93ad5363;
  }

  lemma Expands2b(i: nat)
    requires 4 <= i < 8
    ensures Follows(W2, W3, i)
  {
    match i
    case 4 => assert Add4(SmallSigma1(0x2e983912_5df3b175), 0x5d63bae5_8ddd88de, SmallSigma0(0x5bcc77a7_5ad95b54), 0xc3f925b3_37f22bde) == 0x9cbc5d89_ac1b89d5;
    case 5 => assert Add4(SmallSigma1(0x33196292_93ad5363), 0x4c044007_b744ccbb, SmallSigma0(0x3ec2257a_dca09a52), 0x5bcc77a7_5ad95b54) == 0x275e23ff_eeca50b7;
    case 6 => assert Add4(SmallSigma1(0x9cbc5d89_ac1b89d5), 0xe6a9aa4d_74dc7d43, SmallSigma0(0x28246960_001fc5eb), 0x3ec2257a_dca09a52) == 0x3b80d680_bf69ef58;
    case 7 => assert Add4(SmallSigma1(0x275e23ff_eeca50b7), 0xebeaf123_7248019c, SmallSigma0(0x04e33a75_ce2be88a), 0x28246960_001fc5eb) == 0x0d069693_3945a125;
  }

  lemma Expands2c(i: nat)
    requires 8 <= i < 12
    ensures Follows(W2, W3, i)
  {
    match i
    case 8 => assert Add4(SmallSigma1(0x3b80d680_bf69ef58), 0x361e80b2_d00f3193, SmallSigma0(0x7d5314b3_c359e0e7), 0x04e33a75_ce2be88a) == 0x7533eabc_b786ff00;
    case 9 => assert Add4(SmallSigma1(0x0d069693_3945a125), 0x2e983912_5df3b175, SmallSigma0(0xaef7a285_ff251266), 0x7d5314b3_c359e0e7) == 0xb89826ce_e6fbf0e5;
    case 10 => assert Add4(SmallSigma1(0x7533eabc_b786ff00), 0x33196292_93ad5363, SmallSigma0(0x0b847258_1deea04f), 0xaef7a285_ff251266) == 0x249b4fbc_ad623e9f;
    case 11 => assert Add4(SmallSigma1(0xb89826ce_e6fbf0e5), 0x9cbc5d89_ac1b89d5, SmallSigma0(0xb174e26e_ddc7b033), 0x0b847258_1deea04f) == 0x4aea9df2_b02d6f1e;
  }

  lemma Expands2d(i: nat)
    requires 12 <= i < 16
    ensures Follows(W2, W3, i)
  {
    match i
    case 12 => assert Add4(SmallSigma1(0x249b4fbc_ad623e9f), 0x275e23ff_eeca50b7, SmallSigma0(0x5d63bae5_8ddd88de), 0xb174e26e_ddc7b033) == 0x2cc57475_a55e8d8f;
    case 13 => assert Add4(SmallSigma1(0x4aea9df2_b02d6f1e), 0x3b80d680_bf69ef58, SmallSigma0(0x4c044007_b744ccbb), 0x5d63bae5_8ddd88de) == 0xb2574ae9_38d8be89;
    case 14 => assert Add4(SmallSigma1(0x2cc57475_a55e8d8f), 0x0d069693_3945a125, SmallSigma0(0xe6a9aa4d_74dc7d43), 0x4c044007_b744ccbb) == 0xc1b35a57_b16d6aea;
    case 15 => assert Add4(SmallSigma1(0xb2574ae9_38d8be89), 0x7533eabc_b786ff00, SmallSigma0(0xebeaf123_7248019c), 0xe6a9aa4d_74dc7d43) == 0xcc4918b5_949206bb;
  }

  lemma Expands3a(i: nat)
    requires i < 4
    ensures Follows(W3, W4, i)
  {
    match i
    case 0 => assert Add4(SmallSigma1(0xc1b35a57_b16d6aea), 0xb89826ce_e6fbf0e5, SmallSigma0(0x361e80b2_d00f3193), 0xebeaf123_7248019c) == 0x5099c3ad_d79f90ec;
    case 1 => assert Add4(SmallSigma1(0xcc4918b5_949206bb), 0x249b4fbc_ad623e9f, SmallSigma0(0x2e983912_5df3b175), 0x361e80b2_d00f3193) == 0x5ea81d78_e7660bf1;
    case 2 => assert Add4(SmallSigma1(0x5099c3ad_d79f90ec), 0x4aea9df2_b02d6f1e, SmallSigma0(0x33196292_93ad5363), 0x2e983912_5df3b175) == 0xebee6267_405ac2a9;
    case 3 => assert Add4(SmallSigma1(0x5ea81d78_e7660bf1), 0x2cc57475_a55e8d8f, SmallSigma0(0x9cbc5d89_ac1b89d5), 0x33196292_93ad5363) == 0xb01f2192_6108a4ab;
  }

  lemma Expands3b(i: nat)
    requires 4 <= i < 8
    ensures Follows(W3, W4, i)
  {
    match i
    case 4 => assert Add4(SmallSigma1(0xebee6267_405ac2a9), 0xb2574ae9_38d8be89, SmallSigma0(0x275e23ff_eeca50b7), 0x9cbc5d89_ac1b89d5) == 0x786433dd_2fe65556;
    case 5 => assert Add4(SmallSigma1(0xb01f2192_6108a4ab), 0xc1b35a57_b16d6aea, SmallSigma0(0x3b80d680_bf69ef58), 0x275e23ff_eeca50b7) == 0xc54a6eaa_24a0552c;
    case 6 => assert Add4(SmallSigma1(0x786433dd_2fe65556), 0xcc4918b5_949206bb, SmallSigma0(0x0d069693_3945a125), 0x3b80d680_bf69ef58) == 0xb3c8f153_0bdbaa9e;
    case 7 => assert Add4(SmallSigma1(0xc54a6eaa_24a0552c), 0x5099c3ad_d79f90ec, SmallSigma0(0x7533eabc_b786ff00), 0x0d069693_3945a125) == 0xbb8abfe5_6f469338;
  }

  lemma Expands3c(i: nat)
    requires 8 <= i < 12
    ensures Follows(W3, W4, i)
  {
    match i
    case 8 => assert Add4(SmallSigma1(0xb3c8f153_0bdbaa9e), 0x5ea81d78_e7660bf1, SmallSigma0(0xb89826ce_e6fbf0e5), 0x7533eabc_b786ff00) == 0xf63d4265_cc1c5a78;
    case 9 => assert Add4(SmallSigma1(0xbb8abfe5_6f469338), 0xebee6267_405ac2a9, SmallSigma0(0x249b4fbc_ad623e9f), 0xb89826ce_e6fbf0e5) == 0xbe8355ea_73129afb;
    case 10 => assert Add4(SmallSigma1(0xf63d4265_cc1c5a78), 0xb01f2192_6108a4ab, SmallSigma0(0x4aea9df2_b02d6f1e), 0x249b4fbc_ad623e9f) == 0x49e2db8e_bdcfbeb5;
    case 11 => assert Add4(SmallSigma1(0xbe8355ea_73129afb), 0x786433dd_2fe65556, SmallSigma0(0x2cc57475_a55e8d8f), 0x4aea9df2_b02d6f1e) == 0x82269d4a_883a3d99;
  }

  lemma Expands3d(i: nat)
    requires 12 <= i < 16
    ensures Follows(W3, W4, i)
  {
    match i
    case 12 => assert Add4(SmallSigma1(0x49e2db8e_bdcfbeb5), 0xc54a6eaa_24a0552c, SmallSigma0(0xb2574ae9_38d8be89), 0x2cc57475_a55e8d8f) == 0xfdf53df3_011f362b;
    case 13 => assert Add4(SmallSigma1(0x82269d4a_883a3d99), 0xb3c8f153_0bdbaa9e, SmallSigma0(0xc1b35a57_b16d6aea), 0xb2574ae9_38d8be89) == 0x464af567_1d71c12e;
    case 14 => assert Add4(SmallSigma1(0xfdf53df3_011f362b), 0xbb8abfe5_6f469338, SmallSigma0(0xcc4918b5_949206bb), 0xc1b35a57_b16d6aea) == 0xe449b681_98ec611c;
    case 15 => assert Add4(SmallSigma1(0x464af567_1d71c12e), 0xf63d4265_cc1c5a78, SmallSigma0(0x5099c3ad_d79f90ec), 0xcc4918b5_949206bb) == 0x92aeeed1_a7bcf7d2;
  }

  // ----- five rounds at a time -----

  /** The constants and the schedule words of rounds `t` to `t + 4`. */
  ghost predicate Feeds(kk: Table, w: seq<bv64>, t: nat, k0: bv64, x0: bv64, k1: bv64, x1: bv64, k2: bv64, x2: bv64,
                        k3: bv64, x3: bv64, k4: bv64, x4: bv64) {
    && |w| == 80 && t + 5 <= 80
    && K(kk, t) == k0 && w[t] == x0 && K(kk, t + 1) == k1 && w[t + 1] == x1 && K(kk, t + 2) == k2 && w[t + 2] == x2
    && K(kk, t + 3) == k3 && w[t + 3] == x3 && K(kk, t + 4) == k4 && w[t + 4] == x4
  }

  lemma Rounds0(kk: Table, w: seq<bv64>, t: nat)
    requires Feeds(kk, w, t, 0x428a2f98_d728ae22, 0x61626380_00000000, 0x71374491_23ef65cd, 0, 0xb5c0fbcf_ec4d3b2f, 0, 0xe9b5dba5_8189dbbc, 0, 0x3956c25b_f348b538, 0)
    requires Rounds(kk, w, t) == Words(0x6a09e667_f3bcc908, 0xbb67ae85_84caa73b, 0x3c6ef372_fe94f82b, 0xa54ff53a_5f1d36f1, 0x510e527f_ade682d1, 0x9b05688c_2b3e6c1f, 0x1f83d9ab_fb41bd6b, 0x5be0cd19_137e2179)
    ensures Rounds(kk, w, t + 5) == Words(0xb6809539_51604860, 0x5a83cb3e_80050e82, 0xebcffc07_203d91f3, 0x1320f8c9_fb872cc0, 0x745aca4a_342ed2e2, 0x0b47b4bb_1928990e, 0xdfa9b239_f2697812, 0xc3d4ebfd_48650ffa)
  {
    Step(kk, w, t, Words(0x6a09e667_f3bcc908, 0xbb67ae85_84caa73b, 0x3c6ef372_fe94f82b, 0xa54ff53a_5f1d36f1, 0x510e527f_ade682d1, 0x9b05688c_2b3e6c1f, 0x1f83d9ab_fb41bd6b, 0x5be0cd19_137e2179),
         0x428a2f98_d728ae22, 0x61626380_00000000, Words(0xf6afceb8_bcfcddf5, 0x6a09e667_f3bcc908, 0xbb67ae85_84caa73b, 0x3c6ef372_fe94f82b, 0x58cb0234_7ab51f91, 0x510e527f_ade682d1, 0x9b05688c_2b3e6c1f, 0x1f83d9ab_fb41bd6b));
    Step(kk, w, t + 1, Words(0xf6afceb8_bcfcddf5, 0x6a09e667_f3bcc908, 0xbb67ae85_84caa73b, 0x3c6ef372_fe94f82b, 0x58cb0234_7ab51f91, 0x510e527f_ade682d1, 0x9b05688c_2b3e6c1f, 0x1f83d9ab_fb41bd6b),
         0x71374491_23ef65cd, 0, Words(0x1320f8c9_fb872cc0, 0xf6afceb8_bcfcddf5, 0x6a09e667_f3bcc908, 0xbb67ae85_84caa73b, 0xc3d4ebfd_48650ffa, 0x58cb0234_7ab51f91, 0x510e527f_ade682d1, 0x9b05688c_2b3e6c1f));
    Step(kk, w, t + 2, Words(0x1320f8c9_fb872cc0, 0xf6afceb8_bcfcddf5, 0x6a09e667_f3bcc908, 0xbb67ae85_84caa73b, 0xc3d4ebfd_48650ffa, 0x58cb0234_7ab51f91, 0x510e527f_ade682d1, 0x9b05688c_2b3e6c1f),
         0xb5c0fbcf_ec4d3b2f, 0, Words(0xebcffc07_203d91f3, 0x1320f8c9_fb872cc0, 0xf6afceb8_bcfcddf5, 0x6a09e667_f3bcc908, 0xdfa9b239_f2697812, 0xc3d4ebfd_48650ffa, 0x58cb0234_7ab51f91, 0x510e527f_ade682d1));
    Step(kk, w, t + 3, Words(0xebcffc07_203d91f3, 0x1320f8c9_fb872cc0, 0xf6afceb8_bcfcddf5, 0x6a09e667_f3bcc908, 0xdfa9b239_f2697812, 0xc3d4ebfd_48650ffa, 0x58cb0234_7ab51f91, 0x510e527f_ade682d1),
         0xe9b5dba5_8189dbbc, 0, Words(0x5a83cb3e_80050e82, 0xebcffc07_203d91f3, 0x1320f8c9_fb872cc0, 0xf6afceb8_bcfcddf5, 0x0b47b4bb_1928990e, 0xdfa9b239_f2697812, 0xc3d4ebfd_48650ffa, 0x58cb0234_7ab51f91));
    Step(kk, w, t + 4, Words(0x5a83cb3e_80050e82, 0xebcffc07_203d91f3, 0x1320f8c9_fb872cc0, 0xf6afceb8_bcfcddf5, 0x0b47b4bb_1928990e, 0xdfa9b239_f2697812, 0xc3d4ebfd_48650ffa, 0x58cb0234_7ab51f91),
         0x3956c25b_f348b538, 0, Words(0xb6809539_51604860, 0x5a83cb3e_80050e82, 0xebcffc07_203d91f3, 0x1320f8c9_fb872cc0, 0x745aca4a_342ed2e2, 0x0b47b4bb_1928990e, 0xdfa9b239_f2697812, 0xc3d4ebfd_48650ffa));
  }

  lemma Rounds5(kk: Table, w: seq<bv64>, t: nat)
    requires Feeds(kk, w, t, 0x59f111f1_b605d019, 0, 0x923f82a4_af194f9b, 0, 0xab1c5ed5_da6d8118, 0, 0xd807aa98_a3030242, 0, 0x12835b01_45706fbe, 0)
    requires Rounds(kk, w, t) == Words(0xb6809539_51604860, 0x5a83cb3e_80050e82, 0xebcffc07_203d91f3, 0x1320f8c9_fb872cc0, 0x745aca4a_342ed2e2, 0x0b47b4bb_1928990e, 0xdfa9b239_f2697812, 0xc3d4ebfd_48650ffa)
    ensures Rounds(kk, w, t + 5) == Words(0x81782d4a_5db48f03, 0xf1eca554_4cb89225, 0x8093d195_e0054fa3, 0xc4875b0c_7abc076b, 0x00091f46_0be46c52, 0xd0403c39_8fc40002, 0x86f67263_a0f0ec0a, 0x5a6c781f_54dcc00c)
  {
    Step(kk, w, t, Words(0xb6809539_51604860, 0x5a83cb3e_80050e82, 0xebcffc07_203d91f3, 0x1320f8c9_fb872cc0, 0x745aca4a_342ed2e2, 0x0b47b4bb_1928990e, 0xdfa9b239_f2697812, 0xc3d4ebfd_48650ffa),
         0x59f111f1_b605d019, 0, Words(0xaf573b02_403e89cd, 0xb6809539_51604860, 0x5a83cb3e_80050e82, 0xebcffc07_203d91f3, 0x96f60209_b6dc35ba, 0x745aca4a_342ed2e2, 0x0b47b4bb_1928990e, 0xdfa9b239_f2697812));
    Step(kk, w, t + 1, Words(0xaf573b02_403e89cd, 0xb6809539_51604860, 0x5a83cb3e_80050e82, 0xebcffc07_203d91f3, 0x96f60209_b6dc35ba, 0x745aca4a_342ed2e2, 0x0b47b4bb_1928990e, 0xdfa9b239_f2697812),
         0x923f82a4_af194f9b, 0, Words(0xc4875b0c_7abc076b, 0xaf573b02_403e89cd, 0xb6809539_51604860, 0x5a83cb3e_80050e82, 0x5a6c781f_54dcc00c, 0x96f60209_b6dc35ba, 0x745aca4a_342ed2e2, 0x0b47b4bb_1928990e));
    Step(kk, w, t + 2, Words(0xc4875b0c_7abc076b, 0xaf573b02_403e89cd, 0xb6809539_51604860, 0x5a83cb3e_80050e82, 0x5a6c781f_54dcc00c, 0x96f60209_b6dc35ba, 0x745aca4a_342ed2e2, 0x0b47b4bb_1928990e),
         0xab1c5ed5_da6d8118, 0, Words(0x8093d195_e0054fa3, 0xc4875b0c_7abc076b, 0xaf573b02_403e89cd, 0xb6809539_51604860, 0x86f67263_a0f0ec0a, 0x5a6c781f_54dcc00c, 0x96f60209_b6dc35ba, 0x745aca4a_342ed2e2));
    Step(kk, w, t + 3, Words(0x8093d195_e0054fa3, 0xc4875b0c_7abc076b, 0xaf573b02_403e89cd, 0xb6809539_51604860, 0x86f67263_a0f0ec0a, 0x5a6c781f_54dcc00c, 0x96f60209_b6dc35ba, 0x745aca4a_342ed2e2),
         0xd807aa98_a3030242, 0, Words(0xf1eca554_4cb89225, 0x8093d195_e0054fa3, 0xc4875b0c_7abc076b, 0xaf573b02_403e89cd, 0xd0403c39_8fc40002, 0x86f67263_a0f0ec0a, 0x5a6c781f_54dcc00c, 0x96f60209_b6dc35ba));
    Step(kk, w, t + 4, Words(0xf1eca554_4cb89225, 0x8093d195_e0054fa3, 0xc4875b0c_7abc076b, 0xaf573b02_403e89cd, 0xd0403c39_8fc40002, 0x86f67263_a0f0ec0a, 0x5a6c781f_54dcc00c, 0x96f60209_b6dc35ba),
         0x12835b01_45706fbe, 0, Words(0x81782d4a_5db48f03, 0xf1eca554_4cb89225, 0x8093d195_e0054fa3, 0xc4875b0c_7abc076b, 0x00091f46_0be46c52, 0xd0403c39_8fc40002, 0x86f67263_a0f0ec0a, 0x5a6c781f_54dcc00c));
  }

  lemma Rounds10(kk: Table, w: seq<bv64>, t: nat)
    requires Feeds(kk, w, t, 0x243185be_4ee4b28c, 0, 0x550c7dc3_d5ffb4e2, 0, 0x72be5d74_f27b896f, 0, 0x80deb1fe_3b1696b1, 0, 0x9bdc06a7_25c71235, 0)
    requires Rounds(kk, w, t) == Words(0x81782d4a_5db48f03, 0xf1eca554_4cb89225, 0x8093d195_e0054fa3, 0xc4875b0c_7abc076b, 0x00091f46_0be46c52, 0xd0403c39_8fc40002, 0x86f67263_a0f0ec0a, 0x5a6c781f_54dcc00c)
    ensures Rounds(kk, w, t + 5) == Words(0xfa967eed_85a08028, 0x44249631_255d2ca0, 0x5e412143_88186c14, 0xdb0a9963_f80c2eaa, 0x874bfe5f_6aae9f2f, 0x860acf9e_ffba6f61, 0xcdf3bff2_883fc9d9, 0x475975b9_1a7a462c)
  {
    Step(kk, w, t, Words(0x81782d4a_5db48f03, 0xf1eca554_4cb89225, 0x8093d195_e0054fa3, 0xc4875b0c_7abc076b, 0x00091f46_0be46c52, 0xd0403c39_8fc40002, 0x86f67263_a0f0ec0a, 0x5a6c781f_54dcc00c),
         0x243185be_4ee4b28c, 0, Words(0x69854c4a_a0f25b59, 0x81782d4a_5db48f03, 0xf1eca554_4cb89225, 0x8093d195_e0054fa3, 0xd375471b_de1ba3f4, 0x00091f46_0be46c52, 0xd0403c39_8fc40002, 0x86f67263_a0f0ec0a));
    Step(kk, w, t + 1, Words(0x69854c4a_a0f25b59, 0x81782d4a_5db48f03, 0xf1eca554_4cb89225, 0x8093d195_e0054fa3, 0xd375471b_de1ba3f4, 0x00091f46_0be46c52, 0xd0403c39_8fc40002, 0x86f67263_a0f0ec0a),
         0x550c7dc3_d5ffb4e2, 0, Words(0xdb0a9963_f80c2eaa, 0x69854c4a_a0f25b59, 0x81782d4a_5db48f03, 0xf1eca554_4cb89225, 0x475975b9_1a7a462c, 0xd375471b_de1ba3f4, 0x00091f46_0be46c52, 0xd0403c39_8fc40002));
    Step(kk, w, t + 2, Words(0xdb0a9963_f80c2eaa, 0x69854c4a_a0f25b59, 0x81782d4a_5db48f03, 0xf1eca554_4cb89225, 0x475975b9_1a7a462c, 0xd375471b_de1ba3f4, 0x00091f46_0be46c52, 0xd0403c39_8fc40002),
         0x72be5d74_f27b896f, 0, Words(0x5e412143_88186c14, 0xdb0a9963_f80c2eaa, 0x69854c4a_a0f25b59, 0x81782d4a_5db48f03, 0xcdf3bff2_883fc9d9, 0x475975b9_1a7a462c, 0xd375471b_de1ba3f4, 0x00091f46_0be46c52));
    Step(kk, w, t + 3, Words(0x5e412143_88186c14, 0xdb0a9963_f80c2eaa, 0x69854c4a_a0f25b59, 0x81782d4a_5db48f03, 0xcdf3bff2_883fc9d9, 0x475975b9_1a7a462c, 0xd375471b_de1ba3f4, 0x00091f46_0be46c52),
         0x80deb1fe_3b1696b1, 0, Words(0x44249631_255d2ca0, 0x5e412143_88186c14, 0xdb0a9963_f80c2eaa, 0x69854c4a_a0f25b59, 0x860acf9e_ffba6f61, 0xcdf3bff2_883fc9d9, 0x475975b9_1a7a462c, 0xd375471b_de1ba3f4));
    Step(kk, w, t + 4, Words(0x44249631_255d2ca0, 0x5e412143_88186c14, 0xdb0a9963_f80c2eaa, 0x69854c4a_a0f25b59, 0x860acf9e_ffba6f61, 0xcdf3bff2_883fc9d9, 0x475975b9_1a7a462c, 0xd375471b_de1ba3f4),
         0x9bdc06a7_25c71235, 0, Words(0xfa967eed_85a08028, 0x44249631_255d2ca0, 0x5e412143_88186c14, 0xdb0a9963_f80c2eaa, 0x874bfe5f_6aae9f2f, 0x860acf9e_ffba6f61, 0xcdf3bff2_883fc9d9, 0x475975b9_1a7a462c));
  }

  lemma Rounds15(kk: Table, w: seq<bv64>, t: nat)
    requires Feeds(kk, w, t, 0xc19bf174_cf692694, 0x00000000_00000018, 0xe49b69c1_9ef14ad2, 0x61626380_00000000, 0xefbe4786_384f25e3, 0x00030000_000000c0, 0x0fc19dc6_8b8cd5b5, 0x0a9699a2_4c700003, 0x240ca1cc_77ac9c65, 0x00000c00_60000603)
    requires Rounds(kk, w, t) == Words(0xfa967eed_85a08028, 0x44249631_255d2ca0, 0x5e412143_88186c14, 0xdb0a9963_f80c2eaa, 0x874bfe5f_6aae9f2f, 0x860acf9e_ffba6f61, 0xcdf3bff2_883fc9d9, 0x475975b9_1a7a462c)
    ensures Rounds(kk, w, t + 5) == Words(0x9a3fb4d3_8ab6cf06, 0x3c4b4104_168e3edb, 0x4725be24_9ad19e6b, 0xcaf81a42_5d800537, 0xf14998dd_5f70767e, 0x29695fd8_8d81dbd0, 0xf47e8353_f8047455, 0x2deecc6b_39d64d78)
  {
    Step(kk, w, t, Words(0xfa967eed_85a08028, 0x44249631_255d2ca0, 0x5e412143_88186c14, 0xdb0a9963_f80c2eaa, 0x874bfe5f_6aae9f2f, 0x860acf9e_ffba6f61, 0xcdf3bff2_883fc9d9, 0x475975b9_1a7a462c),
         0xc19bf174_cf692694, 0x00000000_00000018, Words(0x0ae07c86_b1181c75, 0xfa967eed_85a08028, 0x44249631_255d2ca0, 0x5e412143_88186c14, 0xa77b7c03_5dd4c161, 0x874bfe5f_6aae9f2f, 0x860acf9e_ffba6f61, 0xcdf3bff2_883fc9d9));
    Step(kk, w, t + 1, Words(0x0ae07c86_b1181c75, 0xfa967eed_85a08028, 0x44249631_255d2ca0, 0x5e412143_88186c14, 0xa77b7c03_5dd4c161, 0x874bfe5f_6aae9f2f, 0x860acf9e_ffba6f61, 0xcdf3bff2_883fc9d9),
         0xe49b69c1_9ef14ad2, 0x61626380_00000000, Words(0xcaf81a42_5d800537, 0x0ae07c86_b1181c75, 0xfa967eed_85a08028, 0x44249631_255d2ca0, 0x2deecc6b_39d64d78, 0xa77b7c03_5dd4c161, 0x874bfe5f_6aae9f2f, 0x860acf9e_ffba6f61));
    Step(kk, w, t + 2, Words(0xcaf81a42_5d800537, 0x0ae07c86_b1181c75, 0xfa967eed_85a08028, 0x44249631_255d2ca0, 0x2deecc6b_39d64d78, 0xa77b7c03_5dd4c161, 0x874bfe5f_6aae9f2f, 0x860acf9e_ffba6f61),
         0xefbe4786_384f25e3, 0x00030000_000000c0, Words(0x4725be24_9ad19e6b, 0xcaf81a42_5d800537, 0x0ae07c86_b1181c75, 0xfa967eed_85a08028, 0xf47e8353_f8047455, 0x2deecc6b_39d64d78, 0xa77b7c03_5dd4c161, 0x874bfe5f_6aae9f2f));
    Step(kk, w, t + 3, Words(0x4725be24_9ad19e6b, 0xcaf81a42_5d800537, 0x0ae07c86_b1181c75, 0xfa967eed_85a08028, 0xf47e8353_f8047455, 0x2deecc6b_39d64d78, 0xa77b7c03_5dd4c161, 0x874bfe5f_6aae9f2f),
         0x0fc19dc6_8b8cd5b5, 0x0a9699a2_4c700003, Words(0x3c4b4104_168e3edb, 0x4725be24_9ad19e6b, 0xcaf81a42_5d800537, 0x0ae07c86_b1181c75, 0x29695fd8_8d81dbd0, 0xf47e8353_f8047455, 0x2deecc6b_39d64d78, 0xa77b7c03_5dd4c161));
    Step(kk, w, t + 4, Words(0x3c4b4104_168e3edb, 0x4725be24_9ad19e6b, 0xcaf81a42_5d800537, 0x0ae07c86_b1181c75, 0x29695fd8_8d81dbd0, 0xf47e8353_f8047455, 0x2deecc6b_39d64d78, 0xa77b7c03_5dd4c161),
         0x240ca1cc_77ac9c65, 0x00000c00_60000603, Words(0x9a3fb4d3_8ab6cf06, 0x3c4b4104_168e3edb, 0x4725be24_9ad19e6b, 0xcaf81a42_5d800537, 0xf14998dd_5f70767e, 0x29695fd8_8d81dbd0, 0xf47e8353_f8047455, 0x2deecc6b_39d64d78));
  }

  lemma Rounds20(kk: Table, w: seq<bv64>, t: nat)
    requires Feeds(kk, w, t, 0x2de92c6f_592b0275, 0x549ef626_39858996, 0x4a7484aa_6ea6e483, 0x00c00033_00003c00, 0x5cb0a9dc_bd41fbd4, 0x1497007a_8a0e9dbc, 0x76f988da_831153b5, 0x62e56500_cc0780f0, 0x983e5152_ee66dfab, 0x7760dd47_5a538797)
    requires Rounds(kk, w, t) == Words(0x9a3fb4d3_8ab6cf06, 0x3c4b4104_168e3edb, 0x4725be24_9ad19e6b, 0xcaf81a42_5d800537, 0xf14998dd_5f70767e, 0x29695fd8_8d81dbd0, 0xf47e8353_f8047455, 0x2deecc6b_39d64d78)
    ensures Rounds(kk, w, t + 5) == Words(0x9aff7116_3fa3a940, 0x4f6877b5_8fe55484, 0x3e264456_7b709a78, 0xda34d667_3d452dcf, 0xd3ecf137_69180e6f, 0xc66005f8_7db55233, 0x0ac2b11d_a8f571c6, 0x8e30ff09_ad488753)
  {
    Step(kk, w, t, Words(0x9a3fb4d3_8ab6cf06, 0x3c4b4104_168e3edb, 0x4725be24_9ad19e6b, 0xcaf81a42_5d800537, 0xf14998dd_5f70767e, 0x29695fd8_8d81dbd0, 0xf47e8353_f8047455, 0x2deecc6b_39d64d78),
         0x2de92c6f_592b0275, 0x549ef626_39858996, Words(0x8dc5ae65_569d3855, 0x9a3fb4d3_8ab6cf06, 0x3c4b4104_168e3edb, 0x4725be24_9ad19e6b, 0x4bb9e66d_1145bfdc, 0xf14998dd_5f70767e, 0x29695fd8_8d81dbd0, 0xf47e8353_f8047455));
    Step(kk, w, t + 1, Words(0x8dc5ae65_569d3855, 0x9a3fb4d3_8ab6cf06, 0x3c4b4104_168e3edb, 0x4725be24_9ad19e6b, 0x4bb9e66d_1145bfdc, 0xf14998dd_5f70767e, 0x29695fd8_8d81dbd0, 0xf47e8353_f8047455),
         0x4a7484aa_6ea6e483, 0x00c00033_00003c00, Words(0xda34d667_3d452dcf, 0x8dc5ae65_569d3855, 0x9a3fb4d3_8ab6cf06, 0x3c4b4104_168e3edb, 0x8e30ff09_ad488753, 0x4bb9e66d_1145bfdc, 0xf14998dd_5f70767e, 0x29695fd8_8d81dbd0));
    Step(kk, w, t + 2, Words(0xda34d667_3d452dcf, 0x8dc5ae65_569d3855, 0x9a3fb4d3_8ab6cf06, 0x3c4b4104_168e3edb, 0x8e30ff09_ad488753, 0x4bb9e66d_1145bfdc, 0xf14998dd_5f70767e, 0x29695fd8_8d81dbd0),
         0x5cb0a9dc_bd41fbd4, 0x1497007a_8a0e9dbc, Words(0x3e264456_7b709a78, 0xda34d667_3d452dcf, 0x8dc5ae65_569d3855, 0x9a3fb4d3_8ab6cf06, 0x0ac2b11d_a8f571c6, 0x8e30ff09_ad488753, 0x4bb9e66d_1145bfdc, 0xf14998dd_5f70767e));
    Step(kk, w, t + 3, Words(0x3e264456_7b709a78, 0xda34d667_3d452dcf, 0x8dc5ae65_569d3855, 0x9a3fb4d3_8ab6cf06, 0x0ac2b11d_a8f571c6, 0x8e30ff09_ad488753, 0x4bb9e66d_1145bfdc, 0xf14998dd_5f70767e),
         0x76f988da_831153b5, 0x62e56500_cc0780f0, Words(0x4f6877b5_8fe55484, 0x3e264456_7b709a78, 0xda34d667_3d452dcf, 0x8dc5ae65_569d3855, 0xc66005f8_7db55233, 0x0ac2b11d_a8f571c6, 0x8e30ff09_ad488753, 0x4bb9e66d_1145bfdc));
    Step(kk, w, t + 4, Words(0x4f6877b5_8fe55484, 0x3e264456_7b709a78, 0xda34d667_3d452dcf, 0x8dc5ae65_569d3855, 0xc66005f8_7db55233, 0x0ac2b11d_a8f571c6, 0x8e30ff09_ad488753, 0x4bb9e66d_1145bfdc),
         0x983e5152_ee66dfab, 0x7760dd47_5a538797, Words(0x9aff7116_3fa3a940, 0x4f6877b5_8fe55484, 0x3e264456_7b709a78, 0xda34d667_3d452dcf, 0xd3ecf137_69180e6f, 0xc66005f8_7db55233, 0x0ac2b11d_a8f571c6, 0x8e30ff09_ad488753));
  }

  lemma Rounds25(kk: Table, w: seq<bv64>, t: nat)
    requires Feeds(kk, w, t, 0xa831c66d_2db43210, 0xf1554b71_1c1c0003, 0xb00327c8_98fb213f, 0xca2993a4_345d9ff2, 0xbf597fc7_beef0ee4, 0x5e0e66b5_c783dd32, 0xc6e00bf3_3da88fc2, 0xe25a625d_00494b62, 0xd5a79147_930aa725, 0x9f44486f_b1e4fbd2)
    requires Rounds(kk, w, t) == Words(0x9aff7116_3fa3a940, 0x4f6877b5_8fe55484, 0x3e264456_7b709a78, 0xda34d667_3d452dcf, 0xd3ecf137_69180e6f, 0xc66005f8_7db55233, 0x0ac2b11d_a8f571c6, 0x8e30ff09_ad488753)
    ensures Rounds(kk, w, t + 5) == Words(0x74bf40f8_69094c63, 0xe6234909_0f47d30a, 0xeab4a9e5_771b8d09, 0x884c3bc2_7bc4f941, 0xf0aec2fe_1437f085, 0x0fcdf997_10f21584, 0x09068a4e_255a0dac, 0xe6e48c9a_8e948365)
  {
    Step(kk, w, t, Words(0x9aff7116_3fa3a940, 0x4f6877b5_8fe55484, 0x3e264456_7b709a78, 0xda34d667_3d452dcf, 0xd3ecf137_69180e6f, 0xc66005f8_7db55233, 0x0ac2b11d_a8f571c6, 0x8e30ff09_ad488753),
         0xa831c66d_2db43210, 0xf1554b71_1c1c0003, Words(0x0bc5f791_f8e6816b, 0x9aff7116_3fa3a940, 0x4f6877b5_8fe55484, 0x3e264456_7b709a78, 0x6ddf1fd7_edcce336, 0xd3ecf137_69180e6f, 0xc66005f8_7db55233, 0x0ac2b11d_a8f571c6));
    Step(kk, w, t + 1, Words(0x0bc5f791_f8e6816b, 0x9aff7116_3fa3a940, 0x4f6877b5_8fe55484, 0x3e264456_7b709a78, 0x6ddf1fd7_edcce336, 0xd3ecf137_69180e6f, 0xc66005f8_7db55233, 0x0ac2b11d_a8f571c6),
         0xb00327c8_98fb213f, 0xca2993a4_345d9ff2, Words(0x884c3bc2_7bc4f941, 0x0bc5f791_f8e6816b, 0x9aff7116_3fa3a940, 0x4f6877b5_8fe55484, 0xe6e48c9a_8e948365, 0x6ddf1fd7_edcce336, 0xd3ecf137_69180e6f, 0xc66005f8_7db55233));
    Step(kk, w, t + 2, Words(0x884c3bc2_7bc4f941, 0x0bc5f791_f8e6816b, 0x9aff7116_3fa3a940, 0x4f6877b5_8fe55484, 0xe6e48c9a_8e948365, 0x6ddf1fd7_edcce336, 0xd3ecf137_69180e6f, 0xc66005f8_7db55233),
         0xbf597fc7_beef0ee4, 0x5e0e66b5_c783dd32, Words(0xeab4a9e5_771b8d09, 0x884c3bc2_7bc4f941, 0x0bc5f791_f8e6816b, 0x9aff7116_3fa3a940, 0x09068a4e_255a0dac, 0xe6e48c9a_8e948365, 0x6ddf1fd7_edcce336, 0xd3ecf137_69180e6f));
    Step(kk, w, t + 3, Words(0xeab4a9e5_771b8d09, 0x884c3bc2_7bc4f941, 0x0bc5f791_f8e6816b, 0x9aff7116_3fa3a940, 0x09068a4e_255a0dac, 0xe6e48c9a_8e948365, 0x6ddf1fd7_edcce336, 0xd3ecf137_69180e6f),
         0xc6e00bf3_3da88fc2, 0xe25a625d_00494b62, Words(0xe6234909_0f47d30a, 0xeab4a9e5_771b8d09, 0x884c3bc2_7bc4f941, 0x0bc5f791_f8e6816b, 0x0fcdf997_10f21584, 0x09068a4e_255a0dac, 0xe6e48c9a_8e948365, 0x6ddf1fd7_edcce336));
    Step(kk, w, t + 4, Words(0xe6234909_0f47d30a, 0xeab4a9e5_771b8d09, 0x884c3bc2_7bc4f941, 0x0bc5f791_f8e6816b, 0x0fcdf997_10f21584, 0x09068a4e_255a0dac, 0xe6e48c9a_8e948365, 0x6ddf1fd7_edcce336),
         0xd5a79147_930aa725, 0x9f44486f_b1e4fbd2, Words(0x74bf40f8_69094c63, 0xe6234909_0f47d30a, 0xeab4a9e5_771b8d09, 0x884c3bc2_7bc4f941, 0xf0aec2fe_1437f085, 0x0fcdf997_10f21584, 0x09068a4e_255a0dac, 0xe6e48c9a_8e948365));
  }

  lemma Rounds30(kk: Table, w: seq<bv64>, t: nat)
    requires Feeds(kk, w, t, 0x06ca6351_e003826f, 0xb31b8c2b_06085f2f, 0x14292967_0a0e6e70, 0x0e987660_934142f6, 0x27b70a85_46d22ffc, 0xa4af2cfd_09fbb924, 0x2e1b2138_5c26c926, 0xad289e2e_0bd53186, 0x4d2c6dfc_5ac42aed, 0x3c74563a_a2f9673e)
    requires Rounds(kk, w, t) == Words(0x74bf40f8_69094c63, 0xe6234909_0f47d30a, 0xeab4a9e5_771b8d09, 0x884c3bc2_7bc4f941, 0xf0aec2fe_1437f085, 0x0fcdf997_10f21584, 0x09068a4e_255a0dac, 0xe6e48c9a_8e948365)
    ensures Rounds(kk, w, t + 5) == Words(0x2c59ec77_43632621, 0x60d4e699_5ed91fe6, 0xa0509015_ca08c8d4, 0xff4d3f1f_0d46a736, 0x0fbae670_fa780fd3, 0xefabbd8b_f47c041a, 0xe1034573_654a106f, 0x3cd388e1_19e8162e)
  {
    Step(kk, w, t, Words(0x74bf40f8_69094c63, 0xe6234909_0f47d30a, 0xeab4a9e5_771b8d09, 0x884c3bc2_7bc4f941, 0xf0aec2fe_1437f085, 0x0fcdf997_10f21584, 0x09068a4e_255a0dac, 0xe6e48c9a_8e948365),
         0x06ca6351_e003826f, 0xb31b8c2b_06085f2f, Words(0x4c4fbbb7_5f1873a6, 0x74bf40f8_69094c63, 0xe6234909_0f47d30a, 0xeab4a9e5_771b8d09, 0x73e025d9_1b9efea3, 0xf0aec2fe_1437f085, 0x0fcdf997_10f21584, 0x09068a4e_255a0dac));
    Step(kk, w, t + 1, Words(0x4c4fbbb7_5f1873a6, 0x74bf40f8_69094c63, 0xe6234909_0f47d30a, 0xeab4a9e5_771b8d09, 0x73e025d9_1b9efea3, 0xf0aec2fe_1437f085, 0x0fcdf997_10f21584, 0x09068a4e_255a0dac),
         0x14292967_0a0e6e70, 0x0e987660_934142f6, Words(0xff4d3f1f_0d46a736, 0x4c4fbbb7_5f1873a6, 0x74bf40f8_69094c63, 0xe6234909_0f47d30a, 0x3cd388e1_19e8162e, 0x73e025d9_1b9efea3, 0xf0aec2fe_1437f085, 0x0fcdf997_10f21584));
    Step(kk, w, t + 2, Words(0xff4d3f1f_0d46a736, 0x4c4fbbb7_5f1873a6, 0x74bf40f8_69094c63, 0xe6234909_0f47d30a, 0x3cd388e1_19e8162e, 0x73e025d9_1b9efea3, 0xf0aec2fe_1437f085, 0x0fcdf997_10f21584),
         0x27b70a85_46d22ffc, 0xa4af2cfd_09fbb924, Words(0xa0509015_ca08c8d4, 0xff4d3f1f_0d46a736, 0x4c4fbbb7_5f1873a6, 0x74bf40f8_69094c63, 0xe1034573_654a106f, 0x3cd388e1_19e8162e, 0x73e025d9_1b9efea3, 0xf0aec2fe_1437f085));
    Step(kk, w, t + 3, Words(0xa0509015_ca08c8d4, 0xff4d3f1f_0d46a736, 0x4c4fbbb7_5f1873a6, 0x74bf40f8_69094c63, 0xe1034573_654a106f, 0x3cd388e1_19e8162e, 0x73e025d9_1b9efea3, 0xf0aec2fe_1437f085),
         0x2e1b2138_5c26c926, 0xad289e2e_0bd53186, Words(0x60d4e699_5ed91fe6, 0xa0509015_ca08c8d4, 0xff4d3f1f_0d46a736, 0x4c4fbbb7_5f1873a6, 0xefabbd8b_f47c041a, 0xe1034573_654a106f, 0x3cd388e1_19e8162e, 0x73e025d9_1b9efea3));
    Step(kk, w, t + 4, Words(0x60d4e699_5ed91fe6, 0xa0509015_ca08c8d4, 0xff4d3f1f_0d46a736, 0x4c4fbbb7_5f1873a6, 0xefabbd8b_f47c041a, 0xe1034573_654a106f, 0x3cd388e1_19e8162e, 0x73e025d9_1b9efea3),
         0x4d2c6dfc_5ac42aed, 0x3c74563a_a2f9673e, Words(0x2c59ec77_43632621, 0x60d4e699_5ed91fe6, 0xa0509015_ca08c8d4, 0xff4d3f1f_0d46a736, 0x0fbae670_fa780fd3, 0xefabbd8b_f47c041a, 0xe1034573_654a106f, 0x3cd388e1_19e8162e));
  }

  lemma Rounds35(kk: Table, w: seq<bv64>, t: nat)
    requires Feeds(kk, w, t, 0x53380d13_9d95b3df, 0x6ccdcd14_cc14b53f, 0x650a7354_8baf63de, 0xc3f925b3_37f22bde, 0x766a0abb_3c77b2a8, 0x5bcc77a7_5ad95b54, 0x81c2c92e_47edaee6, 0x3ec2257a_dca09a52, 0x92722c85_1482353b, 0x28246960_001fc5eb)
    requires Rounds(kk, w, t) == Words(0x2c59ec77_43632621, 0x60d4e699_5ed91fe6, 0xa0509015_ca08c8d4, 0xff4d3f1f_0d46a736, 0x0fbae670_fa780fd3, 0xefabbd8b_f47c041a, 0xe1034573_654a106f, 0x3cd388e1_19e8162e)
    ensures Rounds(kk, w, t + 5) == Words(0x8e01e125_b855d225, 0xb3bb8542_b3376de5, 0x002bb8e4_cd989567, 0x88df85b0_bbe77514, 0x0c710a47_ba6a567b, 0xb49596c2_0feba7de, 0x66adcfa2_49ac7bbd, 0x8fbfd016_2bbf4675)
  {
    Step(kk, w, t, Words(0x2c59ec77_43632621, 0x60d4e699_5ed91fe6, 0xa0509015_ca08c8d4, 0xff4d3f1f_0d46a736, 0x0fbae670_fa780fd3, 0xefabbd8b_f47c041a, 0xe1034573_654a106f, 0x3cd388e1_19e8162e),
         0x53380d13_9d95b3df, 0x6ccdcd14_cc14b53f, Words(0x1a081afc_59fdbc2c, 0x2c59ec77_43632621, 0x60d4e699_5ed91fe6, 0xa0509015_ca08c8d4, 0xf098082f_502b44cd, 0x0fbae670_fa780fd3, 0xefabbd8b_f47c041a, 0xe1034573_654a106f));
    Step(kk, w, t + 1, Words(0x1a081afc_59fdbc2c, 0x2c59ec77_43632621, 0x60d4e699_5ed91fe6, 0xa0509015_ca08c8d4, 0xf098082f_502b44cd, 0x0fbae670_fa780fd3, 0xefabbd8b_f47c041a, 0xe1034573_654a106f),
         0x650a7354_8baf63de, 0xc3f925b3_37f22bde, Words(0x88df85b0_bbe77514, 0x1a081afc_59fdbc2c, 0x2c59ec77_43632621, 0x60d4e699_5ed91fe6, 0x8fbfd016_2bbf4675, 0xf098082f_502b44cd, 0x0fbae670_fa780fd3, 0xefabbd8b_f47c041a));
    Step(kk, w, t + 2, Words(0x88df85b0_bbe77514, 0x1a081afc_59fdbc2c, 0x2c59ec77_43632621, 0x60d4e699_5ed91fe6, 0x8fbfd016_2bbf4675, 0xf098082f_502b44cd, 0x0fbae670_fa780fd3, 0xefabbd8b_f47c041a),
         0x766a0abb_3c77b2a8, 0x5bcc77a7_5ad95b54, Words(0x002bb8e4_cd989567, 0x88df85b0_bbe77514, 0x1a081afc_59fdbc2c, 0x2c59ec77_43632621, 0x66adcfa2_49ac7bbd, 0x8fbfd016_2bbf4675, 0xf098082f_502b44cd, 0x0fbae670_fa780fd3));
    Step(kk, w, t + 3, Words(0x002bb8e4_cd989567, 0x88df85b0_bbe77514, 0x1a081afc_59fdbc2c, 0x2c59ec77_43632621, 0x66adcfa2_49ac7bbd, 0x8fbfd016_2bbf4675, 0xf098082f_502b44cd, 0x0fbae670_fa780fd3),
         0x81c2c92e_47edaee6, 0x3ec2257a_dca09a52, Words(0xb3bb8542_b3376de5, 0x002bb8e4_cd989567, 0x88df85b0_bbe77514, 0x1a081afc_59fdbc2c, 0xb49596c2_0feba7de, 0x66adcfa2_49ac7bbd, 0x8fbfd016_2bbf4675, 0xf098082f_502b44cd));
    Step(kk, w, t + 4, Words(0xb3bb8542_b3376de5, 0x002bb8e4_cd989567, 0x88df85b0_bbe77514, 0x1a081afc_59fdbc2c, 0xb49596c2_0feba7de, 0x66adcfa2_49ac7bbd, 0x8fbfd016_2bbf4675, 0xf098082f_502b44cd),
         0x92722c85_1482353b, 0x28246960_001fc5eb, Words(0x8e01e125_b855d225, 0xb3bb8542_b3376de5, 0x002bb8e4_cd989567, 0x88df85b0_bbe77514, 0x0c710a47_ba6a567b, 0xb49596c2_0feba7de, 0x66adcfa2_49ac7bbd, 0x8fbfd016_2bbf4675));
  }

  lemma Rounds40(kk: Table, w: seq<bv64>, t: nat)
    requires Feeds(kk, w, t, 0xa2bfe8a1_4cf10364, 0x04e33a75_ce2be88a, 0xa81a664b_bc423001, 0x7d5314b3_c359e0e7, 0xc24b8b70_d0f89791, 0xaef7a285_ff251266, 0xc76c51a3_0654be30, 0x0b847258_1deea04f, 0xd192e819_d6ef5218, 0xb174e26e_ddc7b033)
    requires Rounds(kk, w, t) == Words(0x8e01e125_b855d225, 0xb3bb8542_b3376de5, 0x002bb8e4_cd989567, 0x88df85b0_bbe77514, 0x0c710a47_ba6a567b, 0xb49596c2_0feba7de, 0x66adcfa2_49ac7bbd, 0x8fbfd016_2bbf4675)
    ensures Rounds(kk, w, t + 5) == Words(0xc47c9d5c_7ea8a234, 0x35d7e7f4_1defcbd5, 0xbc05ba8d_e5d3c480, 0xe96f89dd_48cbd851, 0x858d832a_e0e8911c, 0xcc510099_7f5710f2, 0x639cb938_e14dc190, 0xf0996439_e7b50cb1)
  {
    Step(kk, w, t, Words(0x8e01e125_b855d225, 0xb3bb8542_b3376de5, 0x002bb8e4_cd989567, 0x88df85b0_bbe77514, 0x0c710a47_ba6a567b, 0xb49596c2_0feba7de, 0x66adcfa2_49ac7bbd, 0x8fbfd016_2bbf4675),
         0xa2bfe8a1_4cf10364, 0x04e33a75_ce2be88a, Words(0xb01521dd_6a6be12c, 0x8e01e125_b855d225, 0xb3bb8542_b3376de5, 0x002bb8e4_cd989567, 0x169008b3_a4bb170b, 0x0c710a47_ba6a567b, 0xb49596c2_0feba7de, 0x66adcfa2_49ac7bbd));
    Step(kk, w, t + 1, Words(0xb01521dd_6a6be12c, 0x8e01e125_b855d225, 0xb3bb8542_b3376de5, 0x002bb8e4_cd989567, 0x169008b3_a4bb170b, 0x0c710a47_ba6a567b, 0xb49596c2_0feba7de, 0x66adcfa2_49ac7bbd),
         0xa81a664b_bc423001, 0x7d5314b3_c359e0e7, Words(0xe96f89dd_48cbd851, 0xb01521dd_6a6be12c, 0x8e01e125_b855d225, 0xb3bb8542_b3376de5, 0xf0996439_e7b50cb1, 0x169008b3_a4bb170b, 0x0c710a47_ba6a567b, 0xb49596c2_0feba7de));
    Step(kk, w, t + 2, Words(0xe96f89dd_48cbd851, 0xb01521dd_6a6be12c, 0x8e01e125_b855d225, 0xb3bb8542_b3376de5, 0xf0996439_e7b50cb1, 0x169008b3_a4bb170b, 0x0c710a47_ba6a567b, 0xb49596c2_0feba7de),
         0xc24b8b70_d0f89791, 0xaef7a285_ff251266, Words(0xbc05ba8d_e5d3c480, 0xe96f89dd_48cbd851, 0xb01521dd_6a6be12c, 0x8e01e125_b855d225, 0x639cb938_e14dc190, 0xf0996439_e7b50cb1, 0x169008b3_a4bb170b, 0x0c710a47_ba6a567b));
    Step(kk, w, t + 3, Words(0xbc05ba8d_e5d3c480, 0xe96f89dd_48cbd851, 0xb01521dd_6a6be12c, 0x8e01e125_b855d225, 0x639cb938_e14dc190, 0xf0996439_e7b50cb1, 0x169008b3_a4bb170b, 0x0c710a47_ba6a567b),
         0xc76c51a3_0654be30, 0x0b847258_1deea04f, Words(0x35d7e7f4_1defcbd5, 0xbc05ba8d_e5d3c480, 0xe96f89dd_48cbd851, 0xb01521dd_6a6be12c, 0xcc510099_7f5710f2, 0x639cb938_e14dc190, 0xf0996439_e7b50cb1, 0x169008b3_a4bb170b));
    Step(kk, w, t + 4, Words(0x35d7e7f4_1defcbd5, 0xbc05ba8d_e5d3c480, 0xe96f89dd_48cbd851, 0xb01521dd_6a6be12c, 0xcc510099_7f5710f2, 0x639cb938_e14dc190, 0xf0996439_e7b50cb1, 0x169008b3_a4bb170b),
         0xd192e819_d6ef5218, 0xb174e26e_ddc7b033, Words(0xc47c9d5c_7ea8a234, 0x35d7e7f4_1defcbd5, 0xbc05ba8d_e5d3c480, 0xe96f89dd_48cbd851, 0x858d832a_e0e8911c, 0xcc510099_7f5710f2, 0x639cb938_e14dc190, 0xf0996439_e7b50cb1));
  }

  lemma Rounds45(kk: Table, w: seq<bv64>, t: nat)
    requires Feeds(kk, w, t, 0xd6990624_5565a910, 0x5d63bae5_8ddd88de, 0xf40e3585_5771202a, 0x4c044007_b744ccbb, 0x106aa070_32bbd1b8, 0xe6a9aa4d_74dc7d43, 0x19a4c116_b8d2d0c8, 0xebeaf123_7248019c, 0x1e376c08_5141ab53, 0x361e80b2_d00f3193)
    requires Rounds(kk, w, t) == Words(0xc47c9d5c_7ea8a234, 0x35d7e7f4_1defcbd5, 0xbc05ba8d_e5d3c480, 0xe96f89dd_48cbd851, 0x858d832a_e0e8911c, 0xcc510099_7f5710f2, 0x639cb938_e14dc190, 0xf0996439_e7b50cb1)
    ensures Rounds(kk, w, t + 5) == Words(0xca9bd862_c5050918, 0x571f323d_96b3a047, 0x6b69fc1b_b482feac, 0xf61e6726_94de2d67, 0xdfe091da_b182e645, 0x271580ed_6c3e5650, 0x35264334_c03ac8ad, 0xc6bc3574_0d8daa9a)
  {
    Step(kk, w, t, Words(0xc47c9d5c_7ea8a234, 0x35d7e7f4_1defcbd5, 0xbc05ba8d_e5d3c480, 0xe96f89dd_48cbd851, 0x858d832a_e0e8911c, 0xcc510099_7f5710f2, 0x639cb938_e14dc190, 0xf0996439_e7b50cb1),
         0xd6990624_5565a910, 0x5d63bae5_8ddd88de, Words(0x021fbadb_abab5ac6, 0xc47c9d5c_7ea8a234, 0x35d7e7f4_1defcbd5, 0xbc05ba8d_e5d3c480, 0xe95c2a57_572d64d9, 0x858d832a_e0e8911c, 0xcc510099_7f5710f2, 0x639cb938_e14dc190));
    Step(kk, w, t + 1, Words(0x021fbadb_abab5ac6, 0xc47c9d5c_7ea8a234, 0x35d7e7f4_1defcbd5, 0xbc05ba8d_e5d3c480, 0xe95c2a57_572d64d9, 0x858d832a_e0e8911c, 0xcc510099_7f5710f2, 0x639cb938_e14dc190),
         0xf40e3585_5771202a, 0x4c044007_b744ccbb, Words(0xf61e6726_94de2d67, 0x021fbadb_abab5ac6, 0xc47c9d5c_7ea8a234, 0x35d7e7f4_1defcbd5, 0xc6bc3574_0d8daa9a, 0xe95c2a57_572d64d9, 0x858d832a_e0e8911c, 0xcc510099_7f5710f2));
    Step(kk, w, t + 2, Words(0xf61e6726_94de2d67, 0x021fbadb_abab5ac6, 0xc47c9d5c_7ea8a234, 0x35d7e7f4_1defcbd5, 0xc6bc3574_0d8daa9a, 0xe95c2a57_572d64d9, 0x858d832a_e0e8911c, 0xcc510099_7f5710f2),
         0x106aa070_32bbd1b8, 0xe6a9aa4d_74dc7d43, Words(0x6b69fc1b_b482feac, 0xf61e6726_94de2d67, 0x021fbadb_abab5ac6, 0xc47c9d5c_7ea8a234, 0x35264334_c03ac8ad, 0xc6bc3574_0d8daa9a, 0xe95c2a57_572d64d9, 0x858d832a_e0e8911c));
    Step(kk, w, t + 3, Words(0x6b69fc1b_b482feac, 0xf61e6726_94de2d67, 0x021fbadb_abab5ac6, 0xc47c9d5c_7ea8a234, 0x35264334_c03ac8ad, 0xc6bc3574_0d8daa9a, 0xe95c2a57_572d64d9, 0x858d832a_e0e8911c),
         0x19a4c116_b8d2d0c8, 0xebeaf123_7248019c, Words(0x571f323d_96b3a047, 0x6b69fc1b_b482feac, 0xf61e6726_94de2d67, 0x021fbadb_abab5ac6, 0x271580ed_6c3e5650, 0x35264334_c03ac8ad, 0xc6bc3574_0d8daa9a, 0xe95c2a57_572d64d9));
    Step(kk, w, t + 4, Words(0x571f323d_96b3a047, 0x6b69fc1b_b482feac, 0xf61e6726_94de2d67, 0x021fbadb_abab5ac6, 0x271580ed_6c3e5650, 0x35264334_c03ac8ad, 0xc6bc3574_0d8daa9a, 0xe95c2a57_572d64d9),
         0x1e376c08_5141ab53, 0x361e80b2_d00f3193, Words(0xca9bd862_c5050918, 0x571f323d_96b3a047, 0x6b69fc1b_b482feac, 0xf61e6726_94de2d67, 0xdfe091da_b182e645, 0x271580ed_6c3e5650, 0x35264334_c03ac8ad, 0xc6bc3574_0d8daa9a));
  }

  lemma Rounds50(kk: Table, w: seq<bv64>, t: nat)
    requires Feeds(kk, w, t, 0x2748774c_df8eeb99, 0x2e983912_5df3b175, 0x34b0bcb5_e19b48a8, 0x33196292_93ad5363, 0x391c0cb3_c5c95a63, 0x9cbc5d89_ac1b89d5, 0x4ed8aa4a_e3418acb, 0x275e23ff_eeca50b7, 0x5b9cca4f_7763e373, 0x3b80d680_bf69ef58)
    requires Rounds(kk, w, t) == Words(0xca9bd862_c5050918, 0x571f323d_96b3a047, 0x6b69fc1b_b482feac, 0xf61e6726_94de2d67, 0xdfe091da_b182e645, 0x271580ed_6c3e5650, 0x35264334_c03ac8ad, 0xc6bc3574_0d8daa9a)
    ensures Rounds(kk, w, t + 5) == Words(0xf650857b_5babda4d, 0xd63f6803_7ddf06aa, 0x03df11b3_2d42e203, 0xd43f8372_7325dd77, 0x9ccfb31a_86df0f86, 0xa6781efe_1aa1ce02, 0x504f94e4_0591cffa, 0x483f80a8_2eaee23e)
  {
    Step(kk, w, t, Words(0xca9bd862_c5050918, 0x571f323d_96b3a047, 0x6b69fc1b_b482feac, 0xf61e6726_94de2d67, 0xdfe091da_b182e645, 0x271580ed_6c3e5650, 0x35264334_c03ac8ad, 0xc6bc3574_0d8daa9a),
         0x2748774c_df8eeb99, 0x2e983912_5df3b175, Words(0x813a43dd_2c502043, 0xca9bd862_c5050918, 0x571f323d_96b3a047, 0x6b69fc1b_b482feac, 0x07a0d8ef_821c5e1a, 0xdfe091da_b182e645, 0x271580ed_6c3e5650, 0x35264334_c03ac8ad));
    Step(kk, w, t + 1, Words(0x813a43dd_2c502043, 0xca9bd862_c5050918, 0x571f323d_96b3a047, 0x6b69fc1b_b482feac, 0x07a0d8ef_821c5e1a, 0xdfe091da_b182e645, 0x271580ed_6c3e5650, 0x35264334_c03ac8ad),
         0x34b0bcb5_e19b48a8, 0x33196292_93ad5363, Words(0xd43f8372_7325dd77, 0x813a43dd_2c502043, 0xca9bd862_c5050918, 0x571f323d_96b3a047, 0x483f80a8_2eaee23e, 0x07a0d8ef_821c5e1a, 0xdfe091da_b182e645, 0x271580ed_6c3e5650));
    Step(kk, w, t + 2, Words(0xd43f8372_7325dd77, 0x813a43dd_2c502043, 0xca9bd862_c5050918, 0x571f323d_96b3a047, 0x483f80a8_2eaee23e, 0x07a0d8ef_821c5e1a, 0xdfe091da_b182e645, 0x271580ed_6c3e5650),
         0x391c0cb3_c5c95a63, 0x9cbc5d89_ac1b89d5, Words(0x03df11b3_2d42e203, 0xd43f8372_7325dd77, 0x813a43dd_2c502043, 0xca9bd862_c5050918, 0x504f94e4_0591cffa, 0x483f80a8_2eaee23e, 0x07a0d8ef_821c5e1a, 0xdfe091da_b182e645));
    Step(kk, w, t + 3, Words(0x03df11b3_2d42e203, 0xd43f8372_7325dd77, 0x813a43dd_2c502043, 0xca9bd862_c5050918, 0x504f94e4_0591cffa, 0x483f80a8_2eaee23e, 0x07a0d8ef_821c5e1a, 0xdfe091da_b182e645),
         0x4ed8aa4a_e3418acb, 0x275e23ff_eeca50b7, Words(0xd63f6803_7ddf06aa, 0x03df11b3_2d42e203, 0xd43f8372_7325dd77, 0x813a43dd_2c502043, 0xa6781efe_1aa1ce02, 0x504f94e4_0591cffa, 0x483f80a8_2eaee23e, 0x07a0d8ef_821c5e1a));
    Step(kk, w, t + 4, Words(0xd63f6803_7ddf06aa, 0x03df11b3_2d42e203, 0xd43f8372_7325dd77, 0x813a43dd_2c502043, 0xa6781efe_1aa1ce02, 0x504f94e4_0591cffa, 0x483f80a8_2eaee23e, 0x07a0d8ef_821c5e1a),
         0x5b9cca4f_7763e373, 0x3b80d680_bf69ef58, Words(0xf650857b_5babda4d, 0xd63f6803_7ddf06aa, 0x03df11b3_2d42e203, 0xd43f8372_7325dd77, 0x9ccfb31a_86df0f86, 0xa6781efe_1aa1ce02, 0x504f94e4_0591cffa, 0x483f80a8_2eaee23e));
  }

  lemma Rounds55(kk: Table, w: seq<bv64>, t: nat)
    requires Feeds(kk, w, t, 0x682e6ff3_d6b2b8a3, 0x0d069693_3945a125, 0x748f82ee_5defb2fc, 0x7533eabc_b786ff00, 0x78a5636f_43172f60, 0xb89826ce_e6fbf0e5, 0x84c87814_a1f0ab72, 0x249b4fbc_ad623e9f, 0x8cc70208_1a6439ec, 0x4aea9df2_b02d6f1e)
    requires Rounds(kk, w, t) == Words(0xf650857b_5babda4d, 0xd63f6803_7ddf06aa, 0x03df11b3_2d42e203, 0xd43f8372_7325dd77, 0x9ccfb31a_86df0f86, 0xa6781efe_1aa1ce02, 0x504f94e4_0591cffa, 0x483f80a8_2eaee23e)
    ensures Rounds(kk, w, t + 5) == Words(0x2c074484_ef1eac8c, 0x581ecb33_55dcd9b8, 0x4b81c3ae_c976ea4b, 0x7a529129_43d52b05, 0x4797cde4_ed370692, 0x6a3c9b0f_71c8bf36, 0x70505988_124351ac, 0xd2e89bbd_91e00be0)
  {
    Step(kk, w, t, Words(0xf650857b_5babda4d, 0xd63f6803_7ddf06aa, 0x03df11b3_2d42e203, 0xd43f8372_7325dd77, 0x9ccfb31a_86df0f86, 0xa6781efe_1aa1ce02, 0x504f94e4_0591cffa, 0x483f80a8_2eaee23e),
         0x682e6ff3_d6b2b8a3, 0x0d069693_3945a125, Words(0x63b460e4_2748817e, 0xf650857b_5babda4d, 0xd63f6803_7ddf06aa, 0x03df11b3_2d42e203, 0xc6b4dd2a_9931c509, 0x9ccfb31a_86df0f86, 0xa6781efe_1aa1ce02, 0x504f94e4_0591cffa));
    Step(kk, w, t + 1, Words(0x63b460e4_2748817e, 0xf650857b_5babda4d, 0xd63f6803_7ddf06aa, 0x03df11b3_2d42e203, 0xc6b4dd2a_9931c509, 0x9ccfb31a_86df0f86, 0xa6781efe_1aa1ce02, 0x504f94e4_0591cffa),
         0x748f82ee_5defb2fc, 0x7533eabc_b786ff00, Words(0x7a529129_43d52b05, 0x63b460e4_2748817e, 0xf650857b_5babda4d, 0xd63f6803_7ddf06aa, 0xd2e89bbd_91e00be0, 0xc6b4dd2a_9931c509, 0x9ccfb31a_86df0f86, 0xa6781efe_1aa1ce02));
    Step(kk, w, t + 2, Words(0x7a529129_43d52b05, 0x63b460e4_2748817e, 0xf650857b_5babda4d, 0xd63f6803_7ddf06aa, 0xd2e89bbd_91e00be0, 0xc6b4dd2a_9931c509, 0x9ccfb31a_86df0f86, 0xa6781efe_1aa1ce02),
         0x78a5636f_43172f60, 0xb89826ce_e6fbf0e5, Words(0x4b81c3ae_c976ea4b, 0x7a529129_43d52b05, 0x63b460e4_2748817e, 0xf650857b_5babda4d, 0x70505988_124351ac, 0xd2e89bbd_91e00be0, 0xc6b4dd2a_9931c509, 0x9ccfb31a_86df0f86));
    Step(kk, w, t + 3, Words(0x4b81c3ae_c976ea4b, 0x7a529129_43d52b05, 0x63b460e4_2748817e, 0xf650857b_5babda4d, 0x70505988_124351ac, 0xd2e89bbd_91e00be0, 0xc6b4dd2a_9931c509, 0x9ccfb31a_86df0f86),
         0x84c87814_a1f0ab72, 0x249b4fbc_ad623e9f, Words(0x581ecb33_55dcd9b8, 0x4b81c3ae_c976ea4b, 0x7a529129_43d52b05, 0x63b460e4_2748817e, 0x6a3c9b0f_71c8bf36, 0x70505988_124351ac, 0xd2e89bbd_91e00be0, 0xc6b4dd2a_9931c509));
    Step(kk, w, t + 4, Words(0x581ecb33_55dcd9b8, 0x4b81c3ae_c976ea4b, 0x7a529129_43d52b05, 0x63b460e4_2748817e, 0x6a3c9b0f_71c8bf36, 0x70505988_124351ac, 0xd2e89bbd_91e00be0, 0xc6b4dd2a_9931c509),
         0x8cc70208_1a6439ec, 0x4aea9df2_b02d6f1e, Words(0x2c074484_ef1eac8c, 0x581ecb33_55dcd9b8, 0x4b81c3ae_c976ea4b, 0x7a529129_43d52b05, 0x4797cde4_ed370692, 0x6a3c9b0f_71c8bf36, 0x70505988_124351ac, 0xd2e89bbd_91e00be0));
  }

  lemma Rounds60(kk: Table, w: seq<bv64>, t: nat)
    requires Feeds(kk, w, t, 0x90befffa_23631e28, 0x2cc57475_a55e8d8f, 0xa4506ceb_de82bde9, 0xb2574ae9_38d8be89, 0xbef9a3f7_b2c67915, 0xc1b35a57_b16d6aea, 0xc67178f2_e372532b, 0xcc4918b5_949206bb, 0xca273ece_ea26619c, 0x5099c3ad_d79f90ec)
    requires Rounds(kk, w, t) == Words(0x2c074484_ef1eac8c, 0x581ecb33_55dcd9b8, 0x4b81c3ae_c976ea4b, 0x7a529129_43d52b05, 0x4797cde4_ed370692, 0x6a3c9b0f_71c8bf36, 0x70505988_124351ac, 0xd2e89bbd_91e00be0)
    ensures Rounds(kk, w, t + 5) == Words(0x5a806d7e_9821a501, 0xab44e862_76478d85, 0xa81dedbb_9f19e643, 0xcfcd928c_5424e2b6, 0xaa84b086_688a5c45, 0xcd881ee5_9ca6bc53, 0x84058865_d60a05fa, 0x09aee5bd_a1644de5)
  {
    Step(kk, w, t, Words(0x2c074484_ef1eac8c, 0x581ecb33_55dcd9b8, 0x4b81c3ae_c976ea4b, 0x7a529129_43d52b05, 0x4797cde4_ed370692, 0x6a3c9b0f_71c8bf36, 0x70505988_124351ac, 0xd2e89bbd_91e00be0),
         0x90befffa_23631e28, 0x2cc57475_a55e8d8f, Words(0x3857dfd2_fc37d3ba, 0x2c074484_ef1eac8c, 0x581ecb33_55dcd9b8, 0x4b81c3ae_c976ea4b, 0xa6af4e9c_9f807e51, 0x4797cde4_ed370692, 0x6a3c9b0f_71c8bf36, 0x70505988_124351ac));
    Step(kk, w, t + 1, Words(0x3857dfd2_fc37d3ba, 0x2c074484_ef1eac8c, 0x581ecb33_55dcd9b8, 0x4b81c3ae_c976ea4b, 0xa6af4e9c_9f807e51, 0x4797cde4_ed370692, 0x6a3c9b0f_71c8bf36, 0x70505988_124351ac),
         0xa4506ceb_de82bde9, 0xb2574ae9_38d8be89, Words(0xcfcd928c_5424e2b6, 0x3857dfd2_fc37d3ba, 0x2c074484_ef1eac8c, 0x581ecb33_55dcd9b8, 0x09aee5bd_a1644de5, 0xa6af4e9c_9f807e51, 0x4797cde4_ed370692, 0x6a3c9b0f_71c8bf36));
    Step(kk, w, t + 2, Words(0xcfcd928c_5424e2b6, 0x3857dfd2_fc37d3ba, 0x2c074484_ef1eac8c, 0x581ecb33_55dcd9b8, 0x09aee5bd_a1644de5, 0xa6af4e9c_9f807e51, 0x4797cde4_ed370692, 0x6a3c9b0f_71c8bf36),
         0xbef9a3f7_b2c67915, 0xc1b35a57_b16d6aea, Words(0xa81dedbb_9f19e643, 0xcfcd928c_5424e2b6, 0x3857dfd2_fc37d3ba, 0x2c074484_ef1eac8c, 0x84058865_d60a05fa, 0x09aee5bd_a1644de5, 0xa6af4e9c_9f807e51, 0x4797cde4_ed370692));
    Step(kk, w, t + 3, Words(0xa81dedbb_9f19e643, 0xcfcd928c_5424e2b6, 0x3857dfd2_fc37d3ba, 0x2c074484_ef1eac8c, 0x84058865_d60a05fa, 0x09aee5bd_a1644de5, 0xa6af4e9c_9f807e51, 0x4797cde4_ed370692),
         0xc67178f2_e372532b, 0xcc4918b5_949206bb, Words(0xab44e862_76478d85, 0xa81dedbb_9f19e643, 0xcfcd928c_5424e2b6, 0x3857dfd2_fc37d3ba, 0xcd881ee5_9ca6bc53, 0x84058865_d60a05fa, 0x09aee5bd_a1644de5, 0xa6af4e9c_9f807e51));
    Step(kk, w, t + 4, Words(0xab44e862_76478d85, 0xa81dedbb_9f19e643, 0xcfcd928c_5424e2b6, 0x3857dfd2_fc37d3ba, 0xcd881ee5_9ca6bc53, 0x84058865_d60a05fa, 0x09aee5bd_a1644de5, 0xa6af4e9c_9f807e51),
         0xca273ece_ea26619c, 0x5099c3ad_d79f90ec, Words(0x5a806d7e_9821a501, 0xab44e862_76478d85, 0xa81dedbb_9f19e643, 0xcfcd928c_5424e2b6, 0xaa84b086_688a5c45, 0xcd881ee5_9ca6bc53, 0x84058865_d60a05fa, 0x09aee5bd_a1644de5));
  }

  lemma Rounds65(kk: Table, w: seq<bv64>, t: nat)
    requires Feeds(kk, w, t, 0xd186b8c7_21c0c207, 0x5ea81d78_e7660bf1, 0xeada7dd6_cde0eb1e, 0xebee6267_405ac2a9, 0xf57d4f7f_ee6ed178, 0xb01f2192_6108a4ab, 0x06f067aa_72176fba, 0x786433dd_2fe65556, 0x0a637dc5_a2c898a6, 0xc54a6eaa_24a0552c)
    requires Rounds(kk, w, t) == Words(0x5a806d7e_9821a501, 0xab44e862_76478d85, 0xa81dedbb_9f19e643, 0xcfcd928c_5424e2b6, 0xaa84b086_688a5c45, 0xcd881ee5_9ca6bc53, 0x84058865_d60a05fa, 0x09aee5bd_a1644de5)
    ensures Rounds(kk, w, t + 5) == Words(0xfb6aaae5_d0b6a447, 0x181839d6_09c79748, 0x54ba35cf_56a0340e, 0x46c4210a_b2cc155d, 0xe3711cb6_564d112d, 0x0ada78ba_2d446140, 0x1c66f46d_95690bcf, 0x29fab5a7_bff53366)
  {
    Step(kk, w, t, Words(0x5a806d7e_9821a501, 0xab44e862_76478d85, 0xa81dedbb_9f19e643, 0xcfcd928c_5424e2b6, 0xaa84b086_688a5c45, 0xcd881ee5_9ca6bc53, 0x84058865_d60a05fa, 0x09aee5bd_a1644de5),
         0xd186b8c7_21c0c207, 0x5ea81d78_e7660bf1, Words(0xeeb9c21b_b0102598, 0x5a806d7e_9821a501, 0xab44e862_76478d85, 0xa81dedbb_9f19e643, 0x3b5fed0d_6a1f96e1, 0xaa84b086_688a5c45, 0xcd881ee5_9ca6bc53, 0x84058865_d60a05fa));
    Step(kk, w, t + 1, Words(0xeeb9c21b_b0102598, 0x5a806d7e_9821a501, 0xab44e862_76478d85, 0xa81dedbb_9f19e643, 0x3b5fed0d_6a1f96e1, 0xaa84b086_688a5c45, 0xcd881ee5_9ca6bc53, 0x84058865_d60a05fa),
         0xeada7dd6_cde0eb1e, 0xebee6267_405ac2a9, Words(0x46c4210a_b2cc155d, 0xeeb9c21b_b0102598, 0x5a806d7e_9821a501, 0xab44e862_76478d85, 0x29fab5a7_bff53366, 0x3b5fed0d_6a1f96e1, 0xaa84b086_688a5c45, 0xcd881ee5_9ca6bc53));
    Step(kk, w, t + 2, Words(0x46c4210a_b2cc155d, 0xeeb9c21b_b0102598, 0x5a806d7e_9821a501, 0xab44e862_76478d85, 0x29fab5a7_bff53366, 0x3b5fed0d_6a1f96e1, 0xaa84b086_688a5c45, 0xcd881ee5_9ca6bc53),
         0xf57d4f7f_ee6ed178, 0xb01f2192_6108a4ab, Words(0x54ba35cf_56a0340e, 0x46c4210a_b2cc155d, 0xeeb9c21b_b0102598, 0x5a806d7e_9821a501, 0x1c66f46d_95690bcf, 0x29fab5a7_bff53366, 0x3b5fed0d_6a1f96e1, 0xaa84b086_688a5c45));
    Step(kk, w, t + 3, Words(0x54ba35cf_56a0340e, 0x46c4210a_b2cc155d, 0xeeb9c21b_b0102598, 0x5a806d7e_9821a501, 0x1c66f46d_95690bcf, 0x29fab5a7_bff53366, 0x3b5fed0d_6a1f96e1, 0xaa84b086_688a5c45),
         0x06f067aa_72176fba, 0x786433dd_2fe65556, Words(0x181839d6_09c79748, 0x54ba35cf_56a0340e, 0x46c4210a_b2cc155d, 0xeeb9c21b_b0102598, 0x0ada78ba_2d446140, 0x1c66f46d_95690bcf, 0x29fab5a7_bff53366, 0x3b5fed0d_6a1f96e1));
    Step(kk, w, t + 4, Words(0x181839d6_09c79748, 0x54ba35cf_56a0340e, 0x46c4210a_b2cc155d, 0xeeb9c21b_b0102598, 0x0ada78ba_2d446140, 0x1c66f46d_95690bcf, 0x29fab5a7_bff53366, 0x3b5fed0d_6a1f96e1),
         0x0a637dc5_a2c898a6, 0xc54a6eaa_24a0552c, Words(0xfb6aaae5_d0b6a447, 0x181839d6_09c79748, 0x54ba35cf_56a0340e, 0x46c4210a_b2cc155d, 0xe3711cb6_564d112d, 0x0ada78ba_2d446140, 0x1c66f46d_95690bcf, 0x29fab5a7_bff53366));
  }

  lemma Rounds70(kk: Table, w: seq<bv64>, t: nat)
    requires Feeds(kk, w, t, 0x113f9804_bef90dae, 0xb3c8f153_0bdbaa9e, 0x1b710b35_131c471b, 0xbb8abfe5_6f469338, 0x28db77f5_23047d84, 0xf63d4265_cc1c5a78, 0x32caab7b_40c72493, 0xbe8355ea_73129afb, 0x3c9ebe0a_15c9bebc, 0x49e2db8e_bdcfbeb5)
    requires Rounds(kk, w, t) == Words(0xfb6aaae5_d0b6a447, 0x181839d6_09c79748, 0x54ba35cf_56a0340e, 0x46c4210a_b2cc155d, 0xe3711cb6_564d112d, 0x0ada78ba_2d446140, 0x1c66f46d_95690bcf, 0x29fab5a7_bff53366)
    ensures Rounds(kk, w, t + 5) == Words(0x33d48dab_b5521de2, 0x20878dcd_29cdfaf5, 0x358406d1_65aee9ab, 0xf15e9664_b2803575, 0x2ba18245_b50de4cf, 0x054d3536_539948d0, 0x8c7b5fd9_1a794ca0, 0x947c3dfa_fee570ef)
  {
    Step(kk, w, t, Words(0xfb6aaae5_d0b6a447, 0x181839d6_09c79748, 0x54ba35cf_56a0340e, 0x46c4210a_b2cc155d, 0xe3711cb6_564d112d, 0x0ada78ba_2d446140, 0x1c66f46d_95690bcf, 0x29fab5a7_bff53366),
         0x113f9804_bef90dae, 0xb3c8f153_0bdbaa9e, Words(0x7652c579_cb60f19c, 0xfb6aaae5_d0b6a447, 0x181839d6_09c79748, 0x54ba35cf_56a0340e, 0xaff62c96_65ff80fa, 0xe3711cb6_564d112d, 0x0ada78ba_2d446140, 0x1c66f46d_95690bcf));
    Step(kk, w, t + 1, Words(0x7652c579_cb60f19c, 0xfb6aaae5_d0b6a447, 0x181839d6_09c79748, 0x54ba35cf_56a0340e, 0xaff62c96_65ff80fa, 0xe3711cb6_564d112d, 0x0ada78ba_2d446140, 0x1c66f46d_95690bcf),
         0x1b710b35_131c471b, 0xbb8abfe5_6f469338, Words(0xf15e9664_b2803575, 0x7652c579_cb60f19c, 0xfb6aaae5_d0b6a447, 0x181839d6_09c79748, 0x947c3dfa_fee570ef, 0xaff62c96_65ff80fa, 0xe3711cb6_564d112d, 0x0ada78ba_2d446140));
    Step(kk, w, t + 2, Words(0xf15e9664_b2803575, 0x7652c579_cb60f19c, 0xfb6aaae5_d0b6a447, 0x181839d6_09c79748, 0x947c3dfa_fee570ef, 0xaff62c96_65ff80fa, 0xe3711cb6_564d112d, 0x0ada78ba_2d446140),
         0x28db77f5_23047d84, 0xf63d4265_cc1c5a78, Words(0x358406d1_65aee9ab, 0xf15e9664_b2803575, 0x7652c579_cb60f19c, 0xfb6aaae5_d0b6a447, 0x8c7b5fd9_1a794ca0, 0x947c3dfa_fee570ef, 0xaff62c96_65ff80fa, 0xe3711cb6_564d112d));
    Step(kk, w, t + 3, Words(0x358406d1_65aee9ab, 0xf15e9664_b2803575, 0x7652c579_cb60f19c, 0xfb6aaae5_d0b6a447, 0x8c7b5fd9_1a794ca0, 0x947c3dfa_fee570ef, 0xaff62c96_65ff80fa, 0xe3711cb6_564d112d),
         0x32caab7b_40c72493, 0xbe8355ea_73129afb, Words(0x20878dcd_29cdfaf5, 0x358406d1_65aee9ab, 0xf15e9664_b2803575, 0x7652c579_cb60f19c, 0x054d3536_539948d0, 0x8c7b5fd9_1a794ca0, 0x947c3dfa_fee570ef, 0xaff62c96_65ff80fa));
    Step(kk, w, t + 4, Words(0x20878dcd_29cdfaf5, 0x358406d1_65aee9ab, 0xf15e9664_b2803575, 0x7652c579_cb60f19c, 0x054d3536_539948d0, 0x8c7b5fd9_1a794ca0, 0x947c3dfa_fee570ef, 0xaff62c96_65ff80fa),
         0x3c9ebe0a_15c9bebc, 0x49e2db8e_bdcfbeb5, Words(0x33d48dab_b5521de2, 0x20878dcd_29cdfaf5, 0x358406d1_65aee9ab, 0xf15e9664_b2803575, 0x2ba18245_b50de4cf, 0x054d3536_539948d0, 0x8c7b5fd9_1a794ca0, 0x947c3dfa_fee570ef));
  }

  lemma Rounds75(kk: Table, w: seq<bv64>, t: nat)
    requires Feeds(kk, w, t, 0x431d67c4_9c100d4c, 0x82269d4a_883a3d99, 0x4cc5d4be_cb3e42b6, 0xfdf53df3_011f362b, 0x597f299c_fc657e2a, 0x464af567_1d71c12e, 0x5fcb6fab_3ad6faec, 0xe449b681_98ec611c, 0x6c44198c_4a475817, 0x92aeeed1_a7bcf7d2)
    requires Rounds(kk, w, t) == Words(0x33d48dab_b5521de2, 0x20878dcd_29cdfaf5, 0x358406d1_65aee9ab, 0xf15e9664_b2803575, 0x2ba18245_b50de4cf, 0x054d3536_539948d0, 0x8c7b5fd9_1a794ca0, 0x947c3dfa_fee570ef)
    ensures Rounds(kk, w, t + 5) == Words(0x73a54f39_9fa4b1b2, 0x10d9c4c4_295599f6, 0xd67806db_8b148677, 0x654ef9ab_ec389ca9, 0xd08446aa_79693ed7, 0x9bb4d397_78c07f9e, 0x25c96a77_68fb2aa3, 0xceb9fc36_91ce8326)
  {
    Step(kk, w, t, Words(0x33d48dab_b5521de2, 0x20878dcd_29cdfaf5, 0x358406d1_65aee9ab, 0xf15e9664_b2803575, 0x2ba18245_b50de4cf, 0x054d3536_539948d0, 0x8c7b5fd9_1a794ca0, 0x947c3dfa_fee570ef),
         0x431d67c4_9c100d4c, 0x82269d4a_883a3d99, Words(0xc8960e6b_e864b916, 0x33d48dab_b5521de2, 0x20878dcd_29cdfaf5, 0x358406d1_65aee9ab, 0x995019a6_ff3ba3de, 0x2ba18245_b50de4cf, 0x054d3536_539948d0, 0x8c7b5fd9_1a794ca0));
    Step(kk, w, t + 1, Words(0xc8960e6b_e864b916, 0x33d48dab_b5521de2, 0x20878dcd_29cdfaf5, 0x358406d1_65aee9ab, 0x995019a6_ff3ba3de, 0x2ba18245_b50de4cf, 0x054d3536_539948d0, 0x8c7b5fd9_1a794ca0),
         0x4cc5d4be_cb3e42b6, 0xfdf53df3_011f362b, Words(0x654ef9ab_ec389ca9, 0xc8960e6b_e864b916, 0x33d48dab_b5521de2, 0x20878dcd_29cdfaf5, 0xceb9fc36_91ce8326, 0x995019a6_ff3ba3de, 0x2ba18245_b50de4cf, 0x054d3536_539948d0));
    Step(kk, w, t + 2, Words(0x654ef9ab_ec389ca9, 0xc8960e6b_e864b916, 0x33d48dab_b5521de2, 0x20878dcd_29cdfaf5, 0xceb9fc36_91ce8326, 0x995019a6_ff3ba3de, 0x2ba18245_b50de4cf, 0x054d3536_539948d0),
         0x597f299c_fc657e2a, 0x464af567_1d71c12e, Words(0xd67806db_8b148677, 0x654ef9ab_ec389ca9, 0xc8960e6b_e864b916, 0x33d48dab_b5521de2, 0x25c96a77_68fb2aa3, 0xceb9fc36_91ce8326, 0x995019a6_ff3ba3de, 0x2ba18245_b50de4cf));
    Step(kk, w, t + 3, Words(0xd67806db_8b148677, 0x654ef9ab_ec389ca9, 0xc8960e6b_e864b916, 0x33d48dab_b5521de2, 0x25c96a77_68fb2aa3, 0xceb9fc36_91ce8326, 0x995019a6_ff3ba3de, 0x2ba18245_b50de4cf),
         0x5fcb6fab_3ad6faec, 0xe449b681_98ec611c, Words(0x10d9c4c4_295599f6, 0xd67806db_8b148677, 0x654ef9ab_ec389ca9, 0xc8960e6b_e864b916, 0x9bb4d397_78c07f9e, 0x25c96a77_68fb2aa3, 0xceb9fc36_91ce8326, 0x995019a6_ff3ba3de));
    Step(kk, w, t + 4, Words(0x10d9c4c4_295599f6, 0xd67806db_8b148677, 0x654ef9ab_ec389ca9, 0xc8960e6b_e864b916, 0x9bb4d397_78c07f9e, 0x25c96a77_68fb2aa3, 0xceb9fc36_91ce8326, 0x995019a6_ff3ba3de),
         0x6c44198c_4a475817, 0x92aeeed1_a7bcf7d2, Words(0x73a54f39_9fa4b1b2, 0x10d9c4c4_295599f6, 0xd67806db_8b148677, 0x654ef9ab_ec389ca9, 0xd08446aa_79693ed7, 0x9bb4d397_78c07f9e, 0x25c96a77_68fb2aa3, 0xceb9fc36_91ce8326));
  }

  // ----- all of them -----

  ghost predicate Values(w: seq<bv64>) {
    Sixteen(w, 0, W0) && Sixteen(w, 16, W1) && Sixteen(w, 32, W2) && Sixteen(w, 48, W3) && Sixteen(w, 64, W4)
  }

  lemma ScheduleValues(w: seq<bv64>)
    requires |w| == 80 && IsSchedule(w) && w[..16] == W0
    ensures Values(w)
  {
    forall i | 0 <= i < 16 ensures w[0 + i] == W0[i] {
      assert w[..16][i] == w[i];
    }
    forall i | 0 <= i < 16 ensures Follows(W0, W1, i) {
      if i < 4 {
        Expands0a(i);
      } else if i < 8 {
        Expands0b(i);
      } else if i < 12 {
        Expands0c(i);
      } else {
        Expands0d(i);
      }
    }
    Next(w, 0, W0, W1, 16);
    forall i | 0 <= i < 16 ensures Follows(W1, W2, i) {
      if i < 4 {
        Expands1a(i);
      } else if i < 8 {
        Expands1b(i);
      } else if i < 12 {
        Expands1c(i);
      } else {
        Expands1d(i);
      }
    }
    Next(w, 16, W1, W2, 16);
    forall i | 0 <= i < 16 ensures Follows(W2, W3, i) {
      if i < 4 {
        Expands2a(i);
      } else if i < 8 {
        Expands2b(i);
      } else if i < 12 {
        Expands2c(i);
      } else {
        Expands2d(i);
      }
    }
    Next(w, 32, W2, W3, 16);
    forall i | 0 <= i < 16 ensures Follows(W3, W4, i) {
      if i < 4 {
        Expands3a(i);
      } else if i < 8 {
        Expands3b(i);
      } else if i < 12 {
        Expands3c(i);
      } else {
        Expands3d(i);
      }
    }
    Next(w, 48, W3, W4, 16);
  }

  lemma At(w: seq<bv64>, t: nat, x: seq<bv64>, i: nat)
    requires Sixteen(w, t, x) && i < 16
    ensures w[t + i] == x[i]
  {
  }

  lemma Feeds0(w: seq<bv64>, t: nat)
    requires Values(w) && t == 0
    ensures Feeds(KK, w, t, 0x428a2f98_d728ae22, 0x61626380_00000000, 0x71374491_23ef65cd, 0, 0xb5c0fbcf_ec4d3b2f, 0, 0xe9b5dba5_8189dbbc, 0, 0x3956c25b_f348b538, 0)
  {
    At(w, 0, W0, 0);
    At(w, 0, W0, 1);
    At(w, 0, W0, 2);
    At(w, 0, W0, 3);
    At(w, 0, W0, 4);
  }

  lemma Feeds5(w: seq<bv64>, t: nat)
    requires Values(w) && t == 5
    ensures Feeds(KK, w, t, 0x59f111f1_b605d019, 0, 0x923f82a4_af194f9b, 0, 0xab1c5ed5_da6d8118, 0, 0xd807aa98_a3030242, 0, 0x12835b01_45706fbe, 0)
  {
    At(w, 0, W0, 5);
    At(w, 0, W0, 6);
    At(w, 0, W0, 7);
    At(w, 0, W0, 8);
    At(w, 0, W0, 9);
  }

  lemma Feeds10(w: seq<bv64>, t: nat)
    requires Values(w) && t == 10
    ensures Feeds(KK, w, t, 0x243185be_4ee4b28c, 0, 0x550c7dc3_d5ffb4e2, 0, 0x72be5d74_f27b896f, 0, 0x80deb1fe_3b1696b1, 0, 0x9bdc06a7_25c71235, 0)
  {
    At(w, 0, W0, 10);
    At(w, 0, W0, 11);
    At(w, 0, W0, 12);
    At(w, 0, W0, 13);
    At(w, 0, W0, 14);
  }

  lemma Feeds15(w: seq<bv64>, t: nat)
    requires Values(w) && t == 15
    ensures Feeds(KK, w, t, 0xc19bf174_cf692694, 0x00000000_00000018, 0xe49b69c1_9ef14ad2, 0x61626380_00000000, 0xefbe4786_384f25e3, 0x00030000_000000c0, 0x0fc19dc6_8b8cd5b5, 0x0a9699a2_4c700003, 0x240ca1cc_77ac9c65, 0x00000c00_60000603)
  {
    At(w, 0, W0, 15);
    At(w, 16, W1, 0);
    At(w, 16, W1, 1);
    At(w, 16, W1, 2);
    At(w, 16, W1, 3);
  }

  lemma Feeds20(w: seq<bv64>, t: nat)
    requires Values(w) && t == 20
    ensures Feeds(KK, w, t, 0x2de92c6f_592b0275, 0x549ef626_39858996, 0x4a7484aa_6ea6e483, 0x00c00033_00003c00, 0x5cb0a9dc_bd41fbd4, 0x1497007a_8a0e9dbc, 0x76f988da_831153b5, 0x62e56500_cc0780f0, 0x983e5152_ee66dfab, 0x7760dd47_5a538797)
  {
    At(w, 16, W1, 4);
    At(w, 16, W1, 5);
    At(w, 16, W1, 6);
    At(w, 16, W1, 7);
    At(w, 16, W1, 8);
  }

  lemma Feeds25(w: seq<bv64>, t: nat)
    requires Values(w) && t == 25
    ensures Feeds(KK, w, t, 0xa831c66d_2db43210, 0xf1554b71_1c1c0003, 0xb00327c8_98fb213f, 0xca2993a4_345d9ff2, 0xbf597fc7_beef0ee4, 0x5e0e66b5_c783dd32, 0xc6e00bf3_3da88fc2, 0xe25a625d_00494b62, 0xd5a79147_930aa725, 0x9f44486f_b1e4fbd2)
  {
    At(w, 16, W1, 9);
    At(w, 16, W1, 10);
    At(w, 16, W1, 11);
    At(w, 16, W1, 12);
    At(w, 16, W1, 13);
  }

  lemma Feeds30(w: seq<bv64>, t: nat)
    requires Values(w) && t == 30
    ensures Feeds(KK, w, t, 0x06ca6351_e003826f, 0xb31b8c2b_06085f2f, 0x14292967_0a0e6e70, 0x0e987660_934142f6, 0x27b70a85_46d22ffc, 0xa4af2cfd_09fbb924, 0x2e1b2138_5c26c926, 0xad289e2e_0bd53186, 0x4d2c6dfc_5ac42aed, 0x3c74563a_a2f9673e)
  {
    At(w, 16, W1, 14);
    At(w, 16, W1, 15);
    At(w, 32, W2, 0);
    At(w, 32, W2, 1);
    At(w, 32, W2, 2);
  }

  lemma Feeds35(w: seq<bv64>, t: nat)
    requires Values(w) && t == 35
    ensures Feeds(KK, w, t, 0x53380d13_9d95b3df, 0x6ccdcd14_cc14b53f, 0x650a7354_8baf63de, 0xc3f925b3_37f22bde, 0x766a0abb_3c77b2a8, 0x5bcc77a7_5ad95b54, 0x81c2c92e_47edaee6, 0x3ec2257a_dca09a52, 0x92722c85_1482353b, 0x28246960_001fc5eb)
  {
    At(w, 32, W2, 3);
    At(w, 32, W2, 4);
    At(w, 32, W2, 5);
    At(w, 32, W2, 6);
    At(w, 32, W2, 7);
  }

  lemma Feeds40(w: seq<bv64>, t: nat)
    requires Values(w) && t == 40
    ensures Feeds(KK, w, t, 0xa2bfe8a1_4cf10364, 0x04e33a75_ce2be88a, 0xa81a664b_bc423001, 0x7d5314b3_c359e0e7, 0xc24b8b70_d0f89791, 0xaef7a285_ff251266, 0xc76c51a3_0654be30, 0x0b847258_1deea04f, 0xd192e819_d6ef5218, 0xb174e26e_ddc7b033)
  {
    At(w, 32, W2, 8);
    At(w, 32, W2, 9);
    At(w, 32, W2, 10);
    At(w, 32, W2, 11);
    At(w, 32, W2, 12);
  }

  lemma Feeds45(w: seq<bv64>, t: nat)
    requires Values(w) && t == 45
    ensures Feeds(KK, w, t, 0xd6990624_5565a910, 0x5d63bae5_8ddd88de, 0xf40e3585_5771202a, 0x4c044007_b744ccbb, 0x106aa070_32bbd1b8, 0xe6a9aa4d_74dc7d43, 0x19a4c116_b8d2d0c8, 0xebeaf123_7248019c, 0x1e376c08_5141ab53, 0x361e80b2_d00f3193)
  {
    At(w, 32, W2, 13);
    At(w, 32, W2, 14);
    At(w, 32, W2, 15);
    At(w, 48, W3, 0);
    At(w, 48, W3, 1);
  }

  lemma Feeds50(w: seq<bv64>, t: nat)
    requires Values(w) && t == 50
    ensures Feeds(KK, w, t, 0x2748774c_df8eeb99, 0x2e983912_5df3b175, 0x34b0bcb5_e19b48a8, 0x33196292_93ad5363, 0x391c0cb3_c5c95a63, 0x9cbc5d89_ac1b89d5, 0x4ed8aa4a_e3418acb, 0x275e23ff_eeca50b7, 0x5b9cca4f_7763e373, 0x3b80d680_bf69ef58)
  {
    At(w, 48, W3, 2);
    At(w, 48, W3, 3);
    At(w, 48, W3, 4);
    At(w, 48, W3, 5);
    At(w, 48, W3, 6);
  }

  lemma Feeds55(w: seq<bv64>, t: nat)
    requires Values(w) && t == 55
    ensures Feeds(KK, w, t, 0x682e6ff3_d6b2b8a3, 0x0d069693_3945a125, 0x748f82ee_5defb2fc, 0x7533eabc_b786ff00, 0x78a5636f_43172f60, 0xb89826ce_e6fbf0e5, 0x84c87814_a1f0ab72, 0x249b4fbc_ad623e9f, 0x8cc70208_1a6439ec, 0x4aea9df2_b02d6f1e)
  {
    At(w, 48, W3, 7);
    At(w, 48, W3, 8);
    At(w, 48, W3, 9);
    At(w, 48, W3, 10);
    At(w, 48, W3, 11);
  }

  lemma Feeds60(w: seq<bv64>, t: nat)
    requires Values(w) && t == 60
    ensures Feeds(KK, w, t, 0x90befffa_23631e28, 0x2cc57475_a55e8d8f, 0xa4506ceb_de82bde9, 0xb2574ae9_38d8be89, 0xbef9a3f7_b2c67915, 0xc1b35a57_b16d6aea, 0xc67178f2_e372532b, 0xcc4918b5_949206bb, 0xca273ece_ea26619c, 0x5099c3ad_d79f90ec)
  {
    At(w, 48, W3, 12);
    At(w, 48, W3, 13);
    At(w, 48, W3, 14);
    At(w, 48, W3, 15);
    At(w, 64, W4, 0);
  }

  lemma Feeds65(w: seq<bv64>, t: nat)
    requires Values(w) && t == 65
    ensures Feeds(KK, w, t, 0xd186b8c7_21c0c207, 0x5ea81d78_e7660bf1, 0xeada7dd6_cde0eb1e, 0xebee6267_405ac2a9, 0xf57d4f7f_ee6ed178, 0xb01f2192_6108a4ab, 0x06f067aa_72176fba, 0x786433dd_2fe65556, 0x0a637dc5_a2c898a6, 0xc54a6eaa_24a0552c)
  {
    At(w, 64, W4, 1);
    At(w, 64, W4, 2);
    At(w, 64, W4, 3);
    At(w, 64, W4, 4);
    At(w, 64, W4, 5);
  }

  lemma Feeds70(w: seq<bv64>, t: nat)
    requires Values(w) && t == 70
    ensures Feeds(KK, w, t, 0x113f9804_bef90dae, 0xb3c8f153_0bdbaa9e, 0x1b710b35_131c471b, 0xbb8abfe5_6f469338, 0x28db77f5_23047d84, 0xf63d4265_cc1c5a78, 0x32caab7b_40c72493, 0xbe8355ea_73129afb, 0x3c9ebe0a_15c9bebc, 0x49e2db8e_bdcfbeb5)
  {
    At(w, 64, W4, 6);
    At(w, 64, W4, 7);
    At(w, 64, W4, 8);
    At(w, 64, W4, 9);
    At(w, 64, W4, 10);
  }

  lemma Feeds75(w: seq<bv64>, t: nat)
    requires Values(w) && t == 75
    ensures Feeds(KK, w, t, 0x431d67c4_9c100d4c, 0x82269d4a_883a3d99, 0x4cc5d4be_cb3e42b6, 0xfdf53df3_011f362b, 0x597f299c_fc657e2a, 0x464af567_1d71c12e, 0x5fcb6fab_3ad6faec, 0xe449b681_98ec611c, 0x6c44198c_4a475817, 0x92aeeed1_a7bcf7d2)
  {
    At(w, 64, W4, 11);
    At(w, 64, W4, 12);
    At(w, 64, W4, 13);
    At(w, 64, W4, 14);
    At(w, 64, W4, 15);
  }

  /** The hash of "abc". */
  lemma Abc(block: seq<bv64>)
    requires block == W0
    ensures Hash(KK, block) == Words(0xddaf35a1_93617aba, 0xcc417349_ae204131, 0x12e6fa4e_89a97ea2, 0x0a9eeee6_4b55d39a, 0x2192992a_274fc1a8, 0x36ba3c23_a3feebbd, 0x454d4423_643ce80e, 0x2a9ac94f_a54ca49f)
  {
    var w := Schedule(block);
    ScheduleValues(w);
    var t := 0;
    Feeds0(w, t);
    Rounds0(KK, w, t);
    t := t + 5;
    Feeds5(w, t);
    Rounds5(KK, w, t);
    t := t + 5;
    Feeds10(w, t);
    Rounds10(KK, w, t);
    t := t + 5;
    Feeds15(w, t);
    Rounds15(KK, w, t);
    t := t + 5;
    Feeds20(w, t);
    Rounds20(KK, w, t);
    t := t + 5;
    Feeds25(w, t);
    Rounds25(KK, w, t);
    t := t + 5;
    Feeds30(w, t);
    Rounds30(KK, w, t);
    t := t + 5;
    Feeds35(w, t);
    Rounds35(KK, w, t);
    t := t + 5;
    Feeds40(w, t);
    Rounds40(KK, w, t);
    t := t + 5;
    Feeds45(w, t);
    Rounds45(KK, w, t);
    t := t + 5;
    Feeds50(w, t);
    Rounds50(KK, w, t);
    t := t + 5;
    Feeds55(w, t);
    Rounds55(KK, w, t);
    t := t + 5;
    Feeds60(w, t);
    Rounds60(KK, w, t);
    t := t + 5;
    Feeds65(w, t);
    Rounds65(KK, w, t);
    t := t + 5;
    Feeds70(w, t);
    Rounds70(KK, w, t);
    t := t + 5;
    Feeds75(w, t);
    Rounds75(KK, w, t);
    t := t + 5;
  }
}
