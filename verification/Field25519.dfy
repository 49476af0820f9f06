/** Arithmetic modulo p = 2^255 - 19 in Ed25519.sol: the addition chain for powers, inversion, the
    square root of point decoding (section 5.1.3 of RFC 8032) and batch inversion. Every `mulmod` of
    the contract is `(x * y) % p` here. */
module Field25519 {
  import opened Prelude
  import opened Arithmetic

  type pos = x: nat | 0 < x witness 1

  /** `mulmod(x, y, p)`. */
  function Mul(p: pos, x: nat, y: nat): (r: nat)
    ensures r < p
  {
    (x * y) % p
  }

  /** `x` is `v` to the `e`-th, reduced. */
  ghost predicate IsPower(p: pos, x: nat, v: nat, e: nat) {
    x == Pow(v, e) % p
  }

  lemma MulPower(p: pos, x: nat, y: nat, v: nat, a: nat, b: nat)
    requires IsPower(p, x, v, a) && IsPower(p, y, v, b)
    ensures IsPower(p, Mul(p, x, y), v, a + b)
  {
    PowAdd(v, a, b);
    ModMul(Pow(v, a), Pow(v, b), p);
  }

  /** A run of `n` squarings; the contract has them unrolled. */
  method Square(p: pos, x: nat, n: nat, ghost v: nat, ghost e: nat) returns (r: nat)
    requires IsPower(p, x, v, e)
    ensures IsPower(p, r, v, e * Pow2(n))
  {
    r := x;
    for i := 0 to n
      invariant IsPower(p, r, v, e * Pow2(i))
    {
      MulPower(p, r, r, v, e * Pow2(i), e * Pow2(i));
      r := Mul(p, r, r);
      assert e * Pow2(i) + e * Pow2(i) == e * Pow2(i + 1);
    }
  }

  /** One product of the chain. */
  method Product(p: pos, x: nat, y: nat, ghost v: nat, ghost a: nat, ghost b: nat) returns (r: nat)
    requires IsPower(p, x, v, a) && IsPower(p, y, v, b)
    ensures r == Mul(p, x, y) && IsPower(p, r, v, a + b)
  {
    MulPower(p, x, y, v, a, b);
    r := Mul(p, x, y);
  }

  lemma BasePower(p: pos, v: nat)
    ensures IsPower(p, v % p, v, 1)
  {
    assert Pow(v, 1) == v * Pow(v, 0) == v;
  }

  /** One product with the base itself, which need not be reduced. */
  method TimesBase(p: pos, x: nat, v: nat, ghost a: nat) returns (r: nat)
    requires IsPower(p, x, v, a)
    ensures r == Mul(p, x, v) && IsPower(p, r, v, a + 1)
  {
    BasePower(p, v);
    MulPower(p, x, v % p, v, a, 1);
    CongMod(Pow(v, a), p);
    CongMod(v, p);
    CongMul(x, x, v % p, v, p);
    r := Mul(p, x, v);
  }

  /** The chain up to `v^31` and `v^11`. */
  method ChainStart(p: pos, v: nat) returns (p31: nat, p11: nat)
    ensures IsPower(p, p31, v, 31) && IsPower(p, p11, v, 11)
  {
    p11 := Mul(p, v, v);
    assert IsPower(p, p11, v, 2) by {
      assert Pow(v, 2) == v * Pow(v, 1) == v * (v * Pow(v, 0)) == v * v;
    }
    var p4 := Product(p, p11, p11, v, 2, 2);
    var p8 := Product(p, p4, p4, v, 4, 4);
    var p9 := TimesBase(p, p8, v, 8);
    p11 := Product(p, p9, p11, v, 9, 2);
    var p22 := Product(p, p11, p11, v, 11, 11);
    p31 := Product(p, p22, p9, v, 22, 9);
  }

  /** The chain for `v^(2^250 - 1)` and `v^11`. */
  method Pow22501(p: pos, v: nat) returns (p22501: nat, p11: nat)
    ensures p22501 == Pow(v, Pow2(250) - 1) % p
    ensures p11 == Pow(v, 11) % p
  {
    p22501, p11 := ChainStart(p, v);
    assert Pow2(5) == 32;
    p22501 := ChainOn(p, p22501, v, 5);
  }

  /** The rest of the chain, from `v^(2^n - 1)` to `v^(2^(50 * n) - 1)`, for runs of `n`, `2 * n`, `4 * n`,
      `10 * n` and `20 * n` squarings. */
  method ChainOn(p: pos, x: nat, ghost v: nat, n: nat) returns (p22501: nat)
    requires IsPower(p, x, v, Pow2(n) - 1)
    ensures IsPower(p, p22501, v, Pow2(50 * n) - 1)
  {
    p22501 := Chain(p, x, x, v, n, n, 2 * n);
    var a := Chain(p, p22501, p22501, v, 2 * n, 2 * n, 4 * n);
    a := Chain(p, a, a, v, 4 * n, 4 * n, 8 * n);
    p22501 := Chain(p, a, p22501, v, 8 * n, 2 * n, 10 * n);
    a := Chain(p, p22501, p22501, v, 10 * n, 10 * n, 20 * n);
    a := Chain(p, a, a, v, 20 * n, 20 * n, 40 * n);
    p22501 := Chain(p, a, p22501, v, 40 * n, 10 * n, 50 * n);
  }

  /** From `v^(2^x - 1)` and `v^(2^y - 1)` to `v^(2^(x + y) - 1)`: `y` squarings and a product. */
  method Chain(p: pos, hi: nat, lo: nat, ghost v: nat, ghost x: nat, y: nat, ghost z: nat) returns (r: nat)
    requires z == x + y && IsPower(p, hi, v, Pow2(x) - 1) && IsPower(p, lo, v, Pow2(y) - 1)
    ensures IsPower(p, r, v, Pow2(z) - 1)
  {
    var a := Square(p, hi, y, v, Pow2(x) - 1);
    AllOnes(x, y);
    MulPower(p, lo, a, v, Pow2(y) - 1, (Pow2(x) - 1) * Pow2(y));
    r := Mul(p, lo, a);
  }

  // ----- inversion -----

  /** The modulus, p = 2^255 - 19. */
  ghost predicate Is25519(p: nat) {
    p == Pow2(255) - 19
  }

  /** `x^(p - 2)`: five more squarings and the eleventh power. */
  method Invert(p: pos, x: nat) returns (r: nat)
    requires Is25519(p)
    ensures r == Pow(x, p - 2) % p
  {
    var t: nat;
    r, t := Pow22501(p, x);
    r := Square(p, r, 5, x, Pow2(250) - 1);
    Pow2Add(250, 5);
    assert Pow2(5) == 32;
    assert (Pow2(250) - 1) * 32 == Pow2(255) - 32;
    r := Product(p, r, t, x, (Pow2(250) - 1) * Pow2(5), 11);
  }

  /** What Fermat's little theorem says of a number that is not a multiple of the prime p. */
  ghost predicate Unit(p: pos, x: nat) {
    Pow(x, p - 1) % p == 1
  }

  /** The result of `Invert` is the inverse. */
  lemma InvertIsInverse(p: pos, x: nat, r: nat)
    requires p > 1 && Unit(p, x) && r == Pow(x, p - 2) % p
    ensures Mul(p, x, r) == 1 && Mul(p, r, x) == 1
  {
    assert Pow(x, p - 1) == x * Pow(x, p - 2);
    ModMul(x, Pow(x, p - 2), p);
    ModMul(x, r, p);
    CongMod(Pow(x, p - 2), p);
  }
}
