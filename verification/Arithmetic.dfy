/** Powers, and arithmetic modulo a number. */
module Arithmetic {

  function Pow(b: nat, e: nat): nat {
    if e == 0 then 1 else b * Pow(b, e - 1)
  }

  function Pow2(k: nat): (r: nat)
    ensures r > 0
  {
    if k == 0 then 1 else 2 * Pow2(k - 1)
  }

  lemma Associate(x: int, y: int, z: int)
    ensures x * (y * z) == (x * y) * z
  {
  }

  lemma {:induction false} PowAdd(b: nat, x: nat, y: nat)
    ensures Pow(b, x + y) == Pow(b, x) * Pow(b, y)
    decreases x
  {
    if x > 0 {
      PowAdd(b, x - 1, y);
      Associate(b, Pow(b, x - 1), Pow(b, y));
      assert Pow(b, x + y) == b * Pow(b, x - 1 + y);
    }
  }

  lemma {:induction false} Pow2Add(x: nat, y: nat)
    ensures Pow2(x + y) == Pow2(x) * Pow2(y)
    decreases x
  {
    if x > 0 {
      Pow2Add(x - 1, y);
      Associate(2, Pow2(x - 1), Pow2(y));
      assert Pow2(x + y) == 2 * Pow2(x - 1 + y);
    }
  }

  // ----- residues -----

  lemma MulAtLeast(d: int, m: int)
    requires d >= 1 && m >= 0
    ensures d * m >= m
  {
    assert d * m == (d - 1) * m + m;
  }

  lemma DivUnique(q: int, r: int, q': int, r': int, m: int)
    requires 0 <= r < m && 0 <= r' < m && q * m + r == q' * m + r'
    ensures q == q' && r == r'
  {
    if q > q' {
      MulAtLeast(q - q', m);
    } else if q < q' {
      MulAtLeast(q' - q, m);
    }
  }

  /** Quotient and remainder are determined by `x == q * m + r`. */
  lemma ModUnique(q: int, r: int, m: int)
    requires 0 <= r < m
    ensures (q * m + r) % m == r && (q * m + r) / m == q
  {
    var x := q * m + r;
    DivUnique(q, r, x / m, x % m, m);
  }

  lemma ModShift(x: int, k: int, m: int)
    requires m > 0
    ensures (x + k * m) % m == x % m
  {
    assert x + k * m == (x / m + k) * m + x % m;
    ModUnique(x / m + k, x % m, m);
  }

  lemma ModMul(x: int, y: int, m: int)
    requires m > 0
    ensures ((x % m) * (y % m)) % m == (x * y) % m
  {
    var a, b := x / m, y / m;
    var r, s := x % m, y % m;
    assert x * y == (a * m + r) * (b * m + s);
    assert (a * m + r) * (b * m + s) == r * s + (a * b * m + a * s + r * b) * m;
    ModShift(r * s, a * b * m + a * s + r * b, m);
  }

  lemma ModAdd(x: int, y: int, m: int)
    requires m > 0
    ensures (x % m + y % m) % m == (x + y) % m
  {
    assert x + y == (x % m + y % m) + (x / m + y / m) * m;
    ModShift(x % m + y % m, x / m + y / m, m);
  }

  /** Congruence modulo `m`. */
  predicate Cong(x: int, y: int, m: int)
    requires m > 0
  {
    x % m == y % m
  }

  lemma CongMul(x: int, x': int, y: int, y': int, m: int)
    requires m > 0 && Cong(x, x', m) && Cong(y, y', m)
    ensures Cong(x * y, x' * y', m)
  {
    ModMul(x, y, m);
    ModMul(x', y', m);
  }

  lemma CongAdd(x: int, x': int, y: int, y': int, m: int)
    requires m > 0 && Cong(x, x', m) && Cong(y, y', m)
    ensures Cong(x + y, x' + y', m)
  {
    ModAdd(x, y, m);
    ModAdd(x', y', m);
  }

  lemma CongMod(x: int, m: int)
    requires m > 0
    ensures Cong(x % m, x, m)
  {
    ModUnique(0, x % m, m);
  }

  /** Adding one more run of doublings: `(2^x - 1) * 2^y + (2^y - 1) == 2^(x + y) - 1`. */
  lemma AllOnes(x: nat, y: nat)
    ensures (Pow2(x) - 1) * Pow2(y) + (Pow2(y) - 1) == Pow2(x + y) - 1
  {
    Pow2Add(x, y);
    assert (Pow2(x) - 1) * Pow2(y) == Pow2(x) * Pow2(y) - Pow2(y);
  }

  lemma CongSub(x: int, x': int, y: int, y': int, m: int)
    requires m > 0 && Cong(x, x', m) && Cong(y, y', m)
    ensures Cong(x - y, x' - y', m)
  {
    var k := (x / m - x' / m) - (y / m - y' / m);
    assert x - y == (x' - y') + k * m;
    ModShift(x' - y', k, m);
  }
}
