/** The Borsh encoding as the contracts read it: little-endian numbers, counted byte strings and lists.
    `Parse...` are the decoders as functions of the buffer and an offset, `...Bytes` the canonical encoding.
    A decoder and an encoding are `Exact` when each undoes the other. */
module Borsh {
  import opened Prelude
  import opened NearTypes

  /** A decoded value and the offset after it; `None` is a revert. */
  type Parsed<+T> = Option<(T, nat)>

  /** `e` lies in the buffer at `o`. */
  ghost predicate At(raw: Bytes, o: nat, e: Bytes) {
    o + |e| <= |raw| && raw[o..o + |e|] == e
  }

  lemma AtSplit(raw: Bytes, o: nat, a: Bytes, b: Bytes)
    ensures At(raw, o, a + b) <==> At(raw, o, a) && At(raw, o + |a|, b)
  {
    if o + |a| + |b| <= |raw| {
      var s := raw[o..o + |a| + |b|];
      assert s[..|a|] == raw[o..o + |a|];
      assert s[|a|..] == raw[o + |a|..o + |a| + |b|];
      assert s == s[..|a|] + s[|a|..];
      assert (a + b)[..|a|] == a && (a + b)[|a|..] == b;
    }
  }

  lemma AtWhole(raw: Bytes)
    ensures At(raw, 0, raw)
  {
    assert raw[0..0 + |raw|] == raw;
  }

  /** At offset `o` the decoder yields `v` exactly when the encoding of `v` lies there, and it stops at its end. */
  ghost predicate Reads<T>(p: Parsed<T>, raw: Bytes, o: nat, e: Bytes, v: T) {
    && (At(raw, o, e) ==> p == Some((v, o + |e|)))
    && (p.Some? && p.value.0 == v ==> At(raw, o, e))
  }

  // ----- little-endian numbers -----

  function Base(n: nat): (r: nat)
    ensures r > 0
  {
    if n == 0 then 1 else 256 * Base(n - 1)
  }

  function LeBytes(n: nat, x: nat): (s: Bytes)
    ensures |s| == n
    decreases n, x
  {
    if n == 0 then [] else [x % 256] + LeBytes(n - 1, x / 256)
  }

  function LeValue(s: Bytes): nat {
    if s == [] then 0 else s[0] + 256 * LeValue(s[1..])
  }

  lemma {:induction false} LeBound(s: Bytes)
    ensures LeValue(s) < Base(|s|)
  {
    if s != [] {
      LeBound(s[1..]);
    }
  }

  lemma {:induction false} LeReads(s: Bytes, x: nat)
    requires x < Base(|s|)
    ensures LeValue(s) == x <==> s == LeBytes(|s|, x)
    decreases |s|
  {
    if s != [] {
      LeReads(s[1..], x / 256);
      LeBound(s[1..]);
      if LeValue(s) == x {
        assert x % 256 == s[0] && x / 256 == LeValue(s[1..]);
        assert s == [s[0]] + s[1..];
      }
    }
  }

  /** A number in two halves. */
  lemma {:induction false} LeConcat(a: Bytes, b: Bytes)
    ensures LeValue(a + b) == LeValue(a) + Base(|a|) * LeValue(b)
  {
    if a == [] {
      assert a + b == b;
    } else {
      assert (a + b)[1..] == a[1..] + b;
      LeConcat(a[1..], b);
      assert 256 * (Base(|a| - 1) * LeValue(b)) == (256 * Base(|a| - 1)) * LeValue(b);
    }
  }

  lemma {:induction false} BaseAdd(m: nat, n: nat)
    ensures Base(m + n) == Base(m) * Base(n)
  {
    if m > 0 {
      BaseAdd(m - 1, n);
      assert 256 * (Base(m - 1) * Base(n)) == (256 * Base(m - 1)) * Base(n);
    }
  }

  lemma Bases()
    ensures Base(1) == 0x100 && Base(2) == 0x1_0000 && Base(4) == 0x1_0000_0000
    ensures Base(8) == MAX_U64 + 1 && Base(16) == MAX_U128 + 1 && Base(32) == MAX_U256 + 1
  {
    assert Base(1) == 256 * Base(0) && Base(2) == 256 * Base(1);
    BaseAdd(2, 2);
    BaseAdd(4, 4);
    BaseAdd(8, 8);
    BaseAdd(16, 16);
  }

  /** The numbers of each width. */
  lemma Fits4(x: nat)
    ensures x <= MAX_U32 <==> x < Base(4)
  {
    Bases();
  }

  lemma Fits8(x: nat)
    ensures x <= MAX_U64 <==> x < Base(8)
  {
    Bases();
  }

  lemma Fits16(x: nat)
    ensures x <= MAX_U128 <==> x < Base(16)
  {
    Bases();
  }

  lemma Fits32(x: nat)
    ensures x <= MAX_U256 <==> x < Base(32)
  {
    Bases();
  }

  function ParseUint(n: nat, raw: Bytes, o: nat): (p: Parsed<nat>)
    ensures p.Some? ==> p.value.0 < Base(n)
  {
    if o + n <= |raw| then
      LeBound(raw[o..o + n]);
      Some((LeValue(raw[o..o + n]), o + n))
    else None
  }

  lemma UintReads(n: nat, raw: Bytes, o: nat, x: nat)
    requires x < Base(n)
    ensures Reads(ParseUint(n, raw, o), raw, o, LeBytes(n, x), x)
  {
    if o + n <= |raw| {
      LeReads(raw[o..o + n], x);
    }
  }

  lemma U32Reads(raw: Bytes, o: nat, x: nat)
    requires x <= MAX_U32
    ensures Reads(ParseUint(4, raw, o), raw, o, LeBytes(4, x), x)
  {
    Fits4(x);
    UintReads(4, raw, o, x);
  }

  lemma U64Reads(raw: Bytes, o: nat, x: U64)
    ensures Reads(ParseUint(8, raw, o), raw, o, LeBytes(8, x), x)
  {
    Fits8(x);
    UintReads(8, raw, o, x);
  }

  lemma U128Reads(raw: Bytes, o: nat, x: U128)
    ensures Reads(ParseUint(16, raw, o), raw, o, LeBytes(16, x), x)
  {
    Fits16(x);
    UintReads(16, raw, o, x);
  }

  lemma U256Reads(raw: Bytes, o: nat, x: U256)
    ensures Reads(ParseUint(32, raw, o), raw, o, LeBytes(32, x), x)
  {
    Fits32(x);
    UintReads(32, raw, o, x);
  }

  /** Two numbers in a row make one of twice the size. */
  lemma UintHalves(n: nat, raw: Bytes, o: nat)
    ensures ParseUint(n + n, raw, o).Some? <==> ParseUint(n, raw, o).Some? && ParseUint(n, raw, o + n).Some?
    ensures ParseUint(n + n, raw, o).Some? ==>
              ParseUint(n + n, raw, o).value.0 ==
                ParseUint(n, raw, o).value.0 + Base(n) * ParseUint(n, raw, o + n).value.0
  {
    if o + n + n <= |raw| {
      assert raw[o..o + n + n] == raw[o..o + n] + raw[o + n..o + n + n];
      LeConcat(raw[o..o + n], raw[o + n..o + n + n]);
    }
  }

  /** A number from its halves in base `b`. */
  function FromHalves(b: nat, lo: nat, hi: nat): nat { lo + b * hi }

  /** A decoded number is made of the two decoded in a row. */
  ghost predicate Joins(p: Parsed<nat>, lo: Parsed<nat>, hi: Parsed<nat>, b: nat) {
    p == if lo.None? || hi.None? then None else Some((FromHalves(b, lo.value.0, hi.value.0), hi.value.1))
  }

  lemma HalvesJoin(n: nat, b: nat, raw: Bytes, o: nat)
    requires b == Base(n)
    ensures Joins(ParseUint(n + n, raw, o), ParseUint(n, raw, o), ParseUint(n, raw, o + n), b)
  {
    UintHalves(n, raw, o);
  }

  // The widths that occur.
  lemma Halves1(raw: Bytes, o: nat)
    ensures Joins(ParseUint(2, raw, o), ParseUint(1, raw, o), ParseUint(1, raw, o + 1), 0x100)
  {
    Bases();
    HalvesJoin(1, 0x100, raw, o);
  }

  lemma Halves2(raw: Bytes, o: nat)
    ensures Joins(ParseUint(4, raw, o), ParseUint(2, raw, o), ParseUint(2, raw, o + 2), 0x1_0000)
  {
    Bases();
    HalvesJoin(2, 0x1_0000, raw, o);
  }

  lemma Halves4(raw: Bytes, o: nat)
    ensures Joins(ParseUint(8, raw, o), ParseUint(4, raw, o), ParseUint(4, raw, o + 4), 0x1_0000_0000)
  {
    Bases();
    HalvesJoin(4, 0x1_0000_0000, raw, o);
  }

  lemma Halves8(raw: Bytes, o: nat)
    ensures Joins(ParseUint(16, raw, o), ParseUint(8, raw, o), ParseUint(8, raw, o + 8), MAX_U64 + 1)
  {
    Bases();
    HalvesJoin(8, MAX_U64 + 1, raw, o);
  }

  lemma Halves16(raw: Bytes, o: nat)
    ensures Joins(ParseUint(32, raw, o), ParseUint(16, raw, o), ParseUint(16, raw, o + 16), MAX_U128 + 1)
  {
    Bases();
    HalvesJoin(16, MAX_U128 + 1, raw, o);
  }

  // ----- fixed blocks and counted byte strings -----

  function ParseBlock(n: nat, raw: Bytes, o: nat): (p: Parsed<Bytes>)
    ensures p.Some? ==> |p.value.0| == n
  {
    if o + n <= |raw| then Some((raw[o..o + n], o + n)) else None
  }

  function ParseBytes32(raw: Bytes, o: nat): (p: Parsed<Bytes32>)
    ensures p.Some? ==> p.value.1 == o + 32
  {
    if o + 32 <= |raw| then Some((raw[o..o + 32], o + 32)) else None
  }

  function ParseU8(raw: Bytes, o: nat): Parsed<Byte> {
    if o < |raw| then Some((raw[o], o + 1)) else None
  }

  lemma Bytes32Reads(raw: Bytes, o: nat, v: Bytes32)
    ensures Reads(ParseBytes32(raw, o), raw, o, v, v)
  {
  }

  lemma U8Reads(raw: Bytes, o: nat, v: Byte)
    ensures Reads(ParseU8(raw, o), raw, o, [v], v)
  {
    if o < |raw| {
      assert raw[o..o + 1] == [raw[o]];
    }
  }

  function ParseBytes(raw: Bytes, o: nat): Parsed<Bytes> {
    var (n, o') :- ParseUint(4, raw, o);
    ParseBlock(n, raw, o')
  }

  /** A byte string of more than 2^32 - 1 bytes has no encoding. */
  function BytesBytes(v: Bytes): Bytes {
    LeBytes(4, |v|) + v
  }

  lemma BytesReads(raw: Bytes, o: nat, v: Bytes)
    requires |v| <= MAX_U32
    ensures Reads(ParseBytes(raw, o), raw, o, BytesBytes(v), v)
  {
    U32Reads(raw, o, |v|);
    AtSplit(raw, o, LeBytes(4, |v|), v);
    var p := ParseBytes(raw, o);
    if p.Some? && p.value.0 == v {
      assert ParseUint(4, raw, o) == Some((|v|, o + 4));
    }
  }

  // ----- lists -----

  type Parser<!T> = (Bytes, nat) -> Parsed<T>
  type Printer<!T> = T -> Bytes

  /** `n` items in a row. */
  function ParseItems<T>(f: Parser<T>, raw: Bytes, o: nat, n: nat): (p: Parsed<seq<T>>)
    ensures p.Some? ==> |p.value.0| == n
  {
    if n == 0 then Some(([], o)) else
      var (vs, o') :- ParseItems(f, raw, o, n - 1);
      var (v, o'') :- f(raw, o');
      Some((vs + [v], o''))
  }

  function ItemsBytes<T>(g: Printer<T>, vs: seq<T>): Bytes {
    if vs == [] then [] else ItemsBytes(g, vs[..|vs| - 1]) + g(vs[|vs| - 1])
  }

  function ParseVec<T>(f: Parser<T>, raw: Bytes, o: nat): Parsed<seq<T>> {
    var (n, o') :- ParseUint(4, raw, o);
    ParseItems(f, raw, o', n)
  }

  function VecBytes<T>(g: Printer<T>, vs: seq<T>): Bytes {
    LeBytes(4, |vs|) + ItemsBytes(g, vs)
  }

  ghost predicate ItemReads<T>(f: Parser<T>, g: Printer<T>, raw: Bytes, o: nat, v: T) {
    Reads(f(raw, o), raw, o, g(v), v)
  }

  /** Every value of the list is read wherever its encoding lies. */
  ghost predicate AllRead<T(!new)>(f: Parser<T>, g: Printer<T>, raw: Bytes, vs: seq<T>) {
    forall o: nat, v {:trigger ItemReads(f, g, raw, o, v)} :: v in vs ==> ItemReads(f, g, raw, o, v)
  }

  lemma LastRead<T(!new)>(f: Parser<T>, g: Printer<T>, raw: Bytes, o: nat, init: seq<T>, last: T)
    requires AllRead(f, g, raw, init + [last])
    ensures AllRead(f, g, raw, init) && ItemReads(f, g, raw, o, last)
  {
    assert last in init + [last];
    forall o: nat, v {:trigger ItemReads(f, g, raw, o, v)} | v in init
      ensures ItemReads(f, g, raw, o, v)
    {
      assert v in init + [last];
    }
  }

  lemma ItemsSnoc<T>(f: Parser<T>, g: Printer<T>, raw: Bytes, o: nat, init: seq<T>, last: T)
    ensures ItemsBytes(g, init + [last]) == ItemsBytes(g, init) + g(last)
    ensures var p := ParseItems(f, raw, o, |init|);
      if p.None? then ParseItems(f, raw, o, |init| + 1).None? else
        var q := f(raw, p.value.1);
        if q.None? then ParseItems(f, raw, o, |init| + 1).None?
        else ParseItems(f, raw, o, |init| + 1) == Some((p.value.0 + [q.value.0], q.value.1))
  {
    var vs := init + [last];
    assert vs[..|vs| - 1] == init;
  }

  lemma {:induction false} ItemsRead<T(!new)>(f: Parser<T>, g: Printer<T>, raw: Bytes, o: nat, vs: seq<T>)
    requires AllRead(f, g, raw, vs) && o <= |raw|
    ensures Reads(ParseItems(f, raw, o, |vs|), raw, o, ItemsBytes(g, vs), vs)
    decreases |vs|
  {
    if vs != [] {
      var init, last := vs[..|vs| - 1], vs[|vs| - 1];
      assert vs == init + [last];
      var e := ItemsBytes(g, init);
      LastRead(f, g, raw, o + |e|, init, last);
      ItemsRead(f, g, raw, o, init);
      ItemsSnoc(f, g, raw, o, init, last);
      ReadSnoc(f, g, raw, o, init, last, e, ParseItems(f, raw, o, |init|), ParseItems(f, raw, o, |vs|));
    }
  }

  /** One more value, given what the decoder yields for the others and for all. */
  lemma ReadSnoc<T(!new)>(f: Parser<T>, g: Printer<T>, raw: Bytes, o: nat, init: seq<T>, last: T, e: Bytes,
                          p: Parsed<seq<T>>, all: Parsed<seq<T>>)
    requires Reads(p, raw, o, e, init) && ItemReads(f, g, raw, o + |e|, last) && (p.Some? ==> |p.value.0| == |init|)
    requires if p.None? then all.None? else
               var q := f(raw, p.value.1);
               if q.None? then all.None? else all == Some((p.value.0 + [q.value.0], q.value.1))
    ensures Reads(all, raw, o, e + g(last), init + [last])
  {
    AtSplit(raw, o, e, g(last));
    if p.Some? && f(raw, p.value.1).Some? {
      SnocInjective(p.value.0, f(raw, p.value.1).value.0, init, last);
    }
  }

  lemma SnocInjective<T>(a: seq<T>, x: T, b: seq<T>, y: T)
    requires |a| == |b|
    ensures a + [x] == b + [y] <==> a == b && x == y
  {
    assert (a + [x])[..|a|] == a && (b + [y])[..|b|] == b;
    assert (a + [x])[|a|] == x && (b + [y])[|b|] == y;
  }

  lemma VecReads<T(!new)>(f: Parser<T>, g: Printer<T>, raw: Bytes, o: nat, vs: seq<T>)
    requires |vs| <= MAX_U32 && AllRead(f, g, raw, vs)
    ensures Reads(ParseVec(f, raw, o), raw, o, VecBytes(g, vs), vs)
  {
    U32Reads(raw, o, |vs|);
    if o + 4 <= |raw| {
      ItemsRead(f, g, raw, o + 4, vs);
    }
    AtSplit(raw, o, LeBytes(4, |vs|), ItemsBytes(g, vs));
    var p := ParseVec(f, raw, o);
    if p.Some? && p.value.0 == vs {
      assert ParseUint(4, raw, o) == Some((|vs|, o + 4));
      assert ParseItems(f, raw, o + 4, |vs|) == Some((vs, p.value.1));
    }
  }

  ghost predicate ItemParses<T>(f: Parser<T>, g: Printer<T>, raw: Bytes, o: nat, v: T) {
    At(raw, o, g(v)) ==> f(raw, o) == Some((v, o + |g(v)|))
  }

  ghost predicate AllParse<T(!new)>(f: Parser<T>, g: Printer<T>, raw: Bytes, vs: seq<T>) {
    forall o: nat, v {:trigger ItemParses(f, g, raw, o, v)} :: v in vs ==> ItemParses(f, g, raw, o, v)
  }

  lemma LastParse<T(!new)>(f: Parser<T>, g: Printer<T>, raw: Bytes, o: nat, init: seq<T>, last: T)
    requires AllParse(f, g, raw, init + [last])
    ensures AllParse(f, g, raw, init) && ItemParses(f, g, raw, o, last)
  {
    assert last in init + [last];
    forall o: nat, v {:trigger ItemParses(f, g, raw, o, v)} | v in init
      ensures ItemParses(f, g, raw, o, v)
    {
      assert v in init + [last];
    }
  }

  /** The half of `VecReads` that holds when some value has several encodings. */
  lemma {:induction false} ItemsParse<T(!new)>(f: Parser<T>, g: Printer<T>, raw: Bytes, o: nat, vs: seq<T>)
    requires AllParse(f, g, raw, vs) && At(raw, o, ItemsBytes(g, vs))
    ensures ParseItems(f, raw, o, |vs|) == Some((vs, o + |ItemsBytes(g, vs)|))
    decreases |vs|
  {
    if vs != [] {
      var init, last := vs[..|vs| - 1], vs[|vs| - 1];
      assert vs == init + [last];
      var e := ItemsBytes(g, init);
      LastParse(f, g, raw, o + |e|, init, last);
      ItemsSnoc(f, g, raw, o, init, last);
      AtSplit(raw, o, e, g(last));
      ItemsParse(f, g, raw, o, init);
    }
  }

  lemma VecParse<T(!new)>(f: Parser<T>, g: Printer<T>, raw: Bytes, o: nat, vs: seq<T>)
    requires |vs| <= MAX_U32 && AllParse(f, g, raw, vs)
    requires At(raw, o, VecBytes(g, vs))
    ensures ParseVec(f, raw, o) == Some((vs, o + |VecBytes(g, vs)|))
  {
    U32Reads(raw, o, |vs|);
    AtSplit(raw, o, LeBytes(4, |vs|), ItemsBytes(g, vs));
    ItemsParse(f, g, raw, o + 4, vs);
  }

  /** Once a prefix of a list does not parse, the list does not. */
  lemma {:induction false} ItemsFail<T>(f: Parser<T>, raw: Bytes, o: nat, k: nat, n: nat)
    requires k <= n && ParseItems(f, raw, o, k).None?
    ensures ParseItems(f, raw, o, n).None?
    decreases n
  {
    if k < n {
      ItemsFail(f, raw, o, k, n - 1);
    }
  }

  // ----- codecs -----

  /** A decoder with the encoding it undoes, on the values that have one. */
  datatype Codec<!T> = Codec(decode: Parser<T>, encode: Printer<T>, ok: T -> bool)

  /** Decoding yields `v` exactly where its encoding lies; what it yields has an encoding and lies in the buffer. */
  ghost predicate ExactAt<T>(c: Codec<T>, raw: Bytes, o: nat, v: T) {
    && (c.ok(v) ==> Reads(c.decode(raw, o), raw, o, c.encode(v), v))
    && (c.decode(raw, o).Some? ==> c.ok(c.decode(raw, o).value.0))
  }

  ghost predicate Exact<T(!new)>(c: Codec<T>) {
    forall raw: Bytes, o: nat, v: T {:trigger ExactAt(c, raw, o, v)} :: ExactAt(c, raw, o, v)
  }

  /** One after the other. */
  function Pair<A, B>(c: Codec<A>, d: Codec<B>): Codec<(A, B)> {
    Codec((raw, o) => (var (a, o1) :- c.decode(raw, o); var (b, o2) :- d.decode(raw, o1); Some(((a, b), o2))),
          (v: (A, B)) => c.encode(v.0) + d.encode(v.1),
          (v: (A, B)) => c.ok(v.0) && d.ok(v.1))
  }

  lemma PairExact<A(!new), B(!new)>(c: Codec<A>, d: Codec<B>)
    requires Exact(c) && Exact(d)
    ensures Exact(Pair(c, d))
  {
    forall raw: Bytes, o: nat, v: (A, B) {:trigger ExactAt(Pair(c, d), raw, o, v)}
      ensures ExactAt(Pair(c, d), raw, o, v)
    {
      PairExactAt(c, d, raw, o, v.0, v.1);
    }
  }

  lemma PairExactAt<A(!new), B(!new)>(c: Codec<A>, d: Codec<B>, raw: Bytes, o: nat, a: A, b: B)
    requires Exact(c) && Exact(d)
    ensures ExactAt(Pair(c, d), raw, o, (a, b))
  {
    var p := c.decode(raw, o);
    AtSplit(raw, o, c.encode(a), d.encode(b));
    assert ExactAt(c, raw, o, a);
    assert ExactAt(d, raw, o + |c.encode(a)|, b);
    if p.Some? {
      assert ExactAt(c, raw, o, p.value.0);
      assert ExactAt(d, raw, p.value.1, b);
    }
  }

  /** A value rebuilt from its parts by `to`, which may compute further parts that `from` drops. */
  function Built<A, B(==)>(c: Codec<A>, to: A -> B, from: B -> A): Codec<B> {
    Codec((raw, o) => (var (a, o1) :- c.decode(raw, o); Some((to(a), o1))),
          v => c.encode(from(v)),
          v => c.ok(from(v)) && v == to(from(v)))
  }

  lemma BuiltExact<A(!new), B(!new)>(c: Codec<A>, to: A -> B, from: B -> A)
    requires Exact(c) && forall a {:trigger to(a)} :: from(to(a)) == a
    ensures Exact(Built(c, to, from))
  {
    forall raw: Bytes, o: nat, v: B {:trigger ExactAt(Built(c, to, from), raw, o, v)}
      ensures ExactAt(Built(c, to, from), raw, o, v)
    {
      var p := c.decode(raw, o);
      assert ExactAt(c, raw, o, from(v));
      if p.Some? {
        assert from(to(p.value.0)) == p.value.0;
        assert ExactAt(c, raw, o, p.value.0);
      }
    }
  }

  /** What a sequence and a rebuilt value decode to. */
  lemma PairDecodes<A, B>(c: Codec<A>, d: Codec<B>, raw: Bytes, o: nat)
    ensures var p := c.decode(raw, o);
      if p.None? then Pair(c, d).decode(raw, o).None? else
        var q := d.decode(raw, p.value.1);
        if q.None? then Pair(c, d).decode(raw, o).None? else
          Pair(c, d).decode(raw, o) == Some(((p.value.0, q.value.0), q.value.1))
  {
  }

  lemma BuiltDecodes<A, B>(c: Codec<A>, to: A -> B, from: B -> A, raw: Bytes, o: nat)
    ensures var p := c.decode(raw, o);
      if p.None? then Built(c, to, from).decode(raw, o).None? else
        Built(c, to, from).decode(raw, o) == Some((to(p.value.0), p.value.1))
  {
  }

  /** The bytes that a decoder passed over are the encoding of what it yielded. */
  lemma Span<T(!new)>(c: Codec<T>, raw: Bytes, o: nat, v: T, o': nat)
    requires Exact(c) && c.decode(raw, o) == Some((v, o'))
    ensures o <= o' <= |raw| && raw[o..o'] == c.encode(v)
  {
    assert ExactAt(c, raw, o, v);
  }

  /** A counted list. */
  function Vec<T>(c: Codec<T>): Codec<seq<T>> {
    Codec((raw, o) => ParseVec(c.decode, raw, o),
          v => VecBytes(c.encode, v),
          v => |v| <= MAX_U32 && forall i :: 0 <= i < |v| ==> c.ok(v[i]))
  }

  lemma VecExact<T(!new)>(c: Codec<T>)
    requires Exact(c)
    ensures Exact(Vec(c))
  {
    forall raw: Bytes, o: nat, v: seq<T> {:trigger ExactAt(Vec(c), raw, o, v)}
      ensures ExactAt(Vec(c), raw, o, v)
    {
      if Vec(c).ok(v) {
        VecReadsOf(c, raw, o, v);
      }
      VecYields(c, raw, o);
    }
  }

  lemma VecReadsOf<T(!new)>(c: Codec<T>, raw: Bytes, o: nat, vs: seq<T>)
    requires Exact(c) && Vec(c).ok(vs)
    ensures Reads(ParseVec(c.decode, raw, o), raw, o, VecBytes(c.encode, vs), vs)
  {
    forall o: nat, v {:trigger ItemReads(c.decode, c.encode, raw, o, v)} | v in vs
      ensures ItemReads(c.decode, c.encode, raw, o, v)
    {
      assert ExactAt(c, raw, o, v);
    }
    VecReads(c.decode, c.encode, raw, o, vs);
  }

  lemma {:induction false} ItemsYield<T(!new)>(c: Codec<T>, raw: Bytes, o: nat, n: nat)
    requires Exact(c)
    ensures var p := ParseItems(c.decode, raw, o, n);
      p.Some? ==> forall i :: 0 <= i < n ==> c.ok(p.value.0[i])
  {
    if n > 0 {
      ItemsYield(c, raw, o, n - 1);
      var q := ParseItems(c.decode, raw, o, n - 1);
      if q.Some? && c.decode(raw, q.value.1).Some? {
        assert ExactAt(c, raw, q.value.1, c.decode(raw, q.value.1).value.0);
      }
    }
  }

  lemma VecYields<T(!new)>(c: Codec<T>, raw: Bytes, o: nat)
    requires Exact(c)
    ensures var p := ParseVec(c.decode, raw, o); p.Some? ==> Vec(c).ok(p.value.0)
  {
    var p := ParseUint(4, raw, o);
    if p.Some? {
      Fits4(p.value.0);
      ItemsYield(c, raw, p.value.1, p.value.0);
    }
  }

  /** A whole buffer is accepted exactly when it is an encoding. */
  lemma WholeBuffer<T(!new)>(c: Codec<T>, raw: Bytes, v: T)
    requires Exact(c)
    ensures c.decode(raw, 0) == Some((v, |raw|)) <==> c.ok(v) && raw == c.encode(v)
  {
    assert ExactAt(c, raw, 0, v);
    AtWhole(raw);
    if c.ok(v) && c.decode(raw, 0) == Some((v, |raw|)) {
      assert raw[0..|raw|] == raw;
    }
  }

  // ----- the simple codecs -----

  function ParseU64(raw: Bytes, o: nat): Parsed<U64> {
    var (x, o1) :- ParseUint(8, raw, o);
    Fits8(x);
    Some((x, o1))
  }

  function ParseU128(raw: Bytes, o: nat): Parsed<U128> {
    var (x, o1) :- ParseUint(16, raw, o);
    Fits16(x);
    Some((x, o1))
  }

  function U64Bytes(x: U64): Bytes { LeBytes(8, x) }

  function U128Bytes(x: U128): Bytes { LeBytes(16, x) }

  function Whole(h: Bytes32): Bytes { h }

  function U64Codec(): Codec<U64> { Codec(ParseU64, U64Bytes, _ => true) }

  function U128Codec(): Codec<U128> { Codec(ParseU128, U128Bytes, _ => true) }

  function Bytes32Codec(): Codec<Bytes32> { Codec(ParseBytes32, Whole, _ => true) }

  function BytesCodec(): Codec<Bytes> { Codec(ParseBytes, BytesBytes, (v: Bytes) => |v| <= MAX_U32) }

  lemma U64Exact()
    ensures Exact(U64Codec())
  {
    forall raw: Bytes, o: nat, v: U64 {:trigger ExactAt(U64Codec(), raw, o, v)}
      ensures ExactAt(U64Codec(), raw, o, v)
    {
      U64Reads(raw, o, v);
    }
  }

  lemma U128Exact()
    ensures Exact(U128Codec())
  {
    forall raw: Bytes, o: nat, v: U128 {:trigger ExactAt(U128Codec(), raw, o, v)}
      ensures ExactAt(U128Codec(), raw, o, v)
    {
      U128Reads(raw, o, v);
    }
  }

  lemma Bytes32Exact()
    ensures Exact(Bytes32Codec())
  {
    forall raw: Bytes, o: nat, v: Bytes32 {:trigger ExactAt(Bytes32Codec(), raw, o, v)}
      ensures ExactAt(Bytes32Codec(), raw, o, v)
    {
      Bytes32Reads(raw, o, v);
    }
  }

  lemma BytesExact()
    ensures Exact(BytesCodec())
  {
    forall raw: Bytes, o: nat, v: Bytes {:trigger ExactAt(BytesCodec(), raw, o, v)}
      ensures ExactAt(BytesCodec(), raw, o, v)
    {
      if |v| <= MAX_U32 {
        BytesReads(raw, o, v);
      }
      var p := ParseUint(4, raw, o);
      if p.Some? {
        Fits4(p.value.0);
      }
    }
  }
}
