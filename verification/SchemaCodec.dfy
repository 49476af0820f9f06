/** The schema-driven codec of utils/borsh.js. A type is the tree that the schema unfolds to; a struct is a chain
    of fields. Values are what JavaScript passes around. `None` is an exception. */
module SchemaCodec {
  import opened Prelude
  import opened Borsh
  import opened BorshData

  datatype Ty =
    | U8
    | U64
    | U128
    | Bool
    | Fixed(size: nat)
    | List(item: Ty)
    | Optional(some: Ty)
    | NoFields
    | Field(name: string, ty: Ty, rest: Ty)
    | Missing

  datatype Value =
    | Num(n: nat)
    | Truth(b: bool)
    | Raw(bytes: Bytes)
    | Items(items: seq<Value>)
    | Null
    | Record(fields: map<string, Value>)

  predicate Truthy(v: Value) {
    match v
    case Num(n) => n != 0
    case Truth(b) => b
    case Null => false
    case _ => true
  }

  // ----- writing -----

  function Ser(t: Ty, v: Value): Option<Bytes>
    decreases t, 0
  {
    match t
    case U8 => SerNum(1, v)
    case U64 => SerNum(8, v)
    case U128 => SerNum(16, v)
    case Bool => Some([if Truthy(v) then 1 else 0])
    case Fixed(k) => if v.Raw? && |v.bytes| == k then Some(v.bytes) else None
    case List(e) =>
      if !v.Items? || |v.items| > MAX_U32 then None else
        var s :- SerItems(e, v.items);
        Some(LeBytes(4, |v.items|) + s)
    case Optional(e) =>
      if v.Null? then Some([0]) else
        var s :- Ser(e, v);
        Some([1] + s)
    case NoFields => if v.Record? then Some([]) else None
    case Field(f, ty, rest) =>
      if !v.Record? || f !in v.fields then None else
        var a :- Ser(ty, v.fields[f]);
        var b :- Ser(rest, v);
        Some(a + b)
    case Missing => None
  }

  function SerNum(k: nat, v: Value): Option<Bytes> {
    if v.Num? && v.n < Base(k) then Some(LeBytes(k, v.n)) else None
  }

  function SerItems(e: Ty, vs: seq<Value>): Option<Bytes>
    decreases e, 1 + |vs|
  {
    if vs == [] then Some([]) else
      var a :- SerItems(e, vs[..|vs| - 1]);
      var b :- Ser(e, vs[|vs| - 1]);
      Some(a + b)
  }

  // ----- reading -----

  function Deser(t: Ty, raw: Bytes, o: nat): Parsed<Value>
    decreases t, 0
  {
    match t
    case U8 => DeserNum(1, raw, o)
    case U64 => DeserNum(8, raw, o)
    case U128 => DeserNum(16, raw, o)
    case Bool =>
      var (x, o1) :- ParseU8(raw, o);
      Some((Truth(x != 0), o1))
    case Fixed(k) =>
      var (s, o1) :- ParseBlock(k, raw, o);
      Some((Raw(s), o1))
    case List(e) =>
      var (k, o1) :- ParseUint(4, raw, o);
      var (vs, o2) :- DeserItems(e, raw, o1, k);
      Some((Items(vs), o2))
    case Optional(e) =>
      var (x, o1) :- ParseU8(raw, o);
      if x == 0 then Some((Null, o1)) else if x == 1 then Deser(e, raw, o1) else None
    case NoFields => Some((Record(map[]), o))
    case Field(f, ty, rest) =>
      var (v, o1) :- Deser(ty, raw, o);
      Merge(map[f := v], Deser(rest, raw, o1))
    case Missing => None
  }

  function DeserNum(k: nat, raw: Bytes, o: nat): Parsed<Value> {
    var (x, o1) :- ParseUint(k, raw, o);
    Some((Num(x), o1))
  }

  function DeserItems(e: Ty, raw: Bytes, o: nat, k: nat): (p: Parsed<seq<Value>>)
    ensures p.Some? ==> |p.value.0| == k
    decreases e, 1 + k
  {
    if k == 0 then Some(([], o)) else
      var (vs, o1) :- DeserItems(e, raw, o, k - 1);
      var (v, o2) :- Deser(e, raw, o1);
      Some((vs + [v], o2))
  }

  /** The fields read so far under the fields of the rest. */
  function Merge(m: map<string, Value>, p: Parsed<Value>): Parsed<Value> {
    match p
    case Some((Record(fs), o)) => Some((Record(m + fs), o))
    case _ => None
  }

  /** `deserialize`: nothing may be left over. */
  function DeserAll(t: Ty, raw: Bytes): Option<Value> {
    var (v, o) :- Deser(t, raw, 0);
    if o < |raw| then None else Some(v)
  }

  // ----- well-formed types and values -----

  predicate IsStruct(t: Ty) { t.NoFields? || t.Field? }

  function Names(t: Ty): set<string> {
    if t.Field? then {t.name} + Names(t.rest) else {}
  }

  /** A field is followed by fields. */
  predicate Chained(t: Ty) {
    match t
    case List(e) => Chained(e)
    case Optional(e) => Chained(e)
    case Field(_, ty, rest) => Chained(ty) && Chained(rest) && IsStruct(rest)
    case _ => true
  }

  /** Structs are chains of fields with distinct names, and every name is in the schema. */
  predicate Formed(t: Ty) {
    match t
    case List(e) => Formed(e)
    case Optional(e) => Formed(e)
    case Field(f, ty, rest) => Formed(ty) && Formed(rest) && IsStruct(rest) && f !in Names(rest)
    case Missing => false
    case _ => true
  }

  /** The value has what the type asks for. */
  predicate Has(t: Ty, v: Value)
    decreases t, 0
  {
    match t
    case U8 => v.Num? && v.n < 0x100
    case U64 => v.Num? && v.n <= MAX_U64
    case U128 => v.Num? && v.n <= MAX_U128
    case Bool => v.Truth?
    case Fixed(k) => v.Raw? && |v.bytes| == k
    case List(e) => v.Items? && |v.items| <= MAX_U32 && AllFit(e, v.items)
    case Optional(e) => v.Null? || Fits(e, v)
    case NoFields => v.Record?
    case Field(f, ty, rest) => v.Record? && f in v.fields && Fits(ty, v.fields[f]) && Has(rest, v)
    case Missing => false
  }

  /** ... and nothing else. */
  predicate Fits(t: Ty, v: Value)
    decreases t, 1
  {
    Has(t, v) && (IsStruct(t) ==> v.fields.Keys == Names(t))
  }

  predicate AllFit(e: Ty, vs: seq<Value>)
    decreases e, 2 + |vs|
  {
    vs == [] || (AllFit(e, vs[..|vs| - 1]) && Fits(e, vs[|vs| - 1]))
  }

  /** The part of a record under some names. */
  function Sub(m: map<string, Value>, names: set<string>): map<string, Value> {
    map f | f in m && f in names :: m[f]
  }

  // ----- the round trip -----

  /** Serializing a value that has what the type asks for succeeds. */
  lemma {:induction false} Serializes(t: Ty, v: Value)
    requires Formed(t) && Has(t, v)
    ensures Ser(t, v).Some?
    decreases t, 0
  {
    match t
    case U8 => assert Base(1) == 256 * Base(0);
    case U64 => Fits8(v.n);
    case U128 => Fits16(v.n);
    case List(e) => ItemsSerialize(e, v.items);
    case Optional(e) =>
      if !v.Null? {
        Serializes(e, v);
      }
    case Field(f, ty, rest) =>
      Serializes(ty, v.fields[f]);
      Serializes(rest, v);
    case _ =>
  }

  lemma {:induction false} ItemsSerialize(e: Ty, vs: seq<Value>)
    requires Formed(e) && AllFit(e, vs)
    ensures SerItems(e, vs).Some?
    decreases e, 1 + |vs|
  {
    if vs != [] {
      ItemsSerialize(e, vs[..|vs| - 1]);
      Serializes(e, vs[|vs| - 1]);
    }
  }

  /** Where the serialization of a value lies, whatever comes after it, the value is read and the reader stops
      at its end. */
  lemma {:induction false} RoundTrip(t: Ty, v: Value, raw: Bytes, o: nat, s: Bytes)
    requires Formed(t) && Fits(t, v) && Ser(t, v) == Some(s) && At(raw, o, s)
    ensures Deser(t, raw, o) == Some((v, o + |s|))
    decreases t, 2
  {
    match t
    case List(_) => ListRoundTrip(t, v, raw, o, s);
    case Optional(_) => OptionalRoundTrip(t, v, raw, o, s);
    case NoFields =>
      ChainRoundTrip(t, v, raw, o, s);
      SubAll(v.fields);
    case Field(_, _, _) =>
      ChainRoundTrip(t, v, raw, o, s);
      SubAll(v.fields);
    case _ => SimpleRoundTrip(t, v, raw, o, s);
  }

  lemma SubAll(m: map<string, Value>)
    ensures Sub(m, m.Keys) == m
  {
  }

  lemma SimpleRoundTrip(t: Ty, v: Value, raw: Bytes, o: nat, s: Bytes)
    requires !t.List? && !t.Optional? && !IsStruct(t) && Has(t, v) && Ser(t, v) == Some(s) && At(raw, o, s)
    ensures Deser(t, raw, o) == Some((v, o + |s|))
  {
    match t
    case U8 => NumRoundTrip(1, v, raw, o);
    case U64 => NumRoundTrip(8, v, raw, o);
    case U128 => NumRoundTrip(16, v, raw, o);
    case Bool => U8Reads(raw, o, if v.b then 1 else 0);
    case Fixed(k) =>
  }

  lemma NumRoundTrip(k: nat, v: Value, raw: Bytes, o: nat)
    requires SerNum(k, v).Some? && At(raw, o, SerNum(k, v).value)
    ensures DeserNum(k, raw, o) == Some((v, o + |SerNum(k, v).value|))
  {
    UintReads(k, raw, o, v.n);
  }

  lemma ListRoundTrip(t: Ty, v: Value, raw: Bytes, o: nat, s: Bytes)
    requires t.List? && Formed(t) && Fits(t, v) && Ser(t, v) == Some(s) && At(raw, o, s)
    ensures Deser(t, raw, o) == Some((v, o + |s|))
    decreases t, 0
  {
    var body := SerItems(t.item, v.items).value;
    AtSplit(raw, o, LeBytes(4, |v.items|), body);
    U32Reads(raw, o, |v.items|);
    ItemsRoundTrip(t.item, v.items, raw, o + 4, body);
  }

  lemma {:induction false} ItemsRoundTrip(e: Ty, vs: seq<Value>, raw: Bytes, o: nat, s: Bytes)
    requires Formed(e) && AllFit(e, vs)
    requires SerItems(e, vs) == Some(s) && At(raw, o, s)
    ensures DeserItems(e, raw, o, |vs|) == Some((vs, o + |s|))
    decreases e, 3 + |vs|
  {
    if vs != [] {
      var init, last, a, b := SplitItems(e, vs, s);
      AtSplit(raw, o, a, b);
      ItemsRoundTrip(e, init, raw, o, a);
      RoundTrip(e, last, raw, o + |a|, b);
      OneMore(e, raw, o, init, o + |a|, last, o + |a| + |b|);
    }
  }

  lemma SplitItems(e: Ty, vs: seq<Value>, s: Bytes) returns (init: seq<Value>, last: Value, a: Bytes, b: Bytes)
    requires vs != [] && AllFit(e, vs) && SerItems(e, vs) == Some(s)
    ensures SerItems(e, init) == Some(a) && Ser(e, last) == Some(b) && s == a + b
    ensures AllFit(e, init) && Fits(e, last) && vs == init + [last]
  {
    init, last := vs[..|vs| - 1], vs[|vs| - 1];
    a, b := SerItems(e, init).value, Ser(e, last).value;
  }

  lemma OneMore(e: Ty, raw: Bytes, o: nat, vs: seq<Value>, o1: nat, v: Value, o2: nat)
    requires DeserItems(e, raw, o, |vs|) == Some((vs, o1)) && Deser(e, raw, o1) == Some((v, o2))
    ensures DeserItems(e, raw, o, |vs + [v]|) == Some((vs + [v], o2))
  {
  }

  lemma OptionalRoundTrip(t: Ty, v: Value, raw: Bytes, o: nat, s: Bytes)
    requires t.Optional? && Formed(t) && Fits(t, v) && Ser(t, v) == Some(s) && At(raw, o, s)
    ensures Deser(t, raw, o) == Some((v, o + |s|))
    decreases t, 0
  {
    if v.Null? {
      U8Reads(raw, o, 0);
    } else {
      var body := Ser(t.some, v).value;
      AtSplit(raw, o, [1], body);
      U8Reads(raw, o, 1);
      RoundTrip(t.some, v, raw, o + 1, body);
    }
  }

  /** A chain of fields reads the part of the record under its names. */
  lemma {:induction false} ChainRoundTrip(t: Ty, v: Value, raw: Bytes, o: nat, s: Bytes)
    requires IsStruct(t) && Formed(t) && Has(t, v) && Ser(t, v) == Some(s) && At(raw, o, s)
    ensures Deser(t, raw, o) == Some((Record(Sub(v.fields, Names(t))), o + |s|))
    decreases t, 1
  {
    if t.NoFields? {
      SubNone(v.fields);
    } else {
      FieldRoundTrip(t, v, raw, o, s);
    }
  }

  lemma FieldRoundTrip(t: Ty, v: Value, raw: Bytes, o: nat, s: Bytes)
    requires t.Field? && Formed(t) && Has(t, v) && Ser(t, v) == Some(s) && At(raw, o, s)
    ensures Deser(t, raw, o) == Some((Record(Sub(v.fields, Names(t))), o + |s|))
    decreases t, 0
  {
    var ty, rest, m := t.ty, t.rest, v.fields;
    var x, a, b := SplitField(t, v, s);
    var o1 := o + |a|;
    AtSplit(raw, o, a, b);
    RoundTrip(ty, x, raw, o, a);
    ChainRoundTrip(rest, v, raw, o1, b);
    FieldThenRest(t, m, raw, o, o1, o1 + |b|);
  }

  lemma SubNone(m: map<string, Value>)
    ensures Sub(m, {}) == map[]
  {
  }

  lemma FieldThenRest(t: Ty, m: map<string, Value>, raw: Bytes, o: nat, o1: nat, o2: nat)
    requires t.Field? && t.name in m && Deser(t.ty, raw, o) == Some((m[t.name], o1))
    requires Deser(t.rest, raw, o1) == Some((Record(Sub(m, Names(t.rest))), o2))
    ensures Deser(t, raw, o) == Some((Record(Sub(m, Names(t))), o2))
  {
    FieldsMeet(t, raw, o, m[t.name], o1, Sub(m, Names(t.rest)), o2);
    SubMore(m, t.name, Names(t.rest));
  }

  lemma SplitField(t: Ty, v: Value, s: Bytes) returns (x: Value, a: Bytes, b: Bytes)
    requires t.Field? && Formed(t) && Has(t, v) && Ser(t, v) == Some(s)
    ensures v.Record? && t.name in v.fields && x == v.fields[t.name] && Fits(t.ty, x) && Has(t.rest, v)
    ensures Formed(t.ty) && Formed(t.rest) && IsStruct(t.rest)
    ensures Ser(t.ty, x) == Some(a) && Ser(t.rest, v) == Some(b) && s == a + b
  {
    x := v.fields[t.name];
    a, b := Ser(t.ty, x).value, Ser(t.rest, v).value;
  }

  lemma FieldsMeet(t: Ty, raw: Bytes, o: nat, x: Value, o1: nat, m: map<string, Value>, o2: nat)
    requires t.Field? && Deser(t.ty, raw, o) == Some((x, o1)) && Deser(t.rest, raw, o1) == Some((Record(m), o2))
    ensures Deser(t, raw, o) == Some((Record(map[t.name := x] + m), o2))
  {
  }

  lemma SubMore(m: map<string, Value>, f: string, names: set<string>)
    requires f in m
    ensures map[f := m[f]] + Sub(m, names) == Sub(m, {f} + names)
  {
  }

  /** What the bytes of each kind are: numbers of a fixed width with the low byte first, one byte for a truth value, a count
      of four bytes before the items of a list, a byte before an optional value, and fields one after the other. */
  lemma Layout(t: Ty, v: Value, s: Bytes)
    requires Ser(t, v) == Some(s)
    ensures t.U8? ==> |s| == 1 && v == Num(LeValue(s))
    ensures t.U64? ==> |s| == 8 && v == Num(LeValue(s))
    ensures t.U128? ==> |s| == 16 && v == Num(LeValue(s))
    ensures t.Bool? ==> s == if Truthy(v) then [1] else [0]
    ensures t.Fixed? ==> v == Raw(s) && |s| == t.size
    ensures t.List? ==> v.Items? && |s| >= 4 && LeValue(s[..4]) == |v.items| && SerItems(t.item, v.items) == Some(s[4..])
    ensures t.Optional? ==> if v.Null? then s == [0] else |s| > 0 && s[0] == 1 && Ser(t.some, v) == Some(s[1..])
    ensures t.NoFields? ==> s == []
    ensures t.Field? ==> v.Record? && t.name in v.fields && Ser(t.ty, v.fields[t.name]).Some? && Ser(t.rest, v).Some?
                         && s == Ser(t.ty, v.fields[t.name]).value + Ser(t.rest, v).value
  {
    match t
    case U8 => LeReads(s, v.n);
    case U64 => LeReads(s, v.n);
    case U128 => LeReads(s, v.n);
    case List(e) =>
      var n := LeBytes(4, |v.items|);
      Fits4(|v.items|);
      LeReads(n, |v.items|);
      assert s[..4] == n;
    case _ =>
  }

  /** `deserialize` undoes `serialize` and refuses anything after it. */
  lemma DeserializeUndoes(t: Ty, v: Value, suffix: Bytes)
    requires Formed(t) && Fits(t, v)
    ensures Ser(t, v).Some?
    ensures DeserAll(t, Ser(t, v).value + suffix) == if suffix == [] then Some(v) else None
  {
    Serializes(t, v);
    var e := Ser(t, v).value;
    assert (e + suffix)[0..|e|] == e;
    RoundTrip(t, v, e + suffix, 0, e);
  }

  // ----- the reader and the writer -----

  /** `BinaryReader`: the cursor of BorshData with the readers of the schema. */
  method DeserializeField(reader: Data, t: Ty) returns (r: Option<Value>)
    requires Chained(t)
    modifies reader`offset
    ensures Did(Deser(t, reader.raw, old(reader.offset)), r, reader.offset)
    decreases t, 2
  {
    match t
    case U8 =>
      OneByte(reader.raw, reader.offset);
      var x :- reader.DecodeU8();
      r := Some(Num(x));
    case U64 =>
      var x :- reader.DecodeU64();
      r := Some(Num(x));
    case U128 =>
      var x :- reader.DecodeU128();
      r := Some(Num(x));
    case Bool =>
      var x :- reader.DecodeU8();
      r := Some(Truth(x != 0));
    case Fixed(k) =>
      var s :- ReadBuffer(reader, k);
      r := Some(Raw(s));
    case List(e) =>
      r := ReadArray(reader, e);
    case Optional(e) =>
      var x :- reader.DecodeU8();
      if x == 0 {
        r := Some(Null);
      } else if x == 1 {
        r := DeserializeField(reader, e);
      } else {
        r := None;
      }
    case Missing => r := None;
    case _ => r := ReadStruct(reader, t);
  }

  method ReadBuffer(reader: Data, k: nat) returns (r: Option<Bytes>)
    modifies reader`offset
    ensures Did(ParseBlock(k, reader.raw, old(reader.offset)), r, reader.offset)
  {
    if reader.offset + k > |reader.raw| {
      return None;
    }
    r := Some(reader.raw[reader.offset..reader.offset + k]);
    reader.offset := reader.offset + k;
  }

  method ReadArray(reader: Data, e: Ty) returns (r: Option<Value>)
    requires Chained(e)
    modifies reader`offset
    ensures Did(Deser(List(e), reader.raw, old(reader.offset)), r, reader.offset)
    decreases e, 3
  {
    var k :- reader.DecodeU32();
    ghost var o := reader.offset;
    var vs: seq<Value> := [];
    for i := 0 to k
      invariant DeserItems(e, reader.raw, o, i) == Some((vs, reader.offset))
    {
      var v := DeserializeField(reader, e);
      if v.None? {
        ItemsAbort(e, reader.raw, o, i + 1, k);
        return None;
      }
      vs := vs + [v.value];
    }
    r := Some(Items(vs));
  }

  lemma {:induction false} ItemsAbort(e: Ty, raw: Bytes, o: nat, i: nat, k: nat)
    requires i <= k && DeserItems(e, raw, o, i).None?
    ensures DeserItems(e, raw, o, k).None?
    decreases k
  {
    if i < k {
      ItemsAbort(e, raw, o, i, k - 1);
    }
  }

  /** The loop over the fields fills the result object; a name that comes again overwrites. */
  method ReadStruct(reader: Data, t: Ty) returns (r: Option<Value>)
    requires IsStruct(t) && Chained(t)
    modifies reader`offset
    ensures Did(Deser(t, reader.raw, old(reader.offset)), r, reader.offset)
    decreases t, 1
  {
    var result: map<string, Value> := map[];
    var cur := t;
    MergeNothing(t, reader.raw, reader.offset);
    while cur.Field?
      invariant (cur == t || cur < t) && IsStruct(cur) && Chained(cur)
      invariant Deser(t, reader.raw, old(reader.offset)) == Merge(result, Deser(cur, reader.raw, reader.offset))
      decreases cur
    {
      ghost var o := reader.offset;
      var v :- DeserializeField(reader, cur.ty);
      MergeOne(result, cur.name, v, Deser(cur.rest, reader.raw, reader.offset));
      result := result[cur.name := v];
      cur := cur.rest;
    }
    r := Some(Record(result));
    assert result + map[] == result;
  }

  lemma MergeNothing(t: Ty, raw: Bytes, o: nat)
    requires IsStruct(t)
    ensures Merge(map[], Deser(t, raw, o)) == Deser(t, raw, o)
  {
    var p := Deser(t, raw, o);
    if p.Some? {
      assert map[] + p.value.0.fields == p.value.0.fields;
    }
  }

  lemma MergeOne(m: map<string, Value>, f: string, v: Value, p: Parsed<Value>)
    ensures Merge(m, Merge(map[f := v], p)) == Merge(m[f := v], p)
  {
    if p.Some? && p.value.0.Record? {
      assert m + (map[f := v] + p.value.0.fields) == m[f := v] + p.value.0.fields;
    }
  }

  /** A buffer with a serialization appended. */
  function Appended(buf: Bytes, p: Option<Bytes>): Option<Bytes> {
    if p.None? then None else Some(buf + p.value)
  }

  lemma AppendTwo(buf: Bytes, a: Bytes, b: Bytes)
    ensures Appended(buf, Some(a + b)) == Appended(buf + a, Some(b))
  {
    assert buf + (a + b) == (buf + a) + b;
  }

  lemma AppendField(buf: Bytes, t: Ty, v: Value)
    requires t.Field? && v.Record?
    ensures Appended(buf, Ser(t, v)) ==
      if t.name !in v.fields || Ser(t.ty, v.fields[t.name]).None? then None
      else Appended(buf + Ser(t.ty, v.fields[t.name]).value, Ser(t.rest, v))
  {
    if Ser(t, v).Some? {
      AppendTwo(buf, Ser(t.ty, v.fields[t.name]).value, Ser(t.rest, v).value);
    }
  }

  lemma AppendItem(buf: Bytes, e: Ty, vs: seq<Value>, i: nat)
    requires i < |vs|
    ensures Appended(buf, SerItems(e, vs[..i + 1])) ==
      if SerItems(e, vs[..i]).None? || Ser(e, vs[i]).None? then None
      else Appended(buf + SerItems(e, vs[..i]).value, Ser(e, vs[i]))
  {
    assert vs[..i + 1][..i] == vs[..i];
    if SerItems(e, vs[..i + 1]).Some? {
      AppendTwo(buf, SerItems(e, vs[..i]).value, Ser(e, vs[i]).value);
    }
  }

  /** `serializeField` appends to a writer. */
  class Writer {
    var buf: Bytes

    constructor ()
      ensures buf == []
    {
      buf := [];
    }

    /** Appends the serialization, or throws and leaves the buffer half written. */
    method SerializeField(t: Ty, v: Value) returns (ok: bool)
      requires Chained(t)
      modifies this
      ensures Appended(old(buf), Ser(t, v)) == if ok then Some(buf) else None
      decreases t, 2
    {
      match t
      case U8 => ok := WriteNum(1, v);
      case U64 => ok := WriteNum(8, v);
      case U128 => ok := WriteNum(16, v);
      case Bool =>
        buf := buf + [if Truthy(v) then 1 else 0];
        ok := true;
      case Fixed(k) =>
        ok := v.Raw? && |v.bytes| == k;
        if ok {
          buf := buf + v.bytes;
        }
      case List(e) => ok := WriteArray(e, v);
      case Optional(e) =>
        if v.Null? {
          buf := buf + [0];
          ok := true;
        } else {
          if Ser(e, v).Some? {
            AppendTwo(buf, [1], Ser(e, v).value);
          }
          buf := buf + [1];
          ok := SerializeField(e, v);
        }
      case Missing => ok := false;
      case _ => ok := WriteStruct(t, v);
    }

    method WriteNum(k: nat, v: Value) returns (ok: bool)
      modifies this
      ensures Appended(old(buf), SerNum(k, v)) == if ok then Some(buf) else None
    {
      ok := v.Num? && v.n < Base(k);
      if ok {
        buf := buf + LeBytes(k, v.n);
      }
    }

    method WriteArray(e: Ty, v: Value) returns (ok: bool)
      requires Chained(e)
      modifies this
      ensures Appended(old(buf), Ser(List(e), v)) == if ok then Some(buf) else None
      decreases e, 4
    {
      if !v.Items? || |v.items| > MAX_U32 {
        return false;
      }
      if SerItems(e, v.items).Some? {
        AppendTwo(buf, LeBytes(4, |v.items|), SerItems(e, v.items).value);
      }
      buf := buf + LeBytes(4, |v.items|);
      ok := WriteItems(e, v.items);
    }

    method WriteItems(e: Ty, vs: seq<Value>) returns (ok: bool)
      requires Chained(e)
      modifies this
      ensures Appended(old(buf), SerItems(e, vs)) == if ok then Some(buf) else None
      decreases e, 3
    {
      ghost var start := buf;
      assert vs[..0] == [] && start + [] == start;
      for i := 0 to |vs|
        invariant Appended(start, SerItems(e, vs[..i])) == Some(buf)
      {
        AppendItem(start, e, vs, i);
        ok := SerializeField(e, vs[i]);
        if !ok {
          ItemsThrow(e, vs, i + 1);
          return;
        }
      }
      assert vs[..|vs|] == vs;
      ok := true;
    }

    method WriteStruct(t: Ty, v: Value) returns (ok: bool)
      requires IsStruct(t) && Chained(t)
      modifies this
      ensures Appended(old(buf), Ser(t, v)) == if ok then Some(buf) else None
      decreases t, 1
    {
      if !v.Record? {
        return false;
      }
      var cur := t;
      while cur.Field?
        invariant (cur == t || cur < t) && IsStruct(cur) && Chained(cur)
        invariant Appended(old(buf), Ser(t, v)) == Appended(buf, Ser(cur, v))
        decreases cur
      {
        AppendField(buf, cur, v);
        if cur.name !in v.fields {
          return false;
        }
        ok := SerializeField(cur.ty, v.fields[cur.name]);
        if !ok {
          return;
        }
        cur := cur.rest;
      }
      assert buf + [] == buf;
      ok := true;
    }
  }

  lemma {:induction false} ItemsThrow(e: Ty, vs: seq<Value>, i: nat)
    requires i <= |vs| && SerItems(e, vs[..i]).None?
    ensures SerItems(e, vs).None?
    decreases |vs|
  {
    if i < |vs| {
      assert vs[..|vs| - 1][..i] == vs[..i];
      ItemsThrow(e, vs[..|vs| - 1], i);
    } else {
      assert vs[..i] == vs;
    }
  }

  /** `serialize` into a new writer, and `deserialize` from a new reader. */
  method Serialize(t: Ty, v: Value) returns (r: Option<Bytes>)
    requires Chained(t)
    ensures r == Ser(t, v)
  {
    var writer := new Writer();
    var ok := writer.SerializeField(t, v);
    assert Ser(t, v).Some? ==> [] + Ser(t, v).value == Ser(t, v).value;
    r := if ok then Some(writer.buf) else None;
  }

  method Deserialize(t: Ty, raw: Bytes) returns (r: Option<Value>)
    requires Chained(t)
    ensures r == DeserAll(t, raw)
  {
    var reader := new Data(raw);
    var v :- DeserializeField(reader, t);
    if reader.offset < |raw| {
      return None;
    }
    r := Some(v);
  }
}
