/** ProofDecoder.sol: each decoder moves the cursor as the format prescribes. */
module ProofDecoder {
  import opened Prelude
  import opened NearTypes
  import opened Borsh
  import opened BorshData
  import opened NearFormat
  import opened NearDecoder
  import opened ProofFormat
  import Merkle

  method DecodePathItem(data: Data) returns (r: Option<PathItem>)
    modifies data`offset
    ensures Did(ParsePathItem(data.raw, old(data.offset)), r, data.offset)
  {
    var h :- data.DecodeBytes32();
    var d :- data.DecodeU8();
    if d >= 2 {
      return None;
    }
    r := Some(Merkle.Item(h, d == 1));
  }

  method DecodePath(data: Data) returns (r: Option<seq<PathItem>>)
    modifies data`offset
    ensures Did(PathCodec().decode(data.raw, old(data.offset)), r, data.offset)
  {
    var n :- data.DecodeU32();
    ghost var f, o := PathItemCodec().decode, data.offset;
    var vs: seq<PathItem> := [];
    for i := 0 to n
      invariant ParseItems(f, data.raw, o, i) == Some((vs, data.offset))
    {
      var v := DecodePathItem(data);
      if v.None? {
        ItemsFail(f, data.raw, o, i + 1, n);
        return None;
      }
      vs := vs + [v.value];
    }
    r := Some(vs);
  }

  method DecodeStatus(data: Data) returns (r: Option<Status>)
    modifies data`offset
    ensures Did(ParseStatus(data.raw, old(data.offset)), r, data.offset)
  {
    var k :- data.DecodeU8();
    if k == 0 {
      return Some(Unknown);
    } else if k == 1 {
      return Some(Failed);
    } else if k == 2 {
      var d :- data.DecodeBytes();
      return Some(SuccessValue(d));
    } else if k == 3 {
      var i :- data.DecodeBytes32();
      return Some(SuccessReceiptId(i));
    }
    return None;
  }

  method DecodeLogs(data: Data) returns (r: Option<seq<Bytes>>)
    modifies data`offset
    ensures Did(Vec(BytesCodec()).decode(data.raw, old(data.offset)), r, data.offset)
  {
    var n :- data.DecodeU32();
    ghost var f, o := BytesCodec().decode, data.offset;
    var vs: seq<Bytes> := [];
    for i := 0 to n
      invariant ParseItems(f, data.raw, o, i) == Some((vs, data.offset))
    {
      var v := data.DecodeBytes();
      if v.None? {
        ItemsFail(f, data.raw, o, i + 1, n);
        return None;
      }
      vs := vs + [v.value];
    }
    r := Some(vs);
  }

  method DecodeIds(data: Data) returns (r: Option<seq<Bytes32>>)
    modifies data`offset
    ensures Did(Vec(Bytes32Codec()).decode(data.raw, old(data.offset)), r, data.offset)
  {
    var n :- data.DecodeU32();
    ghost var f, o := Bytes32Codec().decode, data.offset;
    var vs: seq<Bytes32> := [];
    for i := 0 to n
      invariant ParseItems(f, data.raw, o, i) == Some((vs, data.offset))
    {
      var v := data.DecodeBytes32();
      if v.None? {
        ItemsFail(f, data.raw, o, i + 1, n);
        return None;
      }
      vs := vs + [v.value];
    }
    r := Some(vs);
  }

  // ----- what the composite codecs decode to -----

  lemma ResultDecodes(raw: Bytes, o: nat)
    ensures var p := Pair(BytesCodec(), StatusCodec()).decode(raw, o);
      var e := ParseBytes(raw, o);
      if e.None? then p.None? else
        var s := ParseStatus(raw, e.value.1);
        if s.None? then p.None? else p == Some(((e.value.0, s.value.0), s.value.1))
  {
    PairDecodes(BytesCodec(), StatusCodec(), raw, o);
  }

  method DecodeResult(data: Data) returns (r: Option<(Bytes, Status)>)
    modifies data`offset
    ensures Did(Pair(BytesCodec(), StatusCodec()).decode(data.raw, old(data.offset)), r, data.offset)
  {
    ResultDecodes(data.raw, data.offset);
    var e :- data.DecodeBytes();
    var s :- DecodeStatus(data);
    r := Some((e, s));
  }

  method DecodeTail(data: Data) returns (r: Option<(U64, (U128, (Bytes, Status)))>)
    modifies data`offset
    ensures Did(Pair(U64Codec(), Pair(U128Codec(), Pair(BytesCodec(), StatusCodec()))).decode(data.raw, old(data.offset)),
                r, data.offset)
  {
    ghost var c := Pair(BytesCodec(), StatusCodec());
    PairDecodes(U64Codec(), Pair(U128Codec(), c), data.raw, data.offset);
    var gas :- data.DecodeU64();
    Fits8(gas);
    PairDecodes(U128Codec(), c, data.raw, data.offset);
    var tokens :- data.DecodeU128();
    Fits16(tokens);
    var e :- DecodeResult(data);
    r := Some((gas, (tokens, e)));
  }

  /** The receipt ids, the charges, the executor and the status. */
  method DecodeBody(data: Data) returns (r: Option<Body>)
    modifies data`offset
    ensures Did(BodyCodec().decode(data.raw, old(data.offset)), r, data.offset)
  {
    ghost var c := Pair(U64Codec(), Pair(U128Codec(), Pair(BytesCodec(), StatusCodec())));
    BuiltDecodes(BodyPartsCodec(), MakeBody, PartsOfBody, data.raw, data.offset);
    PairDecodes(Vec(Bytes32Codec()), c, data.raw, data.offset);
    var ids :- DecodeIds(data);
    var t :- DecodeTail(data);
    r := Some(MakeBody((ids, t)));
  }

  method HashLogs(sha: Sha, logs: seq<Bytes>) returns (hashes: seq<Bytes32>)
    ensures hashes == Hashes(sha, logs)
  {
    hashes := [];
    for i := 0 to |logs|
      invariant hashes == Hashes(sha, logs[..i])
    {
      assert logs[..i + 1][..i] == logs[..i];
      hashes := hashes + [sha(logs[i])];
    }
    assert logs[..|logs|] == logs;
  }

  /** The cursor is rewound over the body to hash it and set back. */
  method DecodeHashedBody(sha: Sha, data: Data) returns (r: Option<(Body, Bytes32)>)
    modifies data`offset
    ensures Did(BodyCodec().decode(data.raw, old(data.offset)), if r.None? then None else Some(r.value.0), data.offset)
    ensures r.Some? ==> r.value.1 == sha(BodyCodec().encode(r.value.0))
  {
    var start := data.offset;
    var b :- DecodeBody(data);
    var stop := data.offset;
    BodyExact();
    Span(BodyCodec(), data.raw, start, b, stop);
    data.offset := start;
    var h := data.PeekSha256(sha, stop - start);
    data.offset := stop;
    r := Some((b, h));
  }

  method DecodeIdentified(sha: Sha, data: Data) returns (r: Option<Identified>)
    modifies data`offset
    ensures Did(IdentifiedCodec(sha).decode(data.raw, old(data.offset)), r, data.offset)
  {
    ghost var c := Pair(Vec(BytesCodec()), BodyCodec());
    BuiltDecodes(Pair(Bytes32Codec(), c), IdentifiedMaker(sha), PartsOfIdentified, data.raw, data.offset);
    PairDecodes(Bytes32Codec(), c, data.raw, data.offset);
    var id :- data.DecodeBytes32();
    PairDecodes(Vec(BytesCodec()), BodyCodec(), data.raw, data.offset);
    var logs :- DecodeLogs(data);
    var hashed :- DecodeHashedBody(sha, data);
    var (b, first) := hashed;
    var rest := HashLogs(sha, logs);
    var hash := OutcomeHash(sha, id, [first] + rest);
    r := Some(Identified(id, Outcome(logs, b.receiptIds, b.gasBurnt, b.tokensBurnt, b.executorId, b.status), hash));
  }

  method DecodeOutcomeProof(sha: Sha, data: Data) returns (r: Option<OutcomeProof>)
    modifies data`offset
    ensures Did(OutcomeProofCodec(sha).decode(data.raw, old(data.offset)), r, data.offset)
  {
    ghost var c := Pair(Bytes32Codec(), IdentifiedCodec(sha));
    BuiltDecodes(Pair(PathCodec(), c), MakeOutcomeProof, PartsOfOutcomeProof, data.raw, data.offset);
    PairDecodes(PathCodec(), c, data.raw, data.offset);
    var path :- DecodePath(data);
    PairDecodes(Bytes32Codec(), IdentifiedCodec(sha), data.raw, data.offset);
    var block :- data.DecodeBytes32();
    var w :- DecodeIdentified(sha, data);
    r := Some(OutcomeProof(path, block, w));
  }

  method DecodeHeaderLight(sha: Sha, data: Data) returns (r: Option<HeaderLight>)
    modifies data`offset
    ensures Did(HeaderCodec(sha).decode(data.raw, old(data.offset)), r, data.offset)
  {
    ghost var c := Pair(Bytes32Codec(), InnerLiteCodec(sha));
    BuiltDecodes(Pair(Bytes32Codec(), c), HeaderMaker(sha), PartsOfHeader, data.raw, data.offset);
    PairDecodes(Bytes32Codec(), c, data.raw, data.offset);
    var prev :- data.DecodeBytes32();
    PairDecodes(Bytes32Codec(), InnerLiteCodec(sha), data.raw, data.offset);
    var rest :- data.DecodeBytes32();
    var inner :- DecodeInnerLite(sha, data);
    r := Some(HeaderLight(prev, rest, inner, BlockHash(sha, inner.hash, rest, prev)));
  }

  method DecodeFullOutcomeProof(sha: Sha, data: Data) returns (r: Option<FullProof>)
    modifies data`offset
    ensures Did(FullProofCodec(sha).decode(data.raw, old(data.offset)), r, data.offset)
  {
    ghost var c2 := Pair(HeaderCodec(sha), PathCodec());
    ghost var c1 := Pair(PathCodec(), c2);
    BuiltDecodes(FullProofPartsCodec(sha), MakeFullProof, PartsOfFullProof, data.raw, data.offset);
    PairDecodes(OutcomeProofCodec(sha), c1, data.raw, data.offset);
    var v :- DecodeOutcomeProof(sha, data);
    PairDecodes(PathCodec(), c2, data.raw, data.offset);
    var root :- DecodePath(data);
    PairDecodes(HeaderCodec(sha), PathCodec(), data.raw, data.offset);
    var header :- DecodeHeaderLight(sha, data);
    var block :- DecodePath(data);
    r := Some(FullProof(v, root, header, block));
  }
}
