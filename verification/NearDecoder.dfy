/** NearDecoder.sol: each decoder moves the cursor as the format prescribes. */
module NearDecoder {
  import opened Prelude
  import opened NearTypes
  import opened Borsh
  import opened BorshData
  import opened NearFormat

  method DecodePublicKey(data: Data) returns (r: Option<PublicKey>)
    modifies data`offset
    ensures Did(ParsePublicKey(data.raw, old(data.offset)), r, data.offset)
  {
    var k :- data.DecodeU8();
    if k == 0 {
      var xy :- data.DecodeBytes32();
      return Some(Ed25519Key(xy));
    } else if k == 1 {
      var x :- data.DecodeU256();
      var y :- data.DecodeU256();
      Fits32(x);
      Fits32(y);
      return Some(Secp256k1Key(x, y));
    }
    return None;
  }

  lemma ValidatorDecodes(raw: Bytes, o: nat)
    ensures var p := ValidatorCodec().decode(raw, o);
      var a := ParseBytes(raw, o);
      if a.None? then p.None? else
        var k := ParsePublicKey(raw, a.value.1);
        if k.None? then p.None? else
          var s := ParseU128(raw, k.value.1);
          if s.None? then p.None? else p == Some((ValidatorStake(a.value.0, k.value.0, s.value.0), s.value.1))
  {
    BuiltDecodes(Pair(BytesCodec(), Pair(PublicKeyCodec(), U128Codec())), MakeValidator, PartsOfValidator, raw, o);
    PairDecodes(BytesCodec(), Pair(PublicKeyCodec(), U128Codec()), raw, o);
    var a := ParseBytes(raw, o);
    if a.Some? {
      PairDecodes(PublicKeyCodec(), U128Codec(), raw, a.value.1);
    }
  }

  method DecodeValidatorStake(data: Data) returns (r: Option<ValidatorStake>)
    modifies data`offset
    ensures Did(ValidatorCodec().decode(data.raw, old(data.offset)), r, data.offset)
  {
    ValidatorDecodes(data.raw, data.offset);
    var a :- data.DecodeBytes();
    var k :- DecodePublicKey(data);
    var s :- data.DecodeU128();
    Fits16(s);
    r := Some(ValidatorStake(a, k, s));
  }

  /** `decodeInitialValidators`. */
  method DecodeStakes(data: Data) returns (r: Option<seq<ValidatorStake>>)
    modifies data`offset
    ensures Did(StakesCodec().decode(data.raw, old(data.offset)), r, data.offset)
  {
    var n :- data.DecodeU32();
    ghost var f, o := ValidatorCodec().decode, data.offset;
    var vs: seq<ValidatorStake> := [];
    for i := 0 to n
      invariant ParseItems(f, data.raw, o, i) == Some((vs, data.offset))
    {
      var v := DecodeValidatorStake(data);
      if v.None? {
        ItemsFail(f, data.raw, o, i + 1, n);
        return None;
      }
      vs := vs + [v.value];
    }
    r := Some(vs);
  }

  /** The cursor is rewound over the list to hash it and set back. */
  method DecodeHashedStakes(sha: Sha, data: Data) returns (r: Option<StakeList>)
    modifies data`offset
    ensures Did(StakesCodec().decode(data.raw, old(data.offset)), if r.None? then None else Some(r.value.stakes),
                data.offset)
    ensures r.Some? ==> r.value.hash == sha(StakesCodec().encode(r.value.stakes))
  {
    var start := data.offset;
    var vs :- DecodeStakes(data);
    var stop := data.offset;
    StakesExact();
    Span(StakesCodec(), data.raw, start, vs, stop);
    data.offset := start;
    var h := data.PeekSha256(sha, stop - start);
    data.offset := stop;
    r := Some(StakeList(vs, h));
  }

  method DecodeOptionalStakes(sha: Sha, data: Data) returns (r: Option<Option<StakeList>>)
    modifies data`offset
    ensures Did(ParseOptionalStakes(sha, data.raw, old(data.offset)), r, data.offset)
  {
    var k :- data.DecodeU8();
    if k == 0 {
      return Some(None);
    }
    var list :- DecodeHashedStakes(sha, data);
    r := Some(Some(list));
  }

  method DecodeSignature(data: Data) returns (r: Option<Signature>)
    modifies data`offset
    ensures Did(ParseSignature(data.raw, old(data.offset)), r, data.offset)
  {
    var k :- data.DecodeU8();
    if k == 0 {
      var x :- data.DecodeBytes32();
      var y :- data.DecodeBytes32();
      return Some(Ed25519Signature(x, y));
    } else if k == 1 {
      var x :- data.DecodeBytes32();
      var y :- data.DecodeBytes32();
      var v :- data.DecodeU8();
      return Some(Secp256k1Signature(x, y, v));
    }
    return None;
  }

  method DecodeOptionalSignature(data: Data) returns (r: Option<Option<Signature>>)
    modifies data`offset
    ensures Did(ParseOptionalSignature(data.raw, old(data.offset)), r, data.offset)
  {
    var k :- data.DecodeU8();
    if k == 0 {
      return Some(None);
    }
    var g :- DecodeSignature(data);
    r := Some(Some(g));
  }

  method DecodeApprovals(data: Data) returns (r: Option<seq<Option<Signature>>>)
    modifies data`offset
    ensures Did(ParseApprovals(data.raw, old(data.offset)), r, data.offset)
  {
    var n :- data.DecodeU32();
    ghost var o := data.offset;
    var vs: seq<Option<Signature>> := [];
    for i := 0 to n
      invariant ParseItems(ParseOptionalSignature, data.raw, o, i) == Some((vs, data.offset))
    {
      var v := DecodeOptionalSignature(data);
      if v.None? {
        ItemsFail(ParseOptionalSignature, data.raw, o, i + 1, n);
        return None;
      }
      vs := vs + [v.value];
    }
    r := Some(vs);
  }

  method DecodeInnerLite(sha: Sha, data: Data) returns (r: Option<InnerLite>)
    modifies data`offset
    ensures Did(ParseInnerLite(sha, data.raw, old(data.offset)), r, data.offset)
  {
    var hash := data.PeekSha256(sha, INNER_LITE_SIZE);
    var height :- data.DecodeU64();
    Fits8(height);
    var epochId :- data.DecodeBytes32();
    var nextEpochId :- data.DecodeBytes32();
    var prevStateRoot :- data.DecodeBytes32();
    var outcomeRoot :- data.DecodeBytes32();
    var timestamp :- data.DecodeU64();
    Fits8(timestamp);
    var nextBpHash :- data.DecodeBytes32();
    var blockMerkleRoot :- data.DecodeBytes32();
    r := Some(InnerLite(height, epochId, nextEpochId, prevStateRoot, outcomeRoot, timestamp, nextBpHash,
                        blockMerkleRoot, hash));
  }

  method DecodeHead(sha: Sha, data: Data) returns (r: Option<(Bytes32, Bytes32, InnerLite, Bytes32)>)
    modifies data`offset
    ensures Did(ParseHead(sha, data.raw, old(data.offset)), r, data.offset)
  {
    var prev :- data.DecodeBytes32();
    var nextInner :- data.DecodeBytes32();
    var inner :- DecodeInnerLite(sha, data);
    var rest :- data.DecodeBytes32();
    r := Some((prev, nextInner, inner, rest));
  }

  method DecodeLightClientBlock(sha: Sha, data: Data) returns (r: Option<LightClientBlock>)
    modifies data`offset
    ensures Did(ParseLightClientBlock(sha, data.raw, old(data.offset)), r, data.offset)
  {
    var head :- DecodeHead(sha, data);
    var (prev, nextInner, inner, rest) := head;
    var bps :- DecodeOptionalStakes(sha, data);
    var approvals :- DecodeApprovals(data);
    var hash: Bytes32 := BlockHash(sha, inner.hash, rest, prev);
    var link: Bytes := nextInner + hash;
    r := Some(LightClientBlock(prev, nextInner, inner, rest, bps, approvals, hash, sha(link)));
  }
}
