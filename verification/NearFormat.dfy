/** The wire format of light-client blocks and validator lists, as NearDecoder.sol reads it. */
module NearFormat {
  import opened Prelude
  import opened NearTypes
  import opened Borsh

  // ----- keys and validators -----

  function ParsePublicKey(raw: Bytes, o: nat): Parsed<PublicKey> {
    var (k, o1) :- ParseU8(raw, o);
    if k == 0 then
      var (xy, o2) :- ParseBytes32(raw, o1);
      Some((Ed25519Key(xy), o2))
    else if k == 1 then
      var (x, o2) :- ParseUint(32, raw, o1);
      var (y, o3) :- ParseUint(32, raw, o2);
      Fits32(x);
      Fits32(y);
      Some((Secp256k1Key(x, y), o3))
    else None
  }

  function PublicKeyBytes(k: PublicKey): Bytes {
    match k
    case Ed25519Key(xy) => [0] + xy
    case Secp256k1Key(x, y) => [1] + (LeBytes(32, x) + LeBytes(32, y))
  }

  lemma PublicKeyReads(raw: Bytes, o: nat, k: PublicKey)
    ensures Reads(ParsePublicKey(raw, o), raw, o, PublicKeyBytes(k), k)
  {
    U8Reads(raw, o, if k.Ed25519Key? then 0 else 1);
    match k
    case Ed25519Key(xy) =>
      AtSplit(raw, o, [0], xy);
      Bytes32Reads(raw, o + 1, xy);
    case Secp256k1Key(x, y) =>
      AtSplit(raw, o, [1], LeBytes(32, x) + LeBytes(32, y));
      AtSplit(raw, o + 1, LeBytes(32, x), LeBytes(32, y));
      U256Reads(raw, o + 1, x);
      U256Reads(raw, o + 33, y);
  }

  function PublicKeyCodec(): Codec<PublicKey> { Codec(ParsePublicKey, PublicKeyBytes, _ => true) }

  lemma PublicKeyExact()
    ensures Exact(PublicKeyCodec())
  {
    forall raw: Bytes, o: nat, v: PublicKey {:trigger ExactAt(PublicKeyCodec(), raw, o, v)}
      ensures ExactAt(PublicKeyCodec(), raw, o, v)
    {
      PublicKeyReads(raw, o, v);
    }
  }

  type ValidatorParts = (Bytes, (PublicKey, U128))

  function MakeValidator(t: ValidatorParts): ValidatorStake { ValidatorStake(t.0, t.1.0, t.1.1) }

  function PartsOfValidator(v: ValidatorStake): ValidatorParts { (v.accountId, (v.publicKey, v.stake)) }

  function ValidatorCodec(): Codec<ValidatorStake> {
    Built(Pair(BytesCodec(), Pair(PublicKeyCodec(), U128Codec())), MakeValidator, PartsOfValidator)
  }

  lemma ValidatorEncoding(v: ValidatorStake)
    ensures ValidatorCodec().encode(v) == BytesBytes(v.accountId) + (PublicKeyBytes(v.publicKey) + LeBytes(16, v.stake))
    ensures ValidatorCodec().ok(v) <==> |v.accountId| <= MAX_U32
  {
    var t := PartsOfValidator(v);
    assert ValidatorCodec().encode(v) == Pair(BytesCodec(), Pair(PublicKeyCodec(), U128Codec())).encode(t);
    assert Pair(PublicKeyCodec(), U128Codec()).encode(t.1) == PublicKeyBytes(v.publicKey) + U128Bytes(v.stake);
    assert Pair(PublicKeyCodec(), U128Codec()).ok(t.1);
    assert Pair(BytesCodec(), Pair(PublicKeyCodec(), U128Codec())).ok(t) <==> BytesCodec().ok(v.accountId);
  }

  /** The list of `decodeInitialValidators`, and the body of an optional list. */
  function StakesCodec(): Codec<seq<ValidatorStake>> { Vec(ValidatorCodec()) }

  /** Decoding a validator list and its encoding undo each other. */
  lemma StakesExact()
    ensures Exact(StakesCodec())
  {
    BytesExact();
    PublicKeyExact();
    U128Exact();
    PairExact(PublicKeyCodec(), U128Codec());
    PairExact(BytesCodec(), Pair(PublicKeyCodec(), U128Codec()));
    BuiltExact(Pair(BytesCodec(), Pair(PublicKeyCodec(), U128Codec())), MakeValidator, PartsOfValidator);
    VecExact(ValidatorCodec());
  }

  /** Any flag but zero stands for a present list. The hash covers the list with its count and not the flag. */
  function ParseOptionalStakes(sha: Sha, raw: Bytes, o: nat): Parsed<Option<StakeList>> {
    var (k, o1) :- ParseU8(raw, o);
    if k == 0 then Some((None, o1)) else
      var (vs, o2) :- StakesCodec().decode(raw, o1);
      Some((Some(StakeList(vs, sha(StakesCodec().encode(vs)))), o2))
  }

  // ----- signatures -----

  function ParseSignature(raw: Bytes, o: nat): Parsed<Signature> {
    var (k, o1) :- ParseU8(raw, o);
    if k == 0 then
      var (r, o2) :- ParseBytes32(raw, o1);
      var (s, o3) :- ParseBytes32(raw, o2);
      Some((Ed25519Signature(r, s), o3))
    else if k == 1 then
      var (r, o2) :- ParseBytes32(raw, o1);
      var (s, o3) :- ParseBytes32(raw, o2);
      var (v, o4) :- ParseU8(raw, o3);
      Some((Secp256k1Signature(r, s, v), o4))
    else None
  }

  function SignatureBytes(g: Signature): Bytes {
    match g
    case Ed25519Signature(r, s) => [0] + (r + s)
    case Secp256k1Signature(r, s, v) => [1] + (r + (s + [v]))
  }

  /** Both kinds of signature are read exactly where their bytes lie. */
  lemma SignatureReads(raw: Bytes, o: nat, g: Signature)
    ensures Reads(ParseSignature(raw, o), raw, o, SignatureBytes(g), g)
  {
    U8Reads(raw, o, if g.Ed25519Signature? then 0 else 1);
    match g
    case Ed25519Signature(r, s) =>
      AtSplit(raw, o, [0], r + s);
      AtSplit(raw, o + 1, r, s);
      Bytes32Reads(raw, o + 1, r);
      Bytes32Reads(raw, o + 33, s);
    case Secp256k1Signature(r, s, v) =>
      AtSplit(raw, o, [1], r + (s + [v]));
      AtSplit(raw, o + 1, r, s + [v]);
      AtSplit(raw, o + 33, s, [v]);
      Bytes32Reads(raw, o + 1, r);
      Bytes32Reads(raw, o + 33, s);
      U8Reads(raw, o + 65, v);
  }

  /** Any flag but zero stands for a present signature. */
  function ParseOptionalSignature(raw: Bytes, o: nat): Parsed<Option<Signature>> {
    var (k, o1) :- ParseU8(raw, o);
    if k == 0 then Some((None, o1)) else
      var (g, o2) :- ParseSignature(raw, o1);
      Some((Some(g), o2))
  }

  function ParseApprovals(raw: Bytes, o: nat): Parsed<seq<Option<Signature>>> {
    ParseVec(ParseOptionalSignature, raw, o)
  }

  // ----- blocks -----

  const INNER_LITE_SIZE: nat := 208

  /** The layout of the 208 bytes that the inner hash covers. */
  function ParseInnerLite(sha: Sha, raw: Bytes, o: nat): Parsed<InnerLite> {
    if o + INNER_LITE_SIZE <= |raw| then
      LeBound(raw[o..o + 8]);
      LeBound(raw[o + 136..o + 144]);
      Fits8(LeValue(raw[o..o + 8]));
      Fits8(LeValue(raw[o + 136..o + 144]));
      Some((InnerLite(LeValue(raw[o..o + 8]), raw[o + 8..o + 40], raw[o + 40..o + 72], raw[o + 72..o + 104],
                      raw[o + 104..o + 136], LeValue(raw[o + 136..o + 144]), raw[o + 144..o + 176],
                      raw[o + 176..o + 208], sha(raw[o..o + 208])),
            o + INNER_LITE_SIZE))
    else None
  }

  function BlockHash(sha: Sha, innerHash: Bytes32, restHash: Bytes32, prevHash: Bytes32): Bytes32 {
    sha(sha(innerHash + restHash) + prevHash)
  }

  /** What comes before the two lists. */
  function ParseHead(sha: Sha, raw: Bytes, o: nat): Parsed<(Bytes32, Bytes32, InnerLite, Bytes32)> {
    var (prev, o1) :- ParseBytes32(raw, o);
    var (nextInner, o2) :- ParseBytes32(raw, o1);
    var (inner, o3) :- ParseInnerLite(sha, raw, o2);
    var (rest, o4) :- ParseBytes32(raw, o3);
    Some(((prev, nextInner, inner, rest), o4))
  }

  lemma HeadLies(sha: Sha, raw: Bytes, o: nat)
    ensures var p := ParseHead(sha, raw, o);
            && (p.Some? <==> o + 304 <= |raw|)
            && (p.Some? ==> p.value.1 == o + 304 && p.value.0.0 == raw[o..o + 32] && p.value.0.1 == raw[o + 32..o + 64]
                            && p.value.0.2.hash == sha(raw[o + 64..o + 272]) && p.value.0.3 == raw[o + 272..o + 304])
  {
  }

  /** What the computed hashes of a decoded block cover, byte for byte: the inner hash the 208 bytes of the inner part, the
      block hash that and the hashes around it, and the next hash the announced one before the block's own. */
  lemma DecodedHashes(sha: Sha, raw: Bytes, o: nat)
    ensures var p := ParseLightClientBlock(sha, raw, o);
            p.Some? ==>
              && o + 304 <= |raw|
              && p.value.0.innerLite.hash == sha(raw[o + 64..o + 272])
              && p.value.0.hash == sha(sha(sha(raw[o + 64..o + 272]) + raw[o + 272..o + 304]) + raw[o..o + 32])
              && p.value.0.nextHash == sha(raw[o + 32..o + 64] + p.value.0.hash)
  {
    HeadLies(sha, raw, o);
  }

  /** `decodeLightClientBlock`. */
  function ParseLightClientBlock(sha: Sha, raw: Bytes, o: nat): Parsed<LightClientBlock> {
    var ((prev, nextInner, inner, rest), o1) :- ParseHead(sha, raw, o);
    var (bps, o2) :- ParseOptionalStakes(sha, raw, o1);
    var (approvals, o3) :- ParseApprovals(raw, o2);
    var hash := BlockHash(sha, inner.hash, rest, prev);
    Some((LightClientBlock(prev, nextInner, inner, rest, bps, approvals, hash, sha(nextInner + hash)), o3))
  }
}
