/** The writers of utils/borsh.js for light-client blocks and validator lists. A number that does not fit and a
    key that is not ed25519 throw. The account id is preceded by its JavaScript length, counted in UTF-16 units,
    though what follows is its UTF-8 bytes. */
module NearWriter {
  import opened Prelude
  import opened NearTypes
  import opened Borsh
  import opened NearFormat

  // ----- strings -----

  /** The number of UTF-16 units of a string, by its UTF-8 bytes: a byte that begins a character counts one, or two
      where the character takes four bytes; the other bytes count nothing. */
  function Units(text: Bytes): nat {
    if text == [] then 0
    else Units(text[1..]) + if text[0] >= 0xF0 then 2 else if 0x80 <= text[0] < 0xC0 then 0 else 1
  }

  /** How many bytes the character takes that begins with `lead`; zero for a byte that begins none. */
  function Width(lead: Byte): nat {
    if lead < 0x80 then 1
    else if 0xC2 <= lead < 0xE0 then 2
    else if 0xE0 <= lead < 0xF0 then 3
    else if 0xF0 <= lead < 0xF5 then 4
    else 0
  }

  /** Whole characters, each a leading byte with its continuation bytes. */
  ghost predicate Utf8(text: Bytes) {
    text == [] ||
    var n := Width(text[0]);
    && 0 < n <= |text|
    && (forall i :: 1 <= i < n ==> 0x80 <= text[i] < 0xC0)
    && Utf8(text[n..])
  }

  predicate Ascii(text: Bytes) {
    forall i :: 0 <= i < |text| ==> text[i] < 0x80
  }

  lemma UnitsSkip(text: Bytes, n: nat)
    requires 1 <= n <= |text| && forall i :: 1 <= i < n ==> 0x80 <= text[i] < 0xC0
    ensures Units(text) == Units(text[n..]) + Units([text[0]])
    decreases n
  {
    assert [text[0]][1..] == [];
    if n > 1 {
      UnitsSkip(text, n - 1);
      assert text[n - 1..][1..] == text[n..];
    }
  }

  /** A string has as many units as bytes exactly when it is ASCII, and never more. */
  lemma {:induction false} PlainIsAscii(text: Bytes)
    requires Utf8(text)
    ensures Units(text) <= |text| && (Units(text) == |text| <==> Ascii(text))
    decreases |text|
  {
    if text != [] {
      var n := Width(text[0]);
      PlainIsAscii(text[n..]);
      UnitsSkip(text, n);
      assert [text[0]][1..] == [];
      if n == 1 {
        assert forall i :: 1 <= i < |text| ==> text[i] == text[1..][i - 1];
      }
    }
  }

  // ----- writers -----

  /** `toBuffer('le', n)`. */
  function Num(n: nat, x: nat): Option<Bytes> {
    if x < Base(n) then Some(LeBytes(n, x)) else None
  }

  function WriteValidator(v: ValidatorStake): Option<Bytes> {
    var n :- Num(4, Units(v.accountId));
    match v.publicKey
    case Ed25519Key(xy) => Some(n + v.accountId + ([0] + xy + LeBytes(16, v.stake)))
    case Secp256k1Key(_, _) => None
  }

  function WriteValidators(vs: seq<ValidatorStake>): Option<Bytes> {
    if vs == [] then Some([]) else
      var init :- WriteValidators(vs[..|vs| - 1]);
      var last :- WriteValidator(vs[|vs| - 1]);
      Some(init + last)
  }

  /** `borshifyInitialValidators`, and the list inside a block. */
  function WriteStakes(vs: seq<ValidatorStake>): Option<Bytes> {
    var n :- Num(4, |vs|);
    var all :- WriteValidators(vs);
    Some(n + all)
  }

  function WriteApproval(g: Option<Signature>): Option<Bytes> {
    match g
    case None => Some([0])
    case Some(Ed25519Signature(r, s)) => Some([1] + ([0] + (r + s)))
    case Some(Secp256k1Signature(_, _, _)) => None
  }

  function WriteAllApprovals(gs: seq<Option<Signature>>): Option<Bytes> {
    if gs == [] then Some([]) else
      var init :- WriteAllApprovals(gs[..|gs| - 1]);
      var last :- WriteApproval(gs[|gs| - 1]);
      Some(init + last)
  }

  function WriteApprovals(gs: seq<Option<Signature>>): Option<Bytes> {
    var n :- Num(4, |gs|);
    var all :- WriteAllApprovals(gs);
    Some(n + all)
  }

  function InnerLiteBytes(i: InnerLite): (e: Bytes)
    ensures |e| == INNER_LITE_SIZE
  {
    LeBytes(8, i.height) + i.epochId + i.nextEpochId + i.prevStateRoot + i.outcomeRoot +
    LeBytes(8, i.timestamp) + i.nextBpHash + i.blockMerkleRoot
  }

  /** `borshify`; a block without the next producers throws. The hash fields of `b` are not written. */
  function Borshify(b: LightClientBlock): Option<Bytes> {
    if b.nextBps.None? then None else
      var bps :- WriteStakes(b.nextBps.value.stakes);
      var approvals :- WriteApprovals(b.approvals);
      Some(b.prevBlockHash + (b.nextBlockInnerHash + (InnerLiteBytes(b.innerLite) + (b.innerRestHash +
           ([1] + (bps + approvals))))))
  }

  // ----- the written list is the canonical one exactly for strings with as many units as bytes -----

  ghost predicate PlainId(v: ValidatorStake) {
    Units(v.accountId) == |v.accountId|
  }

  ghost predicate PlainIds(vs: seq<ValidatorStake>) {
    forall v {:trigger PlainId(v)} :: v in vs ==> PlainId(v)
  }

  lemma ValidatorCanonical(v: ValidatorStake, w: Bytes)
    requires WriteValidator(v) == Some(w)
    ensures |w| == |ValidatorCodec().encode(v)|
    ensures ValidatorCodec().ok(v) ==> (w == ValidatorCodec().encode(v) <==> PlainId(v))
    ensures PlainId(v) ==> ValidatorCodec().ok(v)
  {
    var tail := WrittenValidator(v, w);
    EncodedValidator(v, tail);
    Fits4(|v.accountId|);
    PrefixedAlike(Units(v.accountId), |v.accountId|, tail, w, ValidatorCodec().encode(v));
  }

  lemma WrittenValidator(v: ValidatorStake, w: Bytes) returns (tail: Bytes)
    requires WriteValidator(v) == Some(w)
    ensures Units(v.accountId) < Base(4) && w == LeBytes(4, Units(v.accountId)) + tail
    ensures tail == v.accountId + (PublicKeyBytes(v.publicKey) + LeBytes(16, v.stake))
  {
    tail := v.accountId + (PublicKeyBytes(v.publicKey) + LeBytes(16, v.stake));
  }

  lemma EncodedValidator(v: ValidatorStake, tail: Bytes)
    requires tail == v.accountId + (PublicKeyBytes(v.publicKey) + LeBytes(16, v.stake))
    ensures ValidatorCodec().encode(v) == LeBytes(4, |v.accountId|) + tail
    ensures ValidatorCodec().ok(v) <==> |v.accountId| <= MAX_U32
  {
    ValidatorEncoding(v);
  }

  lemma PrefixedAlike(x: nat, y: nat, tail: Bytes, w: Bytes, e: Bytes)
    requires x < Base(4) && w == LeBytes(4, x) + tail && e == LeBytes(4, y) + tail
    ensures |w| == |e| && (y <= MAX_U32 ==> (w == e <==> x == y))
  {
    SameSplit(LeBytes(4, x), tail, LeBytes(4, y), tail);
    if y <= MAX_U32 {
      SameCount(x, y);
    }
  }

  lemma SameCount(x: nat, y: nat)
    requires x < Base(4) && y <= MAX_U32
    ensures LeBytes(4, x) == LeBytes(4, y) <==> x == y
  {
    Fits4(y);
    LeReads(LeBytes(4, x), x);
    LeReads(LeBytes(4, x), y);
  }

  ghost predicate Fitting(vs: seq<ValidatorStake>) {
    forall i :: 0 <= i < |vs| ==> ValidatorCodec().ok(vs[i])
  }

  lemma {:induction false} ValidatorsCanonical(vs: seq<ValidatorStake>, w: Bytes)
    requires WriteValidators(vs) == Some(w)
    ensures |w| == |ItemsBytes(ValidatorCodec().encode, vs)|
    ensures PlainIds(vs) ==> Fitting(vs)
    ensures Fitting(vs) ==> (w == ItemsBytes(ValidatorCodec().encode, vs) <==> PlainIds(vs))
    decreases |vs|
  {
    if vs != [] {
      var init, last := vs[..|vs| - 1], vs[|vs| - 1];
      assert vs == init + [last];
      var a, b := WriteValidators(init).value, WriteValidator(last).value;
      ValidatorsCanonical(init, a);
      ValidatorCanonical(last, b);
      SameSplit(a, b, ItemsBytes(ValidatorCodec().encode, init), ValidatorCodec().encode(last));
      assert PlainIds(vs) <==> PlainIds(init) && PlainId(last);
      assert Fitting(vs) <==> Fitting(init) && ValidatorCodec().ok(last);
    }
  }

  lemma SameSplit(a: Bytes, b: Bytes, x: Bytes, y: Bytes)
    requires |a| == |x|
    ensures a + b == x + y <==> a == x && b == y
  {
    assert (a + b)[..|a|] == a && (a + b)[|a|..] == b;
    assert (x + y)[..|x|] == x && (x + y)[|x|..] == y;
  }

  lemma StakesCanonical(vs: seq<ValidatorStake>, w: Bytes)
    requires WriteStakes(vs) == Some(w)
    ensures |w| == |StakesCodec().encode(vs)|
    ensures StakesCodec().ok(vs) ==> (w == StakesCodec().encode(vs) <==> PlainIds(vs))
    ensures PlainIds(vs) ==> StakesCodec().ok(vs)
  {
    Fits4(|vs|);
    var n, all := LeBytes(4, |vs|), WriteValidators(vs).value;
    ValidatorsCanonical(vs, all);
    SameSplit(n, all, n, ItemsBytes(ValidatorCodec().encode, vs));
  }

  /** Where a written list lies, the decoder yields that list exactly when every id is plain. */
  lemma StakesRoundTrip(vs: seq<ValidatorStake>, w: Bytes, raw: Bytes, o: nat)
    requires WriteStakes(vs) == Some(w) && At(raw, o, w)
    ensures PlainIds(vs) ==>
              StakesCodec().decode(raw, o) == Some((vs, o + |w|)) && w == StakesCodec().encode(vs)
    ensures StakesCodec().decode(raw, o).Some? && StakesCodec().decode(raw, o).value.0 == vs ==> PlainIds(vs)
  {
    StakesCanonical(vs, w);
    StakesExact();
    OnlyEncoding(StakesCodec(), raw, o, w, vs);
  }

  /** Bytes as long as the encoding of a value decode to it exactly when they are its encoding. */
  lemma OnlyEncoding<T(!new)>(c: Codec<T>, raw: Bytes, o: nat, w: Bytes, v: T)
    requires Exact(c) && At(raw, o, w) && |w| == |c.encode(v)|
    ensures c.ok(v) && w == c.encode(v) ==> c.decode(raw, o) == Some((v, o + |w|))
    ensures c.decode(raw, o).Some? && c.decode(raw, o).value.0 == v ==> c.ok(v) && w == c.encode(v)
  {
    assert ExactAt(c, raw, o, v);
  }

  /** `decodeInitialValidators` undoes `borshifyInitialValidators` and ends at the end of the buffer, exactly
      when every account id has as many UTF-16 units as bytes. */
  lemma InitialValidatorsRoundTrip(vs: seq<ValidatorStake>, raw: Bytes)
    requires WriteStakes(vs) == Some(raw)
    ensures StakesCodec().decode(raw, 0) == Some((vs, |raw|)) <==> PlainIds(vs)
  {
    AtWhole(raw);
    StakesRoundTrip(vs, raw, raw, 0);
  }

  // ----- approvals -----

  /** What the writer emits for an approval it does not refuse. */
  function ApprovalBytes(g: Option<Signature>): Bytes {
    match g
    case Some(Ed25519Signature(r, s)) => [1] + ([0] + (r + s))
    case _ => [0]
  }

  ghost predicate Ed25519Only(gs: seq<Option<Signature>>) {
    forall g {:trigger g in gs} :: g in gs ==> g.None? || g.value.Ed25519Signature?
  }

  lemma ApprovalParses(raw: Bytes, o: nat, g: Option<Signature>)
    requires g.None? || g.value.Ed25519Signature?
    ensures ItemParses(ParseOptionalSignature, ApprovalBytes, raw, o, g)
  {
    if At(raw, o, ApprovalBytes(g)) {
      match g
      case None => U8Reads(raw, o, 0);
      case Some(Ed25519Signature(r, s)) =>
        AtSplit(raw, o, [1], [0] + (r + s));
        AtSplit(raw, o + 1, [0], r + s);
        AtSplit(raw, o + 2, r, s);
        U8Reads(raw, o, 1);
        U8Reads(raw, o + 1, 0);
        Bytes32Reads(raw, o + 2, r);
        Bytes32Reads(raw, o + 34, s);
    }
  }

  lemma {:induction false} ApprovalsCanonical(gs: seq<Option<Signature>>, w: Bytes)
    requires WriteAllApprovals(gs) == Some(w)
    ensures w == ItemsBytes(ApprovalBytes, gs) && Ed25519Only(gs)
    decreases |gs|
  {
    if gs != [] {
      assert gs == gs[..|gs| - 1] + [gs[|gs| - 1]];
      ApprovalsCanonical(gs[..|gs| - 1], WriteAllApprovals(gs[..|gs| - 1]).value);
    }
  }

  lemma ApprovalsParse(raw: Bytes, gs: seq<Option<Signature>>)
    requires Ed25519Only(gs)
    ensures AllParse(ParseOptionalSignature, ApprovalBytes, raw, gs)
  {
    forall o: nat, g {:trigger ItemParses(ParseOptionalSignature, ApprovalBytes, raw, o, g)} | g in gs
      ensures ItemParses(ParseOptionalSignature, ApprovalBytes, raw, o, g)
    {
      ApprovalParses(raw, o, g);
    }
  }

  lemma ApprovalsRoundTrip(gs: seq<Option<Signature>>, w: Bytes, raw: Bytes, o: nat)
    requires WriteApprovals(gs) == Some(w) && At(raw, o, w)
    ensures ParseApprovals(raw, o) == Some((gs, o + |w|))
  {
    Fits4(|gs|);
    ApprovalsCanonical(gs, WriteAllApprovals(gs).value);
    ApprovalsParse(raw, gs);
    VecParse(ParseOptionalSignature, ApprovalBytes, raw, o, gs);
  }

  // ----- blocks -----

  /** The eight fields of the inner part at their offsets. */
  lemma InnerLayout(raw: Bytes, o: nat, i: InnerLite)
    requires At(raw, o, InnerLiteBytes(i))
    ensures o + 208 <= |raw| && raw[o..o + 208] == InnerLiteBytes(i)
    ensures raw[o..o + 8] == LeBytes(8, i.height) && raw[o + 8..o + 40] == i.epochId
    ensures raw[o + 40..o + 72] == i.nextEpochId && raw[o + 72..o + 104] == i.prevStateRoot
    ensures raw[o + 104..o + 136] == i.outcomeRoot && raw[o + 136..o + 144] == LeBytes(8, i.timestamp)
    ensures raw[o + 144..o + 176] == i.nextBpHash && raw[o + 176..o + 208] == i.blockMerkleRoot
  {
    Part(raw, o, 208, 0, 8);
    Part(raw, o, 208, 8, 40);
    Part(raw, o, 208, 40, 72);
    Part(raw, o, 208, 72, 104);
    Part(raw, o, 208, 104, 136);
    Part(raw, o, 208, 136, 144);
    Part(raw, o, 208, 144, 176);
    Part(raw, o, 208, 176, 208);
  }

  lemma Part(raw: Bytes, o: nat, n: nat, j: nat, k: nat)
    requires o + n <= |raw| && j <= k <= n
    ensures raw[o + j..o + k] == raw[o..o + n][j..k]
  {
    var a, b := raw[o + j..o + k], raw[o..o + n][j..k];
    assert |a| == |b| && forall i :: 0 <= i < |a| ==> a[i] == b[i];
  }

  lemma InnerLiteRoundTrip(sha: Sha, raw: Bytes, o: nat, i: InnerLite)
    requires At(raw, o, InnerLiteBytes(i))
    ensures ParseInnerLite(sha, raw, o) == Some((i.(hash := sha(InnerLiteBytes(i))), o + 208))
  {
    InnerLayout(raw, o, i);
    Fits8(i.height);
    Fits8(i.timestamp);
    LeReads(raw[o..o + 8], i.height);
    LeReads(raw[o + 136..o + 144], i.timestamp);
  }

  /** The block with the hashes that the decoder computes: over the 208 inner bytes, over the counted validator
      list, and over the three hashes that make up the block hash and the next hash. */
  function Sealed(sha: Sha, b: LightClientBlock): LightClientBlock
    requires b.nextBps.Some?
  {
    var inner := b.innerLite.(hash := sha(InnerLiteBytes(b.innerLite)));
    var stakes := b.nextBps.value.stakes;
    var hash := BlockHash(sha, inner.hash, b.innerRestHash, b.prevBlockHash);
    b.(innerLite := inner, nextBps := Some(StakeList(stakes, sha(StakesCodec().encode(stakes)))),
       hash := hash, nextHash := sha(b.nextBlockInnerHash + hash))
  }

  /** The parts of a written block. */
  lemma BlockLayout(raw: Bytes, prev: Bytes32, next: Bytes32, inner: Bytes, rest: Bytes32, bps: Bytes, approvals: Bytes)
    requires |inner| == 208 && raw == prev + (next + (inner + (rest + ([1] + (bps + approvals)))))
    ensures At(raw, 0, prev) && At(raw, 32, next) && At(raw, 64, inner) && At(raw, 272, rest)
    ensures At(raw, 304, [1]) && At(raw, 305, bps) && At(raw, 305 + |bps|, approvals)
    ensures |raw| == 305 + |bps| + |approvals|
  {
    AtWhole(raw);
    AtSplit(raw, 0, prev, next + (inner + (rest + ([1] + (bps + approvals)))));
    AtSplit(raw, 32, next, inner + (rest + ([1] + (bps + approvals))));
    AtSplit(raw, 64, inner, rest + ([1] + (bps + approvals)));
    AtSplit(raw, 272, rest, [1] + (bps + approvals));
    AtSplit(raw, 304, [1], bps + approvals);
    AtSplit(raw, 305, bps, approvals);
  }

  /** The block with other lists. */
  function WithLists(sha: Sha, b: LightClientBlock, stakes: seq<ValidatorStake>, approvals: seq<Option<Signature>>)
    : LightClientBlock
    requires b.nextBps.Some?
  {
    Sealed(sha, b).(nextBps := Some(StakeList(stakes, sha(StakesCodec().encode(stakes)))), approvals := approvals)
  }

  /** The decoder on a written block, in terms of what it makes of the two lists. */
  lemma BlockParses(sha: Sha, raw: Bytes, b: LightClientBlock, p: Parsed<seq<ValidatorStake>>,
                    q: Parsed<seq<Option<Signature>>>, r: Parsed<LightClientBlock>)
    requires b.nextBps.Some?
    requires At(raw, 0, b.prevBlockHash) && At(raw, 32, b.nextBlockInnerHash) && At(raw, 64, InnerLiteBytes(b.innerLite))
    requires At(raw, 272, b.innerRestHash) && At(raw, 304, [1]) && p == StakesCodec().decode(raw, 305)
    requires q == if p.Some? then ParseApprovals(raw, p.value.1) else None
    requires r == ParseLightClientBlock(sha, raw, 0)
    ensures p.None? || q.None? ==> r.None?
    ensures p.Some? && q.Some? ==> r == Some((WithLists(sha, b, p.value.0, q.value.0), q.value.1))
  {
    Bytes32Reads(raw, 0, b.prevBlockHash);
    Bytes32Reads(raw, 32, b.nextBlockInnerHash);
    InnerLiteRoundTrip(sha, raw, 64, b.innerLite);
    Bytes32Reads(raw, 272, b.innerRestHash);
    U8Reads(raw, 304, 1);
  }

  /** `decodeLightClientBlock` recovers every field of a block that `borshify` wrote and ends at the end of the
      buffer, exactly when every account id has as many UTF-16 units as bytes. */
  lemma LightClientBlockRoundTrip(sha: Sha, b: LightClientBlock, raw: Bytes)
    requires Borshify(b) == Some(raw)
    ensures ParseLightClientBlock(sha, raw, 0) == Some((Sealed(sha, b), |raw|)) <==>
              PlainIds(b.nextBps.value.stakes)
  {
    var bps, approvals := WrittenParts(b, raw);
    PartsRecovered(sha, b, raw, bps, approvals);
  }

  lemma PartsRecovered(sha: Sha, b: LightClientBlock, raw: Bytes, bps: Bytes, approvals: Bytes)
    requires b.nextBps.Some?
    requires WriteStakes(b.nextBps.value.stakes) == Some(bps) && WriteApprovals(b.approvals) == Some(approvals)
    requires At(raw, 0, b.prevBlockHash) && At(raw, 32, b.nextBlockInnerHash) && At(raw, 64, InnerLiteBytes(b.innerLite))
    requires At(raw, 272, b.innerRestHash) && At(raw, 304, [1]) && At(raw, 305, bps)
    requires At(raw, 305 + |bps|, approvals) && |raw| == 305 + |bps| + |approvals|
    ensures ParseLightClientBlock(sha, raw, 0) == Some((Sealed(sha, b), |raw|)) <==>
              PlainIds(b.nextBps.value.stakes)
  {
    var p := StakesCodec().decode(raw, 305);
    var q := if p.Some? then ParseApprovals(raw, p.value.1) else None;
    var r := ParseLightClientBlock(sha, raw, 0);
    BlockParses(sha, raw, b, p, q, r);
    StakesRecovered(b.nextBps.value.stakes, bps, raw, p);
    ApprovalsRecovered(b.approvals, approvals, raw, 305 + |bps|, p, q);
    BlockRecovered(sha, b, raw, 305 + |bps|, p, q, r, PlainIds(b.nextBps.value.stakes));
  }

  lemma ApprovalsRecovered(gs: seq<Option<Signature>>, w: Bytes, raw: Bytes, o: nat,
                           p: Parsed<seq<ValidatorStake>>, q: Parsed<seq<Option<Signature>>>)
    requires WriteApprovals(gs) == Some(w) && At(raw, o, w) && |raw| == o + |w|
    requires q == if p.Some? then ParseApprovals(raw, p.value.1) else None
    ensures p.Some? && p.value.1 == o ==> q == Some((gs, |raw|))
  {
    ApprovalsRoundTrip(gs, w, raw, o);
  }

  lemma StakesRecovered(vs: seq<ValidatorStake>, bps: Bytes, raw: Bytes, p: Parsed<seq<ValidatorStake>>)
    requires At(raw, 305, bps) && WriteStakes(vs) == Some(bps) && p == StakesCodec().decode(raw, 305)
    ensures PlainIds(vs) ==> p == Some((vs, 305 + |bps|))
    ensures p.Some? && p.value.0 == vs ==> PlainIds(vs)
  {
    StakesRoundTrip(vs, bps, raw, 305);
  }

  lemma WrittenParts(b: LightClientBlock, raw: Bytes) returns (bps: Bytes, approvals: Bytes)
    requires Borshify(b) == Some(raw)
    ensures WriteStakes(b.nextBps.value.stakes) == Some(bps) && WriteApprovals(b.approvals) == Some(approvals)
    ensures At(raw, 0, b.prevBlockHash) && At(raw, 32, b.nextBlockInnerHash) && At(raw, 64, InnerLiteBytes(b.innerLite))
    ensures At(raw, 272, b.innerRestHash) && At(raw, 304, [1]) && At(raw, 305, bps)
    ensures At(raw, 305 + |bps|, approvals) && |raw| == 305 + |bps| + |approvals|
  {
    bps, approvals := WriteStakes(b.nextBps.value.stakes).value, WriteApprovals(b.approvals).value;
    BlockLayout(raw, b.prevBlockHash, b.nextBlockInnerHash, InnerLiteBytes(b.innerLite), b.innerRestHash, bps, approvals);
  }

  lemma BlockRecovered(sha: Sha, b: LightClientBlock, raw: Bytes, o: nat, p: Parsed<seq<ValidatorStake>>,
                       q: Parsed<seq<Option<Signature>>>, r: Parsed<LightClientBlock>, plain: bool)
    requires b.nextBps.Some?
    requires p.None? || q.None? ==> r.None?
    requires p.Some? && q.Some? ==> r == Some((WithLists(sha, b, p.value.0, q.value.0), q.value.1))
    requires plain ==> p == Some((b.nextBps.value.stakes, o))
    requires p.Some? && p.value.0 == b.nextBps.value.stakes ==> plain
    requires p.Some? && p.value.1 == o ==> q == Some((b.approvals, |raw|))
    ensures r == Some((Sealed(sha, b), |raw|)) <==> plain
  {
  }

  /** A list in which some id is not ASCII is not recovered. */
  lemma WideIdIsLost(vs: seq<ValidatorStake>, v: ValidatorStake, raw: Bytes)
    requires v in vs && Utf8(v.accountId) && !Ascii(v.accountId) && WriteStakes(vs) == Some(raw)
    ensures StakesCodec().decode(raw, 0) != Some((vs, |raw|))
  {
    PlainIsAscii(v.accountId);
    InitialValidatorsRoundTrip(vs, raw);
    assert !PlainId(v);
  }

  /** A validator named by one character of two bytes is written and not recovered. */
  lemma AccentIsLost(key: Bytes32, stake: U128)
    ensures var vs := [ValidatorStake([0xC3, 0xA9], Ed25519Key(key), stake)];
            WriteStakes(vs).Some? && StakesCodec().decode(WriteStakes(vs).value, 0) != Some((vs, |WriteStakes(vs).value|))
  {
    var id: Bytes := [0xC3, 0xA9];
    var v := ValidatorStake(id, Ed25519Key(key), stake);
    assert id[2..] == [] && Utf8(id) && !Ascii(id);
    PlainIsAscii(id);
    Fits4(Units(id));
    Fits4(1);
    OneWritten(v);
    WideIdIsLost([v], v, WriteStakes([v]).value);
  }

  lemma OneWritten(v: ValidatorStake)
    requires WriteValidator(v).Some? && 1 < Base(4)
    ensures WriteStakes([v]).Some?
  {
    assert [v][..0] == [] && WriteValidators([]) == Some([]);
  }
}
