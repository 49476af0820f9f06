/** The wire format of outcome proofs: what ProofDecoder.sol accepts, and its canonical encoding. Unlike the
    block format it has no optional flag, so a buffer is accepted exactly when it is an encoding. */
module ProofFormat {
  import opened Prelude
  import opened NearTypes
  import opened Borsh
  import opened NearFormat
  import opened NearWriter
  import Merkle

  type PathItem = Merkle.Item<Bytes32>

  datatype Status =
    | Unknown
    | Failed
    | SuccessValue(data: Bytes)
    | SuccessReceiptId(id: Bytes32)

  datatype Outcome = Outcome(
    logs: seq<Bytes>, receiptIds: seq<Bytes32>, gasBurnt: U64, tokensBurnt: U128, executorId: Bytes, status: Status)

  /** A block header with its hash. */
  datatype HeaderLight = HeaderLight(prevBlockHash: Bytes32, innerRestHash: Bytes32, innerLite: InnerLite, hash: Bytes32)

  /** An outcome with its id and its hash. */
  datatype Identified = Identified(id: Bytes32, outcome: Outcome, hash: Bytes32)

  datatype OutcomeProof = OutcomeProof(proof: seq<PathItem>, blockHash: Bytes32, outcome: Identified)

  /** A whole proof; the hashes in it are computed while decoding. */
  datatype FullProof = FullProof(
    outcomeProof: OutcomeProof, outcomeRootProof: seq<PathItem>, header: HeaderLight, blockProof: seq<PathItem>)

  // ----- paths -----

  function ParsePathItem(raw: Bytes, o: nat): Parsed<PathItem>
  {
    var (h, o1) :- ParseBytes32(raw, o);
    var (d, o2) :- ParseU8(raw, o1);
    if d < 2 then Some((Merkle.Item(h, d == 1), o2)) else None
  }

  function PathItemBytes(i: PathItem): Bytes {
    i.hash + [if i.right then 1 else 0]
  }

  lemma PathItemReads(raw: Bytes, o: nat, i: PathItem)
    ensures Reads(ParsePathItem(raw, o), raw, o, PathItemBytes(i), i)
  {
    AtSplit(raw, o, i.hash, [if i.right then 1 else 0]);
    Bytes32Reads(raw, o, i.hash);
    U8Reads(raw, o + 32, if i.right then 1 else 0);
  }

  /** A sibling comes with the byte 0 when it stands on the left and 1 when it stands on the right. */
  lemma DirectionByte(raw: Bytes, o: nat)
    ensures var p := ParsePathItem(raw, o);
            && (p.Some? <==> o + 33 <= |raw| && (raw[o + 32] == 0 || raw[o + 32] == 1))
            && (p.Some? ==> p.value.0.hash == raw[o..o + 32] && (p.value.0.right <==> raw[o + 32] == 1) && p.value.1 == o + 33)
  {
  }

  function PathItemCodec(): Codec<PathItem> { Codec(ParsePathItem, PathItemBytes, _ => true) }

  lemma PathItemExact()
    ensures Exact(PathItemCodec())
  {
    forall raw: Bytes, o: nat, v: PathItem {:trigger ExactAt(PathItemCodec(), raw, o, v)}
      ensures ExactAt(PathItemCodec(), raw, o, v)
    {
      PathItemReads(raw, o, v);
    }
  }

  function PathCodec(): Codec<seq<PathItem>> { Vec(PathItemCodec()) }

  lemma PathExact()
    ensures Exact(PathCodec())
  {
    PathItemExact();
    VecExact(PathItemCodec());
  }

  // ----- outcomes -----

  function ParseStatus(raw: Bytes, o: nat): Parsed<Status>
  {
    var (k, o1) :- ParseU8(raw, o);
    if k == 0 then Some((Unknown, o1))
    else if k == 1 then Some((Failed, o1))
    else if k == 2 then
      var (d, o2) :- ParseBytes(raw, o1);
      Some((SuccessValue(d), o2))
    else if k == 3 then
      var (i, o2) :- ParseBytes32(raw, o1);
      Some((SuccessReceiptId(i), o2))
    else None
  }

  function StatusBytes(s: Status): Bytes {
    match s
    case Unknown => [0]
    case Failed => [1]
    case SuccessValue(d) => [2] + BytesBytes(d)
    case SuccessReceiptId(i) => [3] + i
  }

  predicate StatusFits(s: Status) {
    s.SuccessValue? ==> |s.data| <= MAX_U32
  }

  lemma StatusReads(raw: Bytes, o: nat, s: Status)
    requires StatusFits(s)
    ensures Reads(ParseStatus(raw, o), raw, o, StatusBytes(s), s)
  {
    match s
    case Unknown => U8Reads(raw, o, 0);
    case Failed => U8Reads(raw, o, 1);
    case SuccessValue(d) =>
      U8Reads(raw, o, 2);
      AtSplit(raw, o, [2], BytesBytes(d));
      BytesReads(raw, o + 1, d);
    case SuccessReceiptId(i) =>
      U8Reads(raw, o, 3);
      AtSplit(raw, o, [3], i);
      Bytes32Reads(raw, o + 1, i);
  }

  function StatusCodec(): Codec<Status> { Codec(ParseStatus, StatusBytes, StatusFits) }

  lemma StatusExact()
    ensures Exact(StatusCodec())
  {
    forall raw: Bytes, o: nat, v: Status {:trigger ExactAt(StatusCodec(), raw, o, v)}
      ensures ExactAt(StatusCodec(), raw, o, v)
    {
      if StatusFits(v) {
        StatusReads(raw, o, v);
      }
      StatusYields(raw, o);
    }
  }

  lemma StatusYields(raw: Bytes, o: nat)
    ensures var p := ParseStatus(raw, o); p.Some? ==> StatusFits(p.value.0)
  {
    var p := ParseUint(4, raw, o + 1);
    if p.Some? {
      Fits4(p.value.0);
    }
  }

  /** Everything of an outcome but its logs: the bytes that its first hash covers. */
  datatype Body = Body(receiptIds: seq<Bytes32>, gasBurnt: U64, tokensBurnt: U128, executorId: Bytes, status: Status)

  type BodyParts = (seq<Bytes32>, (U64, (U128, (Bytes, Status))))

  function MakeBody(t: BodyParts): Body { Body(t.0, t.1.0, t.1.1.0, t.1.1.1.0, t.1.1.1.1) }

  function PartsOfBody(b: Body): BodyParts { (b.receiptIds, (b.gasBurnt, (b.tokensBurnt, (b.executorId, b.status)))) }

  function BodyPartsCodec(): Codec<BodyParts> {
    Pair(Vec(Bytes32Codec()), Pair(U64Codec(), Pair(U128Codec(), Pair(BytesCodec(), StatusCodec()))))
  }

  function BodyCodec(): Codec<Body> { Built(BodyPartsCodec(), MakeBody, PartsOfBody) }

  lemma BodyExact()
    ensures Exact(BodyCodec())
  {
    Bytes32Exact();
    VecExact(Bytes32Codec());
    U64Exact();
    U128Exact();
    BytesExact();
    StatusExact();
    PairExact(BytesCodec(), StatusCodec());
    PairExact(U128Codec(), Pair(BytesCodec(), StatusCodec()));
    PairExact(U64Codec(), Pair(U128Codec(), Pair(BytesCodec(), StatusCodec())));
    PairExact(Vec(Bytes32Codec()), Pair(U64Codec(), Pair(U128Codec(), Pair(BytesCodec(), StatusCodec()))));
    BuiltExact(BodyPartsCodec(), MakeBody, PartsOfBody);
  }

  // ----- what decoding computes -----

  function Hashes(sha: Sha, logs: seq<Bytes>): seq<Bytes32> {
    if logs == [] then [] else Hashes(sha, logs[..|logs| - 1]) + [sha(logs[|logs| - 1])]
  }

  /** `merkelization_hashes`: the body, then every log. */
  function MerkleHashes(sha: Sha, body: Bytes, logs: seq<Bytes>): seq<Bytes32> {
    [sha(body)] + Hashes(sha, logs)
  }

  /** The hash of an outcome: a counted list of its id and its hashes, the count taken modulo 2^32. */
  function OutcomeHash(sha: Sha, id: Bytes32, hashes: seq<Bytes32>): Bytes32 {
    sha(LeBytes(4, 1 + |hashes|) + id + ItemsBytes(Whole, hashes))
  }

  type IdentifiedParts = (Bytes32, (seq<Bytes>, Body))

  /** The hash covers exactly the body of the outcome, and each log. */
  function MakeIdentified(sha: Sha, t: IdentifiedParts): Identified {
    var b := t.1.1;
    Identified(t.0, Outcome(t.1.0, b.receiptIds, b.gasBurnt, b.tokensBurnt, b.executorId, b.status),
               OutcomeHash(sha, t.0, MerkleHashes(sha, BodyCodec().encode(b), t.1.0)))
  }

  function PartsOfIdentified(w: Identified): IdentifiedParts {
    var o := w.outcome;
    (w.id, (o.logs, Body(o.receiptIds, o.gasBurnt, o.tokensBurnt, o.executorId, o.status)))
  }

  function IdentifiedMaker(sha: Sha): IdentifiedParts -> Identified { t => MakeIdentified(sha, t) }

  function IdentifiedCodec(sha: Sha): Codec<Identified> {
    Built(Pair(Bytes32Codec(), Pair(Vec(BytesCodec()), BodyCodec())), IdentifiedMaker(sha), PartsOfIdentified)
  }

  lemma IdentifiedExact(sha: Sha)
    ensures Exact(IdentifiedCodec(sha))
  {
    Bytes32Exact();
    BytesExact();
    VecExact(BytesCodec());
    BodyExact();
    PairExact(Vec(BytesCodec()), BodyCodec());
    PairExact(Bytes32Codec(), Pair(Vec(BytesCodec()), BodyCodec()));
    BuiltExact(Pair(Bytes32Codec(), Pair(Vec(BytesCodec()), BodyCodec())), IdentifiedMaker(sha), PartsOfIdentified);
  }

  // ----- headers -----

  lemma InnerLiteReads(sha: Sha, raw: Bytes, o: nat, i: InnerLite)
    ensures ParseInnerLite(sha, raw, o).Some? ==>
              var v := ParseInnerLite(sha, raw, o).value.0;
              At(raw, o, InnerLiteBytes(v)) && v.hash == sha(InnerLiteBytes(v))
    ensures i.hash == sha(InnerLiteBytes(i)) ==> Reads(ParseInnerLite(sha, raw, o), raw, o, InnerLiteBytes(i), i)
  {
    if At(raw, o, InnerLiteBytes(i)) {
      InnerLiteRoundTrip(sha, raw, o, i);
    }
    if o + 208 <= |raw| {
      var v := ParseInnerLite(sha, raw, o).value.0;
      LeBound(raw[o..o + 8]);
      LeReads(raw[o..o + 8], v.height);
      LeBound(raw[o + 136..o + 144]);
      LeReads(raw[o + 136..o + 144], v.timestamp);
      Rejoin(raw, o);
    }
  }

  lemma Rejoin(raw: Bytes, o: nat)
    requires o + 208 <= |raw|
    ensures raw[o..o + 208] == raw[o..o + 8] + raw[o + 8..o + 40] + raw[o + 40..o + 72] + raw[o + 72..o + 104] +
                               raw[o + 104..o + 136] + raw[o + 136..o + 144] + raw[o + 144..o + 176] +
                               raw[o + 176..o + 208]
  {
    assert raw[o..o + 40] == raw[o..o + 8] + raw[o + 8..o + 40];
    assert raw[o..o + 72] == raw[o..o + 40] + raw[o + 40..o + 72];
    assert raw[o..o + 104] == raw[o..o + 72] + raw[o + 72..o + 104];
    assert raw[o..o + 136] == raw[o..o + 104] + raw[o + 104..o + 136];
    assert raw[o..o + 144] == raw[o..o + 136] + raw[o + 136..o + 144];
    assert raw[o..o + 176] == raw[o..o + 144] + raw[o + 144..o + 176];
    assert raw[o..o + 208] == raw[o..o + 176] + raw[o + 176..o + 208];
  }

  function InnerLiteParser(sha: Sha): Parser<InnerLite> { (raw, o) => ParseInnerLite(sha, raw, o) }

  function InnerLiteCodec(sha: Sha): Codec<InnerLite> {
    Codec(InnerLiteParser(sha), InnerLiteBytes, (i: InnerLite) => i.hash == sha(InnerLiteBytes(i)))
  }

  lemma InnerLiteExact(sha: Sha)
    ensures Exact(InnerLiteCodec(sha))
  {
    forall raw: Bytes, o: nat, v: InnerLite {:trigger ExactAt(InnerLiteCodec(sha), raw, o, v)}
      ensures ExactAt(InnerLiteCodec(sha), raw, o, v)
    {
      InnerLiteReads(sha, raw, o, v);
    }
  }

  type HeaderParts = (Bytes32, (Bytes32, InnerLite))

  function MakeHeader(sha: Sha, t: HeaderParts): HeaderLight {
    HeaderLight(t.0, t.1.0, t.1.1, BlockHash(sha, t.1.1.hash, t.1.0, t.0))
  }

  function PartsOfHeader(h: HeaderLight): HeaderParts { (h.prevBlockHash, (h.innerRestHash, h.innerLite)) }

  function HeaderMaker(sha: Sha): HeaderParts -> HeaderLight { t => MakeHeader(sha, t) }

  function HeaderCodec(sha: Sha): Codec<HeaderLight> {
    Built(Pair(Bytes32Codec(), Pair(Bytes32Codec(), InnerLiteCodec(sha))), HeaderMaker(sha), PartsOfHeader)
  }

  lemma HeaderExact(sha: Sha)
    ensures Exact(HeaderCodec(sha))
  {
    Bytes32Exact();
    InnerLiteExact(sha);
    PairExact(Bytes32Codec(), InnerLiteCodec(sha));
    PairExact(Bytes32Codec(), Pair(Bytes32Codec(), InnerLiteCodec(sha)));
    BuiltExact(Pair(Bytes32Codec(), Pair(Bytes32Codec(), InnerLiteCodec(sha))), HeaderMaker(sha), PartsOfHeader);
  }

  // ----- the whole proof -----

  type OutcomeProofParts = (seq<PathItem>, (Bytes32, Identified))

  function MakeOutcomeProof(t: OutcomeProofParts): OutcomeProof { OutcomeProof(t.0, t.1.0, t.1.1) }

  function PartsOfOutcomeProof(v: OutcomeProof): OutcomeProofParts { (v.proof, (v.blockHash, v.outcome)) }

  function OutcomeProofCodec(sha: Sha): Codec<OutcomeProof> {
    Built(Pair(PathCodec(), Pair(Bytes32Codec(), IdentifiedCodec(sha))), MakeOutcomeProof, PartsOfOutcomeProof)
  }

  lemma OutcomeProofExact(sha: Sha)
    ensures Exact(OutcomeProofCodec(sha))
  {
    PathExact();
    Bytes32Exact();
    IdentifiedExact(sha);
    PairExact(Bytes32Codec(), IdentifiedCodec(sha));
    PairExact(PathCodec(), Pair(Bytes32Codec(), IdentifiedCodec(sha)));
    BuiltExact(Pair(PathCodec(), Pair(Bytes32Codec(), IdentifiedCodec(sha))), MakeOutcomeProof, PartsOfOutcomeProof);
  }

  type FullProofParts = (OutcomeProof, (seq<PathItem>, (HeaderLight, seq<PathItem>)))

  function MakeFullProof(t: FullProofParts): FullProof { FullProof(t.0, t.1.0, t.1.1.0, t.1.1.1) }

  function PartsOfFullProof(v: FullProof): FullProofParts {
    (v.outcomeProof, (v.outcomeRootProof, (v.header, v.blockProof)))
  }

  function FullProofPartsCodec(sha: Sha): Codec<FullProofParts> {
    Pair(OutcomeProofCodec(sha), Pair(PathCodec(), Pair(HeaderCodec(sha), PathCodec())))
  }

  /** `decodeFullOutcomeProof` and the encoding it undoes. */
  function FullProofCodec(sha: Sha): Codec<FullProof> {
    Built(FullProofPartsCodec(sha), MakeFullProof, PartsOfFullProof)
  }

  lemma FullProofExact(sha: Sha)
    ensures Exact(FullProofCodec(sha))
  {
    OutcomeProofExact(sha);
    PathExact();
    HeaderExact(sha);
    PairExact(HeaderCodec(sha), PathCodec());
    PairExact(PathCodec(), Pair(HeaderCodec(sha), PathCodec()));
    PairExact(OutcomeProofCodec(sha), Pair(PathCodec(), Pair(HeaderCodec(sha), PathCodec())));
    BuiltExact(FullProofPartsCodec(sha), MakeFullProof, PartsOfFullProof);
  }

  /** A buffer is an acceptable proof exactly when it is the encoding of one whose hashes are right. */
  lemma AcceptedIsEncoding(sha: Sha, raw: Bytes, v: FullProof)
    ensures FullProofCodec(sha).decode(raw, 0) == Some((v, |raw|)) <==>
              FullProofCodec(sha).ok(v) && raw == FullProofCodec(sha).encode(v)
  {
    FullProofExact(sha);
    WholeBuffer(FullProofCodec(sha), raw, v);
  }

  // ----- which values have an encoding -----

  lemma OutcomeProofOk(sha: Sha, p: OutcomeProof)
    ensures OutcomeProofCodec(sha).ok(p) <==> PathCodec().ok(p.proof) && IdentifiedCodec(sha).ok(p.outcome)
  {
    var c := Pair(Bytes32Codec(), IdentifiedCodec(sha));
    var t := PartsOfOutcomeProof(p);
    assert c.ok(t.1) <==> IdentifiedCodec(sha).ok(p.outcome);
    assert Pair(PathCodec(), c).ok(t) <==> PathCodec().ok(p.proof) && c.ok(t.1);
    assert p == MakeOutcomeProof(t);
  }

  lemma FullProofOk(sha: Sha, v: FullProof)
    ensures FullProofCodec(sha).ok(v) <==>
              OutcomeProofCodec(sha).ok(v.outcomeProof) && Pair(PathCodec(), Pair(HeaderCodec(sha), PathCodec())).ok(PartsOfFullProof(v).1)
  {
    assert v == MakeFullProof(PartsOfFullProof(v));
    assert FullProofPartsCodec(sha).ok(PartsOfFullProof(v)) <==>
             OutcomeProofCodec(sha).ok(v.outcomeProof) && Pair(PathCodec(), Pair(HeaderCodec(sha), PathCodec())).ok(PartsOfFullProof(v).1);
  }

  lemma BodyOk(b: Body)
    ensures BodyCodec().ok(b) <==>
              Vec(Bytes32Codec()).ok(b.receiptIds) && BytesCodec().ok(b.executorId) && StatusCodec().ok(b.status)
  {
    var t := PartsOfBody(b);
    var c3 := Pair(BytesCodec(), StatusCodec());
    var c2 := Pair(U128Codec(), c3);
    var c1 := Pair(U64Codec(), c2);
    assert b == MakeBody(t);
    assert c3.ok(t.1.1.1) <==> BytesCodec().ok(b.executorId) && StatusCodec().ok(b.status);
    assert c2.ok(t.1.1) <==> c3.ok(t.1.1.1);
    assert c1.ok(t.1) <==> c2.ok(t.1.1);
    assert BodyPartsCodec().ok(t) <==> Vec(Bytes32Codec()).ok(b.receiptIds) && c1.ok(t.1);
  }

  lemma IdentifiedOk(sha: Sha, id: Bytes32, logs: seq<Bytes>, b: Body)
    requires Vec(BytesCodec()).ok(logs) && BodyCodec().ok(b)
    ensures IdentifiedCodec(sha).ok(MakeIdentified(sha, (id, (logs, b))))
  {
    var t := (id, (logs, b));
    var w := MakeIdentified(sha, t);
    assert PartsOfIdentified(w) == t;
    assert Pair(Vec(BytesCodec()), BodyCodec()).ok(t.1);
    assert Pair(Bytes32Codec(), Pair(Vec(BytesCodec()), BodyCodec())).ok(t);
    assert IdentifiedMaker(sha)(t) == w;
  }

  lemma HeaderOk(sha: Sha, prev: Bytes32, rest: Bytes32, i: InnerLite)
    requires i.hash == sha(InnerLiteBytes(i))
    ensures HeaderCodec(sha).ok(MakeHeader(sha, (prev, (rest, i))))
  {
    var t := (prev, (rest, i));
    var h := MakeHeader(sha, t);
    assert PartsOfHeader(h) == t;
    assert Pair(Bytes32Codec(), InnerLiteCodec(sha)).ok(t.1);
    assert Pair(Bytes32Codec(), Pair(Bytes32Codec(), InnerLiteCodec(sha))).ok(t);
    assert HeaderMaker(sha)(t) == h;
  }
}
