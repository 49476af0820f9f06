/** The writer of utils/borshify-proof.js against the decoder of ProofDecoder.sol. */
module ProofWriter {
  import opened Prelude
  import opened NearTypes
  import opened Borsh
  import opened NearFormat
  import opened NearWriter
  import opened ProofFormat

  function WritePath(path: seq<PathItem>): Option<Bytes> {
    var n :- Num(4, |path|);
    Some(n + ItemsBytes(PathItemBytes, path))
  }

  /** Only the two successful kinds are supported. */
  function WriteStatus(s: Status): Option<Bytes> {
    match s
    case SuccessValue(d) =>
      var n :- Num(4, |d|);
      Some([2] + (n + d))
    case SuccessReceiptId(i) => Some([3] + i)
    case _ => None
  }

  /** `borshifyOutcomeProof`: of the logs only the count is written, of the outcome-root proof only a zero, and
      the executor id is preceded by its length in UTF-16 units. */
  function BorshifyOutcomeProof(v: FullProof): Option<Bytes> {
    var w := v.outcomeProof.outcome;
    var o := w.outcome;
    var path :- WritePath(v.outcomeProof.proof);
    var logs :- Num(4, |o.logs|);
    var ids :- Num(4, |o.receiptIds|);
    var executor :- Num(4, Units(o.executorId));
    var status :- WriteStatus(o.status);
    var block :- WritePath(v.blockProof);
    Some((path + (v.outcomeProof.blockHash + w.id)) +
         (logs + (((ids + ItemsBytes(Whole, o.receiptIds)) + (LeBytes(8, o.gasBurnt) + LeBytes(16, o.tokensBurnt))) +
         ((executor + o.executorId) + (status + (LeBytes(4, 0) +
         ((v.header.prevBlockHash + (v.header.innerRestHash + InnerLiteBytes(v.header.innerLite))) + block)))))))
  }

  // ----- the encoding spelled out -----

  lemma BodyEncoding(b: Body)
    ensures BodyCodec().encode(b) ==
      VecBytes(Whole, b.receiptIds) + (LeBytes(8, b.gasBurnt) + (LeBytes(16, b.tokensBurnt) +
      (BytesBytes(b.executorId) + StatusBytes(b.status))))
    ensures BodyCodec().ok(b) ==> |b.receiptIds| <= MAX_U32 && |b.executorId| <= MAX_U32 && StatusFits(b.status)
  {
    var t := PartsOfBody(b);
    var c3 := Pair(BytesCodec(), StatusCodec());
    var c2 := Pair(U128Codec(), c3);
    var c1 := Pair(U64Codec(), c2);
    assert BodyCodec().encode(b) == Pair(Vec(Bytes32Codec()), c1).encode(t);
    assert c1.encode(t.1) == U64Bytes(b.gasBurnt) + c2.encode(t.1.1);
    assert c2.encode(t.1.1) == U128Bytes(b.tokensBurnt) + c3.encode(t.1.1.1);
    assert c3.encode(t.1.1.1) == BytesBytes(b.executorId) + StatusBytes(b.status);
    if BodyCodec().ok(b) {
      assert Pair(Vec(Bytes32Codec()), c1).ok(t);
      assert c1.ok(t.1) && c2.ok(t.1.1) && c3.ok(t.1.1.1);
    }
  }

  lemma IdentifiedEncoding(sha: Sha, w: Identified)
    ensures IdentifiedCodec(sha).encode(w) ==
      w.id + (VecBytes(BytesBytes, w.outcome.logs) + BodyCodec().encode(PartsOfIdentified(w).1.1))
    ensures IdentifiedCodec(sha).ok(w) ==> |w.outcome.logs| <= MAX_U32 && BodyCodec().ok(PartsOfIdentified(w).1.1)
  {
    var t := PartsOfIdentified(w);
    var c := Pair(Vec(BytesCodec()), BodyCodec());
    assert IdentifiedCodec(sha).encode(w) == Pair(Bytes32Codec(), c).encode(t);
    assert c.encode(t.1) == VecBytes(BytesBytes, w.outcome.logs) + BodyCodec().encode(t.1.1);
    if IdentifiedCodec(sha).ok(w) {
      assert Pair(Bytes32Codec(), c).ok(t) && c.ok(t.1);
    }
  }

  lemma HeaderEncoding(sha: Sha, h: HeaderLight)
    ensures HeaderCodec(sha).encode(h) == h.prevBlockHash + (h.innerRestHash + InnerLiteBytes(h.innerLite))
  {
    var t := PartsOfHeader(h);
    var c := Pair(Bytes32Codec(), InnerLiteCodec(sha));
    assert HeaderCodec(sha).encode(h) == Pair(Bytes32Codec(), c).encode(t);
    assert c.encode(t.1) == h.innerRestHash + InnerLiteBytes(h.innerLite);
  }

  lemma OutcomeProofEncoding(sha: Sha, v: OutcomeProof)
    ensures OutcomeProofCodec(sha).encode(v) ==
      VecBytes(PathItemBytes, v.proof) + (v.blockHash + IdentifiedCodec(sha).encode(v.outcome))
    ensures OutcomeProofCodec(sha).ok(v) ==> |v.proof| <= MAX_U32 && IdentifiedCodec(sha).ok(v.outcome)
  {
    var t := PartsOfOutcomeProof(v);
    var c := Pair(Bytes32Codec(), IdentifiedCodec(sha));
    assert OutcomeProofCodec(sha).encode(v) == Pair(PathCodec(), c).encode(t);
    assert c.encode(t.1) == v.blockHash + IdentifiedCodec(sha).encode(v.outcome);
    if OutcomeProofCodec(sha).ok(v) {
      assert Pair(PathCodec(), c).ok(t) && c.ok(t.1);
    }
  }

  lemma FullProofEncoding(sha: Sha, v: FullProof)
    ensures FullProofCodec(sha).encode(v) ==
      OutcomeProofCodec(sha).encode(v.outcomeProof) + (VecBytes(PathItemBytes, v.outcomeRootProof) +
      (HeaderCodec(sha).encode(v.header) + VecBytes(PathItemBytes, v.blockProof)))
    ensures FullProofCodec(sha).ok(v) ==>
      OutcomeProofCodec(sha).ok(v.outcomeProof) && |v.outcomeRootProof| <= MAX_U32 && |v.blockProof| <= MAX_U32
  {
    var t := PartsOfFullProof(v);
    var c2 := Pair(HeaderCodec(sha), PathCodec());
    var c1 := Pair(PathCodec(), c2);
    assert FullProofCodec(sha).encode(v) == Pair(OutcomeProofCodec(sha), c1).encode(t);
    assert c1.encode(t.1) == PathCodec().encode(v.outcomeRootProof) + c2.encode(t.1.1);
    assert c2.encode(t.1.1) == HeaderCodec(sha).encode(v.header) + PathCodec().encode(v.blockProof);
    if FullProofCodec(sha).ok(v) {
      assert Pair(OutcomeProofCodec(sha), c1).ok(t) && c1.ok(t.1) && c2.ok(t.1.1);
    }
  }

  lemma Assoc(a: Bytes, b: Bytes, c: Bytes)
    ensures (a + b) + c == a + (b + c)
  {
  }

  lemma Regroup(p: Bytes, b: Bytes, i: Bytes, l: Bytes, d: Bytes, g: Bytes, t: Bytes, e: Bytes, s: Bytes, y: Bytes)
    ensures (p + (b + (i + (l + (d + (g + (t + (e + s)))))))) + y ==
            (p + (b + i)) + (l + ((d + (g + t)) + (e + (s + y))))
  {
    Assoc(e, s, y);
    Assoc(t, e + s, y);
    Assoc(g, t + (e + s), y);
    Assoc(d, g + (t + (e + s)), y);
    Assoc(l, d + (g + (t + (e + s))), y);
    Assoc(i, l + (d + (g + (t + (e + s)))), y);
    Assoc(b, i + (l + (d + (g + (t + (e + s))))), y);
    Assoc(p, b + (i + (l + (d + (g + (t + (e + s)))))), y);
    var x := e + (s + y);
    Assoc(g, t, x);
    Assoc(d, g + t, x);
    var z := l + (d + (g + (t + x)));
    Assoc(b, i, z);
    Assoc(p, b + i, z);
  }

  /** The parts that the writer and the encoding have in common. */
  ghost function Front(v: OutcomeProof): Bytes {
    VecBytes(PathItemBytes, v.proof) + (v.blockHash + v.outcome.id)
  }

  ghost function Middle(o: Outcome): Bytes {
    VecBytes(Whole, o.receiptIds) + (LeBytes(8, o.gasBurnt) + LeBytes(16, o.tokensBurnt))
  }

  ghost function Back(v: FullProof): Bytes {
    (v.header.prevBlockHash + (v.header.innerRestHash + InnerLiteBytes(v.header.innerLite))) +
    VecBytes(PathItemBytes, v.blockProof)
  }

  /** What the writer emits. */
  lemma WrittenInOrder(v: FullProof, raw: Bytes)
    requires BorshifyOutcomeProof(v) == Some(raw)
    ensures var o := v.outcomeProof.outcome.outcome;
      && Units(o.executorId) < Base(4)
      && raw == Front(v.outcomeProof) + (LeBytes(4, |o.logs|) + (Middle(o) +
                ((LeBytes(4, Units(o.executorId)) + o.executorId) + (StatusBytes(o.status) + (LeBytes(4, 0) + Back(v))))))
  {
  }

  /** The encoding of a proof in the order in which the writer emits it. */
  lemma EncodingInOrder(sha: Sha, v: FullProof)
    requires FullProofCodec(sha).ok(v)
    ensures var o := v.outcomeProof.outcome.outcome;
      FullProofCodec(sha).encode(v) == Front(v.outcomeProof) + (VecBytes(BytesBytes, o.logs) + (Middle(o) +
        (BytesBytes(o.executorId) + (StatusBytes(o.status) + (VecBytes(PathItemBytes, v.outcomeRootProof) + Back(v))))))
  {
    var w := v.outcomeProof.outcome;
    var o := w.outcome;
    FullProofEncoding(sha, v);
    OutcomeProofEncoding(sha, v.outcomeProof);
    IdentifiedEncoding(sha, w);
    BodyEncoding(PartsOfIdentified(w).1.1);
    HeaderEncoding(sha, v.header);
    Regroup(VecBytes(PathItemBytes, v.outcomeProof.proof), v.outcomeProof.blockHash, w.id,
            VecBytes(BytesBytes, o.logs), VecBytes(Whole, o.receiptIds), LeBytes(8, o.gasBurnt),
            LeBytes(16, o.tokensBurnt), BytesBytes(o.executorId), StatusBytes(o.status),
            VecBytes(PathItemBytes, v.outcomeRootProof) + Back(v));
  }

  lemma FittingParts(sha: Sha, v: FullProof)
    requires FullProofCodec(sha).ok(v)
    ensures |v.outcomeRootProof| <= MAX_U32 && |v.outcomeProof.outcome.outcome.logs| <= MAX_U32
    ensures |v.outcomeProof.outcome.outcome.executorId| <= MAX_U32
  {
    FullProofEncoding(sha, v);
    OutcomeProofEncoding(sha, v.outcomeProof);
    IdentifiedEncoding(sha, v.outcomeProof.outcome);
    BodyEncoding(PartsOfIdentified(v.outcomeProof.outcome).1.1);
  }

  /** Two layouts of the same parts, where the second has an item list `j` after `c`, another count `n` for `x`
      and the list `q` after the zero count. */
  lemma LayoutsAgree(f: Bytes, c: Bytes, j: Bytes, m: Bytes, u: Bytes, n: Bytes, x: Bytes, s: Bytes,
                     z: Bytes, r: Bytes, q: Bytes, y: Bytes)
    requires |u| == |n| && |z| == |r| && (q == [] ==> z == r)
    ensures f + (c + (m + ((u + x) + (s + (z + y))))) == f + ((c + j) + (m + ((n + x) + (s + ((r + q) + y)))))
            <==> j == [] && q == [] && u == n
  {
    var w, e := f + (c + (m + ((u + x) + (s + (z + y))))), f + ((c + j) + (m + ((n + x) + (s + ((r + q) + y)))));
    assert |e| == |w| + |j| + |q|;
    if j == [] && q == [] {
      assert c + j == c && r + q == r;
      SameSplit(f, c + (m + ((u + x) + (s + (z + y)))), f, c + (m + ((n + x) + (s + (z + y)))));
      SameSplit(c, m + ((u + x) + (s + (z + y))), c, m + ((n + x) + (s + (z + y))));
      SameSplit(m, (u + x) + (s + (z + y)), m, (n + x) + (s + (z + y)));
      SameSplit(u + x, s + (z + y), n + x, s + (z + y));
      SameSplit(u, x, n, x);
    }
  }

  lemma {:induction false} ItemsAtLeast<T>(g: Printer<T>, vs: seq<T>)
    requires forall v {:trigger g(v)} :: |g(v)| > 0
    ensures ItemsBytes(g, vs) == [] <==> vs == []
  {
  }

  /** Which proofs the writer can carry: no logs, no outcome-root proof, and an executor id with as many UTF-16
      units as bytes. */
  ghost predicate Plain(v: FullProof) {
    var o := v.outcomeProof.outcome.outcome;
    o.logs == [] && v.outcomeRootProof == [] && Units(o.executorId) == |o.executorId|
  }

  lemma WrittenIsEncoding(sha: Sha, v: FullProof, raw: Bytes)
    requires FullProofCodec(sha).ok(v) && BorshifyOutcomeProof(v) == Some(raw)
    ensures raw == FullProofCodec(sha).encode(v) <==> Plain(v)
  {
    var o := v.outcomeProof.outcome.outcome;
    FittingParts(sha, v);
    WrittenInOrder(v, raw);
    EncodingInOrder(sha, v);
    LayoutsOf(v, raw, FullProofCodec(sha).encode(v), Front(v.outcomeProof), Middle(o), StatusBytes(o.status),
              Back(v));
  }

  lemma LayoutsOf(v: FullProof, raw: Bytes, e: Bytes, f: Bytes, m: Bytes, s: Bytes, y: Bytes)
    requires var o := v.outcomeProof.outcome.outcome;
      && Units(o.executorId) < Base(4) && |o.executorId| <= MAX_U32
      && raw == f + (LeBytes(4, |o.logs|) + (m + ((LeBytes(4, Units(o.executorId)) + o.executorId) +
                     (s + (LeBytes(4, 0) + y)))))
      && e == f + (VecBytes(BytesBytes, o.logs) + (m + (BytesBytes(o.executorId) +
                   (s + (VecBytes(PathItemBytes, v.outcomeRootProof) + y)))))
    ensures raw == e <==> Plain(v)
  {
    var o := v.outcomeProof.outcome.outcome;
    var j, q := ItemsBytes(BytesBytes, o.logs), ItemsBytes(PathItemBytes, v.outcomeRootProof);
    ItemsAtLeast(BytesBytes, o.logs);
    ItemsAtLeast(PathItemBytes, v.outcomeRootProof);
    var u, n := LeBytes(4, Units(o.executorId)), LeBytes(4, |o.executorId|);
    SameCount(Units(o.executorId), |o.executorId|);
    LayoutsAgree(f, LeBytes(4, |o.logs|), j, m, u, n, o.executorId, s,
                 LeBytes(4, 0), LeBytes(4, |v.outcomeRootProof|), q, y);
  }

  /** `decodeFullOutcomeProof` recovers a written proof and ends at the end of the buffer, exactly when the proof
      is plain. */
  lemma OutcomeProofRoundTrip(sha: Sha, v: FullProof, raw: Bytes)
    requires FullProofCodec(sha).ok(v) && BorshifyOutcomeProof(v) == Some(raw)
    ensures FullProofCodec(sha).decode(raw, 0) == Some((v, |raw|)) <==> Plain(v)
  {
    AcceptedIsEncoding(sha, raw, v);
    WrittenIsEncoding(sha, v, raw);
  }

  // ----- what is lost -----

  /** A proof with zero hashes and empty paths but for the given logs and outcome-root proof; its computed hashes are
      right. */
  function Sample(sha: Sha, logs: seq<Bytes>, rootProof: seq<PathItem>): FullProof {
    var bare := InnerLite(0, ZERO32, ZERO32, ZERO32, ZERO32, 0, ZERO32, ZERO32, ZERO32);
    var inner := bare.(hash := sha(InnerLiteBytes(bare)));
    FullProof(OutcomeProof([], ZERO32, MakeIdentified(sha, (ZERO32, (logs, NOTHING)))), rootProof,
              MakeHeader(sha, (ZERO32, (ZERO32, inner))), [])
  }

  const NOTHING: Body := Body([], 0, 0, [], SuccessValue([]))

  lemma SampleOk(sha: Sha, logs: seq<Bytes>, rootProof: seq<PathItem>)
    requires Vec(BytesCodec()).ok(logs) && PathCodec().ok(rootProof)
    ensures FullProofCodec(sha).ok(Sample(sha, logs, rootProof))
  {
    var v := Sample(sha, logs, rootProof);
    var bare := InnerLite(0, ZERO32, ZERO32, ZERO32, ZERO32, 0, ZERO32, ZERO32, ZERO32);
    assert InnerLiteBytes(v.header.innerLite) == InnerLiteBytes(bare);
    HeaderOk(sha, ZERO32, ZERO32, v.header.innerLite);
    BodyOk(NOTHING);
    IdentifiedOk(sha, ZERO32, logs, NOTHING);
    OutcomeProofOk(sha, v.outcomeProof);
    FullProofOk(sha, v);
    var t := PartsOfFullProof(v);
    assert Pair(HeaderCodec(sha), PathCodec()).ok(t.1.1);
    assert Pair(PathCodec(), Pair(HeaderCodec(sha), PathCodec())).ok(t.1);
  }

  lemma SampleWritten(sha: Sha, logs: seq<Bytes>, rootProof: seq<PathItem>)
    requires |logs| <= MAX_U32
    ensures BorshifyOutcomeProof(Sample(sha, logs, rootProof)).Some?
  {
    Fits4(|logs|);
    Fits4(0);
  }

  /** Such a proof is always written, and recovered only when there was nothing to lose. */
  lemma SampleRecovered(sha: Sha, logs: seq<Bytes>, rootProof: seq<PathItem>)
    requires Vec(BytesCodec()).ok(logs) && PathCodec().ok(rootProof)
    ensures var v := Sample(sha, logs, rootProof);
            && FullProofCodec(sha).ok(v) && BorshifyOutcomeProof(v).Some?
            && var raw := BorshifyOutcomeProof(v).value;
               FullProofCodec(sha).decode(raw, 0) == Some((v, |raw|)) <==> logs == [] && rootProof == []
  {
    SampleOk(sha, logs, rootProof);
    SampleWritten(sha, logs, rootProof);
    var v := Sample(sha, logs, rootProof);
    OutcomeProofRoundTrip(sha, v, BorshifyOutcomeProof(v).value);
  }

  /** One log is lost. */
  lemma LogIsLost(sha: Sha, log: Bytes)
    requires |log| <= MAX_U32
    ensures var v := Sample(sha, [log], []);
            && FullProofCodec(sha).ok(v) && BorshifyOutcomeProof(v).Some?
            && var raw := BorshifyOutcomeProof(v).value; FullProofCodec(sha).decode(raw, 0) != Some((v, |raw|))
  {
    assert Vec(BytesCodec()).ok([log]);
    SampleRecovered(sha, [log], []);
  }

  /** One item of the outcome-root proof is lost. */
  lemma RootItemIsLost(sha: Sha, item: PathItem)
    ensures var v := Sample(sha, [], [item]);
            && FullProofCodec(sha).ok(v) && BorshifyOutcomeProof(v).Some?
            && var raw := BorshifyOutcomeProof(v).value; FullProofCodec(sha).decode(raw, 0) != Some((v, |raw|))
  {
    assert PathCodec().ok([item]);
    SampleRecovered(sha, [], [item]);
  }
}
