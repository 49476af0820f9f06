/** NearProver.sol: an outcome is proved by three Merkle paths, from the outcome to its shard, from the shard to
    the block, and from the block to the root that the bridge stores. */
module NearProver {
  import opened Prelude
  import opened NearTypes
  import opened Borsh
  import opened BorshData
  import opened NearFormat
  import opened NearWriter
  import opened ProofFormat
  import opened ProofDecoder
  import opened Merkle
  import BridgeSpec = NearBridgeSpec
  import BridgeProofs = NearBridgeProofs
  import BridgeRuns = NearBridgeTheorems

  function Join(sha: Sha): Combine<Bytes32> {
    (l: Bytes32, r: Bytes32) => sha(l + r)
  }

  function ShardRoot(sha: Sha, v: FullProof): Bytes32 {
    Root(Join(sha), v.outcomeProof.outcome.hash, v.outcomeProof.proof)
  }

  /** The paths lead from the outcome to the root the header names, and from the header to `root`. */
  predicate Proves(sha: Sha, v: FullProof, root: Bytes32) {
    && Root(Join(sha), sha(ShardRoot(sha, v)), v.outcomeRootProof) == v.header.innerLite.outcomeRoot
    && Root(Join(sha), v.header.hash, v.blockProof) == root
  }

  /** The call returns: the whole buffer is a proof and it proves its outcome. */
  predicate Accepted(sha: Sha, raw: Bytes, root: Bytes32) {
    match FullProofCodec(sha).decode(raw, 0)
    case None => false
    case Some(d) => d.1 == |raw| && Proves(sha, d.0, root)
  }

  /** `proveOutcome`, where `root` is what the bridge reports for the block; false stands for a revert. */
  method ProveOutcome(sha: Sha, raw: Bytes, root: Bytes32) returns (ok: bool)
    ensures ok == Accepted(sha, raw, root)
  {
    var data := new Data(raw);
    var d := DecodeFullOutcomeProof(sha, data);
    if d.None? || !data.Finished() {
      return false;
    }
    var v := d.value;
    var hash := ComputeRoot(Join(sha), v.outcomeProof.outcome.hash, v.outcomeProof.proof);
    hash := sha(hash);
    hash := ComputeRoot(Join(sha), hash, v.outcomeRootProof);
    if hash != v.header.innerLite.outcomeRoot {
      return false;
    }
    hash := ComputeRoot(Join(sha), v.header.hash, v.blockProof);
    ok := hash == root;
  }

  // ----- binding -----

  ghost function Joined(ps: set<(Bytes32, Bytes32)>): set<Bytes> {
    set p | p in ps :: p.0 + p.1
  }

  ghost function OutcomeInput(sha: Sha, w: Identified): Bytes {
    var t := PartsOfIdentified(w);
    var hashes := MerkleHashes(sha, BodyCodec().encode(t.1.1), t.1.0);
    LeBytes(4, 1 + |hashes|) + t.0 + ItemsBytes(Whole, hashes)
  }

  /** Everything that is hashed for the header and for the outcome. */
  ghost function HeaderInputs(sha: Sha, h: HeaderLight): set<Bytes> {
    {sha(h.innerLite.hash + h.innerRestHash) + h.prevBlockHash, h.innerLite.hash + h.innerRestHash,
     InnerLiteBytes(h.innerLite)}
  }

  ghost function OutcomeInputs(sha: Sha, w: Identified): set<Bytes> {
    {OutcomeInput(sha, w), BodyCodec().encode(PartsOfIdentified(w).1.1)} + (set l | l in w.outcome.logs)
  }

  ghost function PathInputs(sha: Sha, v: FullProof): set<Bytes> {
    Joined(Combined(Join(sha), v.outcomeProof.outcome.hash, v.outcomeProof.proof)) +
    {ShardRoot(sha, v)} +
    Joined(Combined(Join(sha), sha(ShardRoot(sha, v)), v.outcomeRootProof)) +
    Joined(Combined(Join(sha), v.header.hash, v.blockProof))
  }

  ghost function Inputs(sha: Sha, v: FullProof): set<Bytes> {
    PathInputs(sha, v) + HeaderInputs(sha, v.header) + OutcomeInputs(sha, v.outcomeProof.outcome)
  }

  ghost predicate NoCollision(sha: Sha, xs: set<Bytes>, ys: set<Bytes>) {
    forall x, y {:trigger x in xs, y in ys} :: x in xs && y in ys && sha(x) == sha(y) ==> x == y
  }

  lemma JoinedDistinct(sha: Sha, ps: set<(Bytes32, Bytes32)>, qs: set<(Bytes32, Bytes32)>)
    requires NoCollision(sha, Joined(ps), Joined(qs))
    ensures Distinct(Join(sha), ps, qs)
  {
    forall p, q {:trigger p in ps, q in qs} | p in ps && q in qs && Join(sha)(p.0, p.1) == Join(sha)(q.0, q.1)
      ensures p == q
    {
      assert p.0 + p.1 in Joined(ps) && q.0 + q.1 in Joined(qs);
      SameSplit(p.0, p.1, q.0, q.1);
    }
  }

  lemma PathBinds(sha: Sha, n: Bytes32, p: seq<PathItem>, m: Bytes32, q: seq<PathItem>)
    requires SameDirections(p, q) && Root(Join(sha), n, p) == Root(Join(sha), m, q)
    requires NoCollision(sha, Joined(Combined(Join(sha), n, p)), Joined(Combined(Join(sha), m, q)))
    ensures n == m && p == q
  {
    JoinedDistinct(sha, Combined(Join(sha), n, p), Combined(Join(sha), m, q));
    Binding(Join(sha), n, p, m, q);
  }

  /** A leaf that is no hash of a pair is not passed through: where neither leaf is, the paths are equally long. */
  lemma SameHeight(sha: Sha, s: Bytes, p: seq<PathItem>, t: Bytes, q: seq<PathItem>, xs: set<Bytes>, ys: set<Bytes>)
    requires |s| != 64 && |t| != 64 && s in xs && t in ys && NoCollision(sha, xs, ys)
    requires Joined(Combined(Join(sha), sha(s), p)) <= xs && Joined(Combined(Join(sha), sha(t), q)) <= ys
    requires SameTop(p, q) && Root(Join(sha), sha(s), p) == Root(Join(sha), sha(t), q)
    ensures SameDirections(p, q)
  {
    if |p| > |q| {
      NotPassed(sha, s, p, t, q, xs, ys);
    } else if |q| > |p| {
      TopSymmetric(p, q);
      NotPassed(sha, t, q, s, p, ys, xs);
    } else {
      TopIsAll(p, q);
    }
  }

  lemma NotPassed(sha: Sha, s: Bytes, p: seq<PathItem>, t: Bytes, q: seq<PathItem>, xs: set<Bytes>, ys: set<Bytes>)
    requires |t| != 64 && t in ys && NoCollision(sha, xs, ys)
    requires Joined(Combined(Join(sha), sha(s), p)) <= xs && Joined(Combined(Join(sha), sha(t), q)) <= ys
    requires SameTop(p, q) && Root(Join(sha), sha(s), p) == Root(Join(sha), sha(t), q)
    ensures |p| <= |q|
  {
    if |q| < |p| {
      var f, ps, qs := Join(sha), Combined(Join(sha), sha(s), p), Combined(Join(sha), sha(t), q);
      Fewer(sha, xs, ys, Joined(ps), Joined(qs));
      JoinedDistinct(sha, ps, qs);
      PassesThrough(f, sha(s), p, sha(t), q);
      var x := RootCombines(f, sha(s), p, |p| - |q|);
      PairIsNot(sha, x, t, ps, xs, ys);
    }
  }

  lemma PairIsNot(sha: Sha, x: (Bytes32, Bytes32), t: Bytes, ps: set<(Bytes32, Bytes32)>, xs: set<Bytes>, ys: set<Bytes>)
    requires x in ps && Joined(ps) <= xs && t in ys && NoCollision(sha, xs, ys) && |t| != 64
    ensures Join(sha)(x.0, x.1) != sha(t)
  {
    var y := x.0 + x.1;
    assert y in Joined(ps) && |y| == 64;
  }

  lemma EncodeInjective<T(!new)>(c: Codec<T>, v: T, w: T)
    requires Exact(c) && c.ok(v) && c.ok(w) && c.encode(v) == c.encode(w)
    ensures v == w
  {
    WholeBuffer(c, c.encode(v), v);
    WholeBuffer(c, c.encode(v), w);
  }

  lemma HeaderBinds(sha: Sha, h: HeaderLight, k: HeaderLight)
    requires HeaderCodec(sha).ok(h) && HeaderCodec(sha).ok(k) && h.hash == k.hash
    requires NoCollision(sha, HeaderInputs(sha, h), HeaderInputs(sha, k))
    ensures h == k
  {
    HeaderSealed(sha, h);
    HeaderSealed(sha, k);
    var a, b := h.innerLite.hash + h.innerRestHash, k.innerLite.hash + k.innerRestHash;
    assert sha(a) + h.prevBlockHash in HeaderInputs(sha, h) && sha(b) + k.prevBlockHash in HeaderInputs(sha, k);
    SameSplit(sha(a), h.prevBlockHash, sha(b), k.prevBlockHash);
    assert a in HeaderInputs(sha, h) && b in HeaderInputs(sha, k);
    SameSplit(h.innerLite.hash, h.innerRestHash, k.innerLite.hash, k.innerRestHash);
    assert InnerLiteBytes(h.innerLite) in HeaderInputs(sha, h) && InnerLiteBytes(k.innerLite) in HeaderInputs(sha, k);
    InnerLiteExact(sha);
    EncodeInjective(InnerLiteCodec(sha), h.innerLite, k.innerLite);
  }

  /** What an accepted header's hashes are. */
  lemma HeaderSealed(sha: Sha, h: HeaderLight)
    requires HeaderCodec(sha).ok(h)
    ensures h.hash == BlockHash(sha, h.innerLite.hash, h.innerRestHash, h.prevBlockHash)
    ensures InnerLiteCodec(sha).ok(h.innerLite)
  {
    var t := PartsOfHeader(h);
    assert h == HeaderMaker(sha)(t) == MakeHeader(sha, t);
    assert Pair(Bytes32Codec(), Pair(Bytes32Codec(), InnerLiteCodec(sha))).ok(t);
    assert Pair(Bytes32Codec(), InnerLiteCodec(sha)).ok(t.1);
  }

  lemma {:induction false} WholesLength(hs: seq<Bytes32>)
    ensures |ItemsBytes(Whole, hs)| == 32 * |hs|
    decreases |hs|
  {
    if hs != [] {
      WholesLength(hs[..|hs| - 1]);
    }
  }

  lemma {:induction false} WholesInjective(hs: seq<Bytes32>, ks: seq<Bytes32>)
    requires |hs| == |ks| && ItemsBytes(Whole, hs) == ItemsBytes(Whole, ks)
    ensures hs == ks
    decreases |hs|
  {
    if hs != [] {
      var n := |hs| - 1;
      WholesLength(hs[..n]);
      WholesLength(ks[..n]);
      SameSplit(ItemsBytes(Whole, hs[..n]), hs[n], ItemsBytes(Whole, ks[..n]), ks[n]);
      WholesInjective(hs[..n], ks[..n]);
      assert hs == hs[..n] + [hs[n]] && ks == ks[..n] + [ks[n]];
    }
  }

  lemma {:induction false} LogsBind(sha: Sha, ls: seq<Bytes>, ms: seq<Bytes>, xs: set<Bytes>, ys: set<Bytes>)
    requires Hashes(sha, ls) == Hashes(sha, ms) && NoCollision(sha, xs, ys)
    requires (forall l :: l in ls ==> l in xs) && (forall m :: m in ms ==> m in ys)
    ensures ls == ms
    decreases |ls|
  {
    HashesLength(sha, ls);
    HashesLength(sha, ms);
    assert |ls| == |ms|;
    if ls != [] {
      var n := |ls| - 1;
      HashesSnoc(sha, ls[..n], ls[n]);
      HashesSnoc(sha, ms[..n], ms[n]);
      assert ls == ls[..n] + [ls[n]] && ms == ms[..n] + [ms[n]];
      HashesLength(sha, ls[..n]);
      HashesLength(sha, ms[..n]);
      SnocInjective(Hashes(sha, ls[..n]), sha(ls[n]), Hashes(sha, ms[..n]), sha(ms[n]));
      assert ls[n] in ls && ms[n] in ms;
      assert ls[n] == ms[n];
      LogsBind(sha, ls[..n], ms[..n], xs, ys);
    }
  }

  lemma HashesSnoc(sha: Sha, ls: seq<Bytes>, l: Bytes)
    ensures Hashes(sha, ls + [l]) == Hashes(sha, ls) + [sha(l)]
  {
    assert (ls + [l])[..|ls|] == ls;
  }

  lemma {:induction false} HashesLength(sha: Sha, ls: seq<Bytes>)
    ensures |Hashes(sha, ls)| == |ls|
    decreases |ls|
  {
    if ls != [] {
      HashesLength(sha, ls[..|ls| - 1]);
    }
  }

  /** What an accepted outcome's hash is. */
  lemma OutcomeSealed(sha: Sha, w: Identified)
    requires IdentifiedCodec(sha).ok(w)
    ensures w.hash == sha(OutcomeInput(sha, w)) && BodyCodec().ok(PartsOfIdentified(w).1.1)
  {
    var t := PartsOfIdentified(w);
    assert w == IdentifiedMaker(sha)(t) == MakeIdentified(sha, t);
    assert Pair(Bytes32Codec(), Pair(Vec(BytesCodec()), BodyCodec())).ok(t);
    assert Pair(Vec(BytesCodec()), BodyCodec()).ok(t.1);
  }

  lemma InputBinds(id: Bytes32, hs: seq<Bytes32>, id': Bytes32, hs': seq<Bytes32>)
    requires LeBytes(4, 1 + |hs|) + id + ItemsBytes(Whole, hs) == LeBytes(4, 1 + |hs'|) + id' + ItemsBytes(Whole, hs')
    ensures id == id' && hs == hs'
  {
    SameSplit(LeBytes(4, 1 + |hs|) + id, ItemsBytes(Whole, hs), LeBytes(4, 1 + |hs'|) + id', ItemsBytes(Whole, hs'));
    SameSplit(LeBytes(4, 1 + |hs|), id, LeBytes(4, 1 + |hs'|), id');
    WholesLength(hs);
    WholesLength(hs');
    WholesInjective(hs, hs');
  }

  /** Equal outcome hashes force equal outcomes. */
  lemma OutcomeBinds(sha: Sha, w: Identified, z: Identified)
    requires IdentifiedCodec(sha).ok(w) && IdentifiedCodec(sha).ok(z) && w.hash == z.hash
    requires NoCollision(sha, OutcomeInputs(sha, w), OutcomeInputs(sha, z))
    ensures w == z
  {
    OutcomeSealed(sha, w);
    OutcomeSealed(sha, z);
    var t, u := PartsOfIdentified(w), PartsOfIdentified(z);
    var b, c := BodyCodec().encode(t.1.1), BodyCodec().encode(u.1.1);
    assert OutcomeInput(sha, w) in OutcomeInputs(sha, w) && OutcomeInput(sha, z) in OutcomeInputs(sha, z);
    var hs, ks := MerkleHashes(sha, b, t.1.0), MerkleHashes(sha, c, u.1.0);
    InputBinds(t.0, hs, u.0, ks);
    assert hs[0] == sha(b) && ks[0] == sha(c) && hs[1..] == Hashes(sha, t.1.0) && ks[1..] == Hashes(sha, u.1.0);
    assert b in OutcomeInputs(sha, w) && c in OutcomeInputs(sha, z);
    BodyExact();
    EncodeInjective(BodyCodec(), t.1.1, u.1.1);
    LogsBind(sha, t.1.0, u.1.0, OutcomeInputs(sha, w), OutcomeInputs(sha, z));
    assert w.outcome == z.outcome;
  }

  /** The two proofs turn the same way: at every step of the path to the block, and from the top down, as far as both
      go, on the paths to the shard and to the outcome. */
  ghost predicate SameShape(v: FullProof, w: FullProof) {
    && SameTop(v.outcomeProof.proof, w.outcomeProof.proof)
    && SameTop(v.outcomeRootProof, w.outcomeRootProof)
    && SameDirections(v.blockProof, w.blockProof)
  }

  /** What is hashed for an outcome is never as long as a pair of hashes. */
  lemma OutcomeInputLength(sha: Sha, w: Identified)
    ensures |OutcomeInput(sha, w)| != 64
  {
    var t := PartsOfIdentified(w);
    var hashes := MerkleHashes(sha, BodyCodec().encode(t.1.1), t.1.0);
    WholesLength(hashes);
    assert |OutcomeInput(sha, w)| == 36 + 32 * |hashes|;
  }

  lemma Components(sha: Sha, v: FullProof)
    requires FullProofCodec(sha).ok(v)
    ensures HeaderCodec(sha).ok(v.header) && IdentifiedCodec(sha).ok(v.outcomeProof.outcome)
  {
    var t := PartsOfFullProof(v);
    var c2 := Pair(HeaderCodec(sha), PathCodec());
    var c1 := Pair(PathCodec(), c2);
    assert Pair(OutcomeProofCodec(sha), c1).ok(t);
    assert c1.ok(t.1) && c2.ok(t.1.1);
    var u := PartsOfOutcomeProof(v.outcomeProof);
    assert OutcomeProofCodec(sha).ok(v.outcomeProof);
    assert Pair(PathCodec(), Pair(Bytes32Codec(), IdentifiedCodec(sha))).ok(u);
    assert Pair(Bytes32Codec(), IdentifiedCodec(sha)).ok(u.1);
  }

  lemma Fewer(sha: Sha, xs: set<Bytes>, ys: set<Bytes>, xs': set<Bytes>, ys': set<Bytes>)
    requires NoCollision(sha, xs, ys) && xs' <= xs && ys' <= ys
    ensures NoCollision(sha, xs', ys')
  {
  }

  /** A path from a leaf that is no pair is bound to its length, its siblings and what was hashed for the leaf. */
  lemma LeafPathBinds(sha: Sha, s: Bytes, p: seq<PathItem>, t: Bytes, q: seq<PathItem>, xs: set<Bytes>, ys: set<Bytes>)
    requires |s| != 64 && |t| != 64 && s in xs && t in ys && NoCollision(sha, xs, ys)
    requires Joined(Combined(Join(sha), sha(s), p)) <= xs && Joined(Combined(Join(sha), sha(t), q)) <= ys
    requires SameTop(p, q) && Root(Join(sha), sha(s), p) == Root(Join(sha), sha(t), q)
    ensures s == t && p == q
  {
    SameHeight(sha, s, p, t, q, xs, ys);
    Fewer(sha, xs, ys, Joined(Combined(Join(sha), sha(s), p)), Joined(Combined(Join(sha), sha(t), q)));
    PathBinds(sha, sha(s), p, sha(t), q);
  }

  /** The paths of two proofs against one root, once their headers are known to agree. */
  lemma PathsBind(sha: Sha, v: FullProof, w: FullProof)
    requires SameShape(v, w) && NoCollision(sha, Inputs(sha, v), Inputs(sha, w))
    requires v.outcomeProof.outcome.hash == sha(OutcomeInput(sha, v.outcomeProof.outcome))
    requires w.outcomeProof.outcome.hash == sha(OutcomeInput(sha, w.outcomeProof.outcome))
    requires Root(Join(sha), sha(ShardRoot(sha, v)), v.outcomeRootProof) ==
             Root(Join(sha), sha(ShardRoot(sha, w)), w.outcomeRootProof)
    ensures v.outcomeProof.outcome.hash == w.outcomeProof.outcome.hash
    ensures v.outcomeProof.proof == w.outcomeProof.proof && v.outcomeRootProof == w.outcomeRootProof
  {
    var a, b := Inputs(sha, v), Inputs(sha, w);
    LeafPathBinds(sha, ShardRoot(sha, v), v.outcomeRootProof, ShardRoot(sha, w), w.outcomeRootProof, a, b);
    assert ShardRoot(sha, v) == ShardRoot(sha, w);
    var s, t := OutcomeInput(sha, v.outcomeProof.outcome), OutcomeInput(sha, w.outcomeProof.outcome);
    OutcomeInputLength(sha, v.outcomeProof.outcome);
    OutcomeInputLength(sha, w.outcomeProof.outcome);
    LeafPathBinds(sha, s, v.outcomeProof.proof, t, w.outcomeProof.proof, a, b);
  }

  /** Two accepted proofs of one shape against one root are the same proof of the same outcome in the same block, with
      paths of the same lengths, unless what was hashed for them collides. Only the block hash beside the outcome is not bound: no check
      reads it. */
  lemma ProofBinds(sha: Sha, v: FullProof, w: FullProof, root: Bytes32)
    requires FullProofCodec(sha).ok(v) && FullProofCodec(sha).ok(w) && SameShape(v, w)
    requires Proves(sha, v, root) && Proves(sha, w, root)
    requires NoCollision(sha, Inputs(sha, v), Inputs(sha, w))
    ensures v == w.(outcomeProof := w.outcomeProof.(blockHash := v.outcomeProof.blockHash))
  {
    var a, b := Inputs(sha, v), Inputs(sha, w);
    Components(sha, v);
    Components(sha, w);
    Fewer(sha, a, b, Joined(Combined(Join(sha), v.header.hash, v.blockProof)),
          Joined(Combined(Join(sha), w.header.hash, w.blockProof)));
    PathBinds(sha, v.header.hash, v.blockProof, w.header.hash, w.blockProof);
    Fewer(sha, a, b, HeaderInputs(sha, v.header), HeaderInputs(sha, w.header));
    HeaderBinds(sha, v.header, w.header);
    OutcomeSealed(sha, v.outcomeProof.outcome);
    OutcomeSealed(sha, w.outcomeProof.outcome);
    PathsBind(sha, v, w);
    Fewer(sha, a, b, OutcomeInputs(sha, v.outcomeProof.outcome), OutcomeInputs(sha, w.outcomeProof.outcome));
    OutcomeBinds(sha, v.outcomeProof.outcome, w.outcomeProof.outcome);
  }

  // ----- completeness -----

  /** A call is accepted exactly for the encoding of a proof that proves its outcome, with nothing after it. */
  lemma AcceptedExactly(sha: Sha, raw: Bytes, root: Bytes32)
    ensures Accepted(sha, raw, root) <==>
              exists v :: FullProofCodec(sha).ok(v) && raw == FullProofCodec(sha).encode(v) && Proves(sha, v, root)
  {
    var d := FullProofCodec(sha).decode(raw, 0);
    if d.Some? {
      AcceptedIsEncoding(sha, raw, d.value.0);
    }
    forall v | FullProofCodec(sha).ok(v) && raw == FullProofCodec(sha).encode(v)
      ensures d == Some((v, |raw|))
    {
      AcceptedIsEncoding(sha, raw, v);
    }
  }

  /** Paths read off a tree of outcomes, a tree of shard roots and a tree of blocks prove the outcome against the root of
      the last, if the block names the root of the second. */
  lemma ProofCompletes(sha: Sha, v: FullProof, outcomes: Tree<Bytes32>, shards: Tree<Bytes32>, blocks: Tree<Bytes32>,
                       a: seq<bool>, b: seq<bool>, c: seq<bool>)
    requires Leads(outcomes, a) && LeafAt(outcomes, a) == v.outcomeProof.outcome.hash
    requires Leads(shards, b) && LeafAt(shards, b) == sha(HashOf(Join(sha), outcomes))
    requires Leads(blocks, c) && LeafAt(blocks, c) == v.header.hash
    requires v.outcomeProof.proof == PathAt(Join(sha), outcomes, a) && v.outcomeRootProof == PathAt(Join(sha), shards, b)
    requires v.blockProof == PathAt(Join(sha), blocks, c) && v.header.innerLite.outcomeRoot == HashOf(Join(sha), shards)
    ensures Proves(sha, v, HashOf(Join(sha), blocks))
    ensures FullProofCodec(sha).ok(v) ==> Accepted(sha, FullProofCodec(sha).encode(v), HashOf(Join(sha), blocks))
  {
    Completeness(Join(sha), outcomes, a);
    Completeness(Join(sha), shards, b);
    Completeness(Join(sha), blocks, c);
    AcceptedIsEncoding(sha, FullProofCodec(sha).encode(v), v);
  }

  // ----- the block hash beside the outcome -----

  function WithBlockHash(v: FullProof, h: Bytes32): FullProof {
    v.(outcomeProof := v.outcomeProof.(blockHash := h))
  }

  /** The block hash that stands beside the outcome is never read: with any other one the proof is accepted just
      the same. */
  lemma BlockHashIsFree(sha: Sha, v: FullProof, h: Bytes32, root: Bytes32)
    requires FullProofCodec(sha).ok(v)
    ensures var w := WithBlockHash(v, h);
            FullProofCodec(sha).ok(w)
            && (Accepted(sha, FullProofCodec(sha).encode(w), root) <==> Accepted(sha, FullProofCodec(sha).encode(v), root))
  {
    var w := WithBlockHash(v, h);
    OutcomeProofOk(sha, v.outcomeProof);
    OutcomeProofOk(sha, w.outcomeProof);
    FullProofOk(sha, v);
    FullProofOk(sha, w);
    AcceptedIsEncoding(sha, FullProofCodec(sha).encode(v), v);
    AcceptedIsEncoding(sha, FullProofCodec(sha).encode(w), w);
  }

  // ----- permanence -----

  /** A proof accepted against a root that the bridge reports is accepted forever, whatever the bridge goes
      through. */
  lemma StaysAccepted(sha: Sha, raw: Bytes, h: U64, cfg: BridgeSpec.Config, past: seq<BridgeRuns.Event>, t: nat,
                      es: seq<BridgeRuns.Event>, t': nat)
    requires BridgeRuns.Timed(0, past) && BridgeRuns.LastTime(0, past) <= t
    requires BridgeRuns.Timed(t, es) && BridgeRuns.LastTime(t, es) <= t'
    requires var s := BridgeRuns.Run(cfg, BridgeSpec.DEPLOYED, past);
      BridgeSpec.BlockMerkleRoots(s, t, h) != ZERO32 && Accepted(sha, raw, BridgeSpec.BlockMerkleRoots(s, t, h))
    ensures var s := BridgeRuns.Run(cfg, BridgeSpec.DEPLOYED, past);
      Accepted(sha, raw, BridgeSpec.BlockMerkleRoots(BridgeRuns.Run(cfg, s, es), t', h))
  {
    BridgeRuns.ReachableInv(cfg, past);
    BridgeRuns.Finality(cfg, BridgeRuns.Run(cfg, BridgeSpec.DEPLOYED, past), t, es, t', h);
  }
}
