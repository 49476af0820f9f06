/** Patricia-trie proofs as the Ethereum prover on NEAR checks them. RLP and keccak are parameters. A panic is
    `None`. */
module TrieProof {
  import opened Prelude
  import opened NearTypes

  /** What the prover asks of a node: how many items it has, and an item as bytes; a failed `unwrap` is `None`. */
  datatype Crypto = Crypto(keccak: Bytes -> Bytes32, count: Bytes -> nat, item: (Bytes, nat) -> Option<Bytes>)

  // ----- nibbles -----

  function ExtractNibbles(a: Bytes): (r: Bytes)
    ensures |r| == 2 * |a| && forall i :: 0 <= i < |r| ==> r[i] < 16
  {
    if a == [] then [] else [a[0] / 16, a[0] % 16] + ExtractNibbles(a[1..])
  }

  /** Pairs the entries at even and odd places; a last one without a partner is dropped. */
  function ConcatNibbles(a: Bytes): (r: Bytes)
    requires forall i :: 0 <= i < |a| ==> a[i] < 16
    ensures |r| == |a| / 2
  {
    if |a| < 2 then [] else [a[0] * 16 + a[1]] + ConcatNibbles(a[2..])
  }

  /** The two helpers undo each other. */
  lemma {:induction false} NibblesUndo(a: Bytes)
    ensures ConcatNibbles(ExtractNibbles(a)) == a
  {
    if a != [] {
      NibblesUndo(a[1..]);
      assert ExtractNibbles(a)[2..] == ExtractNibbles(a[1..]);
    }
  }

  // ----- the key -----

  /** One byte of the key: kept whole just before the key is as long as the proof, split otherwise. */
  function Push(key: Bytes, b: Byte, length: nat): Bytes {
    if |key| + 1 == length then key + [b] else key + [b / 16, b % 16]
  }

  function ExpandKey(key: Bytes, length: nat): Bytes {
    if key == [] then [] else Push(ExpandKey(key[..|key| - 1], length), key[|key| - 1], length)
  }

  lemma {:induction false} ExtractAt(a: Bytes, i: nat)
    requires i < |a|
    ensures ExtractNibbles(a)[2 * i] == a[i] / 16 && ExtractNibbles(a)[2 * i + 1] == a[i] % 16
    decreases |a|
  {
    if i > 0 {
      ExtractAt(a[1..], i - 1);
      assert ExtractNibbles(a)[2..] == ExtractNibbles(a[1..]);
    }
  }

  lemma {:induction false} ExtractSnoc(a: Bytes, b: Byte)
    ensures ExtractNibbles(a + [b]) == ExtractNibbles(a) + [b / 16, b % 16]
  {
    if a == [] {
      assert a + [b] == [b] && [b][1..] == [];
    } else {
      assert (a + [b])[1..] == a[1..] + [b] && (a + [b])[0] == a[0];
      ExtractSnoc(a[1..], b);
    }
  }

  /** The key as the proof's nodes are asked about it. For a proof of odd length, the byte at half that length is kept
      whole, if there is one; every other byte is split into its high and its low nibble. */
  function Selector(key: Bytes, length: nat): Bytes {
    var w := length / 2;
    if length % 2 == 0 || w >= |key| then ExtractNibbles(key)
    else ExtractNibbles(key[..w]) + [key[w]] + ExtractNibbles(key[w + 1..])
  }

  /** The loop that looks at the length so far computes just that. */
  lemma {:induction false} ExpandsTo(key: Bytes, length: nat)
    ensures ExpandKey(key, length) == Selector(key, length)
    decreases |key|
  {
    if key != [] {
      var init, b, w := key[..|key| - 1], key[|key| - 1], length / 2;
      ExpandsTo(init, length);
      assert key == init + [b];
      ExtractSnoc(init, b);
      if length % 2 == 1 && w < |key| {
        if w == |init| {
          assert key[..w] == init && key[w + 1..] == [];
        } else {
          assert init[..w] == key[..w] && init[w + 1..] + [b] == key[w + 1..];
          ExtractSnoc(init[w + 1..], b);
        }
      }
    }
  }

  /** Nibble by nibble, where no byte is kept whole. */
  lemma SelectorAt(key: Bytes, length: nat, i: nat)
    requires (length % 2 == 0 || length > 2 * |key|) && i < |key|
    ensures var r := ExpandKey(key, length);
            |r| == 2 * |key| && r[2 * i] == key[i] / 16 && r[2 * i + 1] == key[i] % 16
  {
    ExpandsTo(key, length);
    ExtractAt(key, i);
  }

  // ----- references -----

  function Zeros(n: nat): (s: Bytes)
    ensures |s| == n
  {
    if n == 0 then [] else [0] + Zeros(n - 1)
  }

  /** A hash from up to 32 bytes, padded on the left; more panic. */
  function ToHash(v: Bytes): Option<Bytes32> {
    if |v| <= 32 then Some(Zeros(32 - |v|) + v) else None
  }

  /** The hash that a reference of up to 32 bytes stands for. */
  ghost predicate PaddedTo(v: Bytes, h: Bytes32) {
    |v| <= 32 && h[32 - |v|..] == v && forall i :: 0 <= i < 32 - |v| ==> h[i] == 0
  }

  lemma {:induction false} ZerosAre(n: nat, i: nat)
    requires i < n
    ensures Zeros(n)[i] == 0
  {
    if i > 0 {
      ZerosAre(n - 1, i - 1);
    }
  }

  lemma ToHashIs(v: Bytes, h: Bytes32)
    ensures ToHash(v) == Some(h) <==> PaddedTo(v, h)
  {
    if |v| <= 32 {
      var n := 32 - |v|;
      forall i | 0 <= i < n ensures Zeros(n)[i] == 0 {
        ZerosAre(n, i);
      }
      if PaddedTo(v, h) {
        assert h == h[..n] + h[n..] && h[..n] == Zeros(n);
      }
    }
  }

  // ----- verification -----

  /** The check of a node against the reference to it. A node of fewer than 32 bytes below the root is compared
      itself with a hash of 32 bytes, which fails. */
  predicate Matches(c: Crypto, node: Bytes, root: Bytes32, keyIndex: nat) {
    if keyIndex == 0 || |node| >= 32 then c.keccak(node) == root else node == root
  }

  /** What one node leads to. */
  datatype Move =
    | Stop(found: bool)
    | Follow(child: Bytes, keyIndex: nat)

  function BranchMove(c: Crypto, node: Bytes, key: Bytes, k: nat, value: Bytes): Option<Move> {
    if k == |key| then
      var v :- c.item(node, 16);
      Some(Stop(v == value))
    else if k < |key| then
      var v :- c.item(node, key[k]);
      Some(if v == [] then Stop(false) else Follow(v, k + 1))
    else None
  }

  function LeafMove(c: Crypto, node: Bytes, same: bool, value: Bytes): Option<Move> {
    if !same then Some(Stop(false)) else
      var v :- c.item(node, 1);
      Some(Stop(value == v))
  }

  function ExtensionMove(c: Crypto, node: Bytes, same: bool, k: nat): Option<Move> {
    if !same then Some(Stop(false)) else
      var v :- c.item(node, 1);
      Some(Follow(v, k))
  }

  function PairMove(c: Crypto, node: Bytes, key: Bytes, k: nat, value: Bytes): Option<Move> {
    var first :- c.item(node, 0);
    var nibbles := ExtractNibbles(first);
    if |nibbles| < 2 then None else
      var prefix, nibble, rest := nibbles[0], nibbles[1], nibbles[2..];
      if prefix == 2 then
        if k > |key| then None else LeafMove(c, node, ConcatNibbles(rest) == key[k..], value)
      else if prefix == 3 then
        if k >= |key| then None
        else LeafMove(c, node, nibble == key[k] && ConcatNibbles(rest) == key[k + 1..], value)
      else if prefix == 0 then
        if k + |rest| > |key| then None
        else ExtensionMove(c, node, ConcatNibbles(rest) == key[k..k + |rest|], k + |rest|)
      else if prefix == 1 then
        if k >= |key| then None
        else if nibble != key[k] then Some(Stop(false))
        else if k + 1 + |rest| > |key| then None
        else ExtensionMove(c, node, ConcatNibbles(rest) == key[k + 1..k + 1 + |rest|], k + 1 + |rest|)
      else None
  }

  function MoveAt(c: Crypto, node: Bytes, key: Bytes, k: nat, value: Bytes): Option<Move> {
    if c.count(node) == 17 then BranchMove(c, node, key, k, value)
    else if c.count(node) == 2 then PairMove(c, node, key, k, value)
    else None
  }

  /** `_verify_trie_proof`; it ends because the proof index grows within the proof. */
  function VerifyFrom(c: Crypto, root: Bytes32, key: Bytes, proof: seq<Bytes>, k: nat, p: nat, value: Bytes): Option<bool>
    decreases |proof| - p
  {
    if p >= |proof| || !Matches(c, proof[p], root, k) then None else
      var m :- MoveAt(c, proof[p], key, k, value);
      match m
      case Stop(found) => Some(found || value == [])
      case Follow(child, k') =>
        var root' :- ToHash(child);
        VerifyFrom(c, root', key, proof, k', p + 1, value)
  }

  // ----- what a node says -----

  /** The node stores `value` for the part of the key from `k` on: a branch at the end of the key, or a leaf. The
      first byte of a leaf's path holds 2, or 3 and one nibble; its other bytes are compared with the rest of the
      key as they are. */
  ghost predicate Stores(c: Crypto, node: Bytes, key: Bytes, k: nat, value: Bytes) {
    || (c.count(node) == 17 && k == |key| && c.item(node, 16) == Some(value))
    || (c.count(node) == 2 && c.item(node, 1) == Some(value) && c.item(node, 0).Some? && LeafPath(c.item(node, 0).value, key, k))
  }

  predicate LeafPath(path: Bytes, key: Bytes, k: nat) {
    && path != []
    && ((path[0] / 16 == 2 && k <= |key| && path[1..] == key[k..])
        || (path[0] / 16 == 3 && k < |key| && path[0] % 16 == key[k] && path[1..] == key[k + 1..]))
  }

  /** The node refers to `child` for the part of the key from `k` on, which goes on at `k'`: a branch with a child
      at the next nibble, or an extension by nothing or by one nibble. */
  ghost predicate ChildAt(c: Crypto, node: Bytes, key: Bytes, k: nat, child: Bytes, k': nat) {
    || (c.count(node) == 17 && k < |key| && c.item(node, key[k]) == Some(child) && child != [] && k' == k + 1)
    || (c.count(node) == 2 && c.item(node, 1) == Some(child) && c.item(node, 0).Some?
        && ExtensionPath(c.item(node, 0).value, key, k, k'))
  }

  predicate ExtensionPath(path: Bytes, key: Bytes, k: nat, k': nat) {
    && |path| == 1
    && ((path[0] / 16 == 0 && k' == k <= |key|)
        || (path[0] / 16 == 1 && k < |key| && path[0] % 16 == key[k] && k' == k + 1))
  }

  /** The nibbles of a path after its first byte join to its other bytes. */
  lemma PathNibbles(path: Bytes)
    requires path != []
    ensures var n := ExtractNibbles(path);
            && n[0] == path[0] / 16 && n[1] == path[0] % 16
            && n[2..] == ExtractNibbles(path[1..]) && ConcatNibbles(n[2..]) == path[1..]
  {
    assert ExtractNibbles(path)[2..] == ExtractNibbles(path[1..]);
    NibblesUndo(path[1..]);
  }

  /** Twice as many nibbles as bytes are the same sequence only when there are none. */
  lemma ShortPath(rest: Bytes, key: Bytes, k: nat, n: nat)
    requires n == 2 * |rest| && k + n <= |key|
    ensures rest == key[k..k + n] <==> n == 0
  {
    assert |key[k..k + n]| == n;
  }

  /** The verifier's step stops with success exactly at a node that stores the value. */
  lemma StopsAtStored(c: Crypto, node: Bytes, key: Bytes, k: nat, value: Bytes)
    ensures MoveAt(c, node, key, k, value) == Some(Stop(true)) <==> Stores(c, node, key, k, value)
  {
    var first := c.item(node, 0);
    if c.count(node) == 2 && first.Some? && first.value != [] {
      PathNibbles(first.value);
    }
  }

  /** ... and goes on exactly to the child the node refers to. */
  lemma FollowsChild(c: Crypto, node: Bytes, key: Bytes, k: nat, value: Bytes, child: Bytes, k': nat)
    ensures MoveAt(c, node, key, k, value) == Some(Follow(child, k')) <==> ChildAt(c, node, key, k, child, k')
  {
    var first := c.item(node, 0);
    if c.count(node) == 2 && first.Some? && first.value != [] {
      var path := first.value;
      PathNibbles(path);
      var n := 2 * |path[1..]|;
      if path[0] / 16 == 0 && k + n <= |key| {
        ShortPath(path[1..], key, k, n);
      }
      if path[0] / 16 == 1 && k + 1 + n <= |key| {
        ShortPath(path[1..], key, k + 1, n);
      }
    }
  }

  // ----- soundness -----

  /** The nodes `proof[p..p + |refs|]` form a chain from `refs[0]`: each is hashed by its reference, each next
      reference is the padded child that the key picks, and the last node stores the value. */
  ghost predicate Chain(c: Crypto, key: Bytes, proof: seq<Bytes>, p: nat, refs: seq<Bytes32>, ks: seq<nat>, value: Bytes) {
    && |refs| == |ks| > 0 && p + |refs| <= |proof|
    && (forall i :: 0 <= i < |refs| ==> c.keccak(proof[p + i]) == refs[i])
    && (forall i :: 0 <= i < |refs| && ks[i] > 0 ==> |proof[p + i]| >= 32)
    && (forall i :: 0 <= i < |refs| - 1 ==> Leads(c, proof[p + i], key, ks[i], refs[i + 1], ks[i + 1]))
    && Stores(c, proof[p + |refs| - 1], key, ks[|refs| - 1], value)
  }

  ghost predicate Leads(c: Crypto, node: Bytes, key: Bytes, k: nat, root': Bytes32, k': nat) {
    exists child :: ChildAt(c, node, key, k, child, k') && PaddedTo(child, root')
  }

  ghost predicate HasChain(c: Crypto, root: Bytes32, key: Bytes, proof: seq<Bytes>, k: nat, p: nat, value: Bytes) {
    exists refs, ks :: Chain(c, key, proof, p, refs, ks, value) && refs[0] == root && ks[0] == k
  }

  /** A node below the root that is shorter than a hash never passes. */
  lemma ShortNodePanics(c: Crypto, root: Bytes32, key: Bytes, proof: seq<Bytes>, k: nat, p: nat, value: Bytes)
    requires p < |proof| && k > 0 && |proof[p]| < 32
    ensures VerifyFrom(c, root, key, proof, k, p, value).None?
  {
  }

  lemma {:induction false} TrueHasChain(c: Crypto, root: Bytes32, key: Bytes, proof: seq<Bytes>, k: nat, p: nat, value: Bytes)
    requires value != [] && VerifyFrom(c, root, key, proof, k, p, value) == Some(true)
    ensures HasChain(c, root, key, proof, k, p, value)
    decreases |proof| - p
  {
    match MoveAt(c, proof[p], key, k, value).value
    case Stop(found) =>
      StopsAtStored(c, proof[p], key, k, value);
      ChainOne(c, key, proof, p, root, k, value);
    case Follow(child, k') =>
      var root' := ToHash(child).value;
      FollowsChild(c, proof[p], key, k, value, child, k');
      ToHashIs(child, root');
      assert Leads(c, proof[p], key, k, root', k');
      TrueHasChain(c, root', key, proof, k', p + 1, value);
      var refs, ks :| Chain(c, key, proof, p + 1, refs, ks, value) && refs[0] == root' && ks[0] == k';
      ChainCons(c, key, proof, p, root, k, refs, ks, value);
  }

  lemma {:induction false} ChainIsTrue(c: Crypto, key: Bytes, proof: seq<Bytes>, p: nat, refs: seq<Bytes32>, ks: seq<nat>,
                                       value: Bytes)
    requires Chain(c, key, proof, p, refs, ks, value)
    ensures VerifyFrom(c, refs[0], key, proof, ks[0], p, value) == Some(true)
    decreases |refs|
  {
    assert c.keccak(proof[p + 0]) == refs[0];
    if |refs| > 1 {
      ChainTail(c, key, proof, p, refs, ks, value);
      assert Leads(c, proof[p + 0], key, ks[0], refs[0 + 1], ks[0 + 1]);
      var child :| ChildAt(c, proof[p], key, ks[0], child, ks[1]) && PaddedTo(child, refs[1]);
      ToHashIs(child, refs[1]);
      FollowsChild(c, proof[p], key, ks[0], value, child, ks[1]);
      ChainIsTrue(c, key, proof, p + 1, refs[1..], ks[1..], value);
    } else {
      StopsAtStored(c, proof[p], key, ks[0], value);
    }
  }

  /** Verification of a nonempty value returns true exactly when the proof holds a chain of nodes from the root to
      a node that stores the value. */
  lemma TrueIffChain(c: Crypto, root: Bytes32, key: Bytes, proof: seq<Bytes>, k: nat, p: nat, value: Bytes)
    requires value != []
    ensures VerifyFrom(c, root, key, proof, k, p, value) == Some(true) <==> HasChain(c, root, key, proof, k, p, value)
  {
    if VerifyFrom(c, root, key, proof, k, p, value) == Some(true) {
      TrueHasChain(c, root, key, proof, k, p, value);
    }
    if HasChain(c, root, key, proof, k, p, value) {
      var refs, ks :| Chain(c, key, proof, p, refs, ks, value) && refs[0] == root && ks[0] == k;
      ChainIsTrue(c, key, proof, p, refs, ks, value);
    }
  }

  lemma ChainOne(c: Crypto, key: Bytes, proof: seq<Bytes>, p: nat, root: Bytes32, k: nat, value: Bytes)
    requires p < |proof| && c.keccak(proof[p]) == root && (k > 0 ==> |proof[p]| >= 32) && Stores(c, proof[p], key, k, value)
    ensures HasChain(c, root, key, proof, k, p, value)
  {
    var refs, ks := [root], [k];
    assert Chain(c, key, proof, p, refs, ks, value) && refs[0] == root && ks[0] == k;
  }

  lemma ChainCons(c: Crypto, key: Bytes, proof: seq<Bytes>, p: nat, root: Bytes32, k: nat,
                  refs: seq<Bytes32>, ks: seq<nat>, value: Bytes)
    requires Chain(c, key, proof, p + 1, refs, ks, value)
    requires c.keccak(proof[p]) == root && (k > 0 ==> |proof[p]| >= 32)
    requires Leads(c, proof[p], key, k, refs[0], ks[0])
    ensures Chain(c, key, proof, p, [root] + refs, [k] + ks, value) && HasChain(c, root, key, proof, k, p, value)
  {
    var rs, js := [root] + refs, [k] + ks;
    forall i | 0 <= i < |rs|
      ensures c.keccak(proof[p + i]) == rs[i] && (js[i] > 0 ==> |proof[p + i]| >= 32)
    {
      if i > 0 {
        assert c.keccak(proof[p + 1 + (i - 1)]) == refs[i - 1];
        assert ks[i - 1] > 0 ==> |proof[p + 1 + (i - 1)]| >= 32;
      }
    }
    forall i | 0 <= i < |rs| - 1
      ensures Leads(c, proof[p + i], key, js[i], rs[i + 1], js[i + 1])
    {
      if i > 0 {
        assert Leads(c, proof[p + 1 + (i - 1)], key, ks[i - 1], refs[i - 1 + 1], ks[i - 1 + 1]);
      }
    }
    assert Chain(c, key, proof, p, rs, js, value) && rs[0] == root && js[0] == k;
  }

  lemma ChainTail(c: Crypto, key: Bytes, proof: seq<Bytes>, p: nat, refs: seq<Bytes32>, ks: seq<nat>, value: Bytes)
    requires Chain(c, key, proof, p, refs, ks, value) && |refs| > 1
    ensures Chain(c, key, proof, p + 1, refs[1..], ks[1..], value)
  {
    forall i | 0 <= i < |refs| - 1
      ensures c.keccak(proof[p + 1 + i]) == refs[1..][i] && (ks[1..][i] > 0 ==> |proof[p + 1 + i]| >= 32)
    {
      assert c.keccak(proof[p + (i + 1)]) == refs[i + 1];
      assert ks[i + 1] > 0 ==> |proof[p + (i + 1)]| >= 32;
    }
    forall i | 0 <= i < |refs| - 2
      ensures Leads(c, proof[p + 1 + i], key, ks[1..][i], refs[1..][i + 1], ks[1..][i + 1])
    {
      assert Leads(c, proof[p + (i + 1)], key, ks[i + 1], refs[i + 1 + 1], ks[i + 1 + 1]);
    }
  }

  /** `verify_trie_proof`: expands the key in a loop. A nonempty value is accepted exactly when the proof holds a chain of
      nodes that the nibbles of the key select. */
  method VerifyTrieProof(c: Crypto, root: Bytes32, key: Bytes, proof: seq<Bytes>, value: Bytes) returns (r: Option<bool>)
    ensures r == VerifyFrom(c, root, ExpandKey(key, |proof|), proof, 0, 0, value)
    ensures value != [] ==> (r == Some(true) <==> HasChain(c, root, Selector(key, |proof|), proof, 0, 0, value))
  {
    var actual: Bytes := [];
    for i := 0 to |key|
      invariant actual == ExpandKey(key[..i], |proof|)
    {
      assert key[..i + 1][..i] == key[..i];
      if |actual| + 1 == |proof| {
        actual := actual + [key[i]];
      } else {
        actual := actual + [key[i] / 16, key[i] % 16];
      }
    }
    assert key[..|key|] == key;
    r := VerifyFrom(c, root, actual, proof, 0, 0, value);
    ExpandsTo(key, |proof|);
    if value != [] {
      TrueIffChain(c, root, actual, proof, 0, 0, value);
    }
  }

  /** For the empty value nothing but a panic is refused. */
  lemma {:induction false} EmptyIsNeverFalse(c: Crypto, root: Bytes32, key: Bytes, proof: seq<Bytes>, k: nat, p: nat)
    ensures VerifyFrom(c, root, key, proof, k, p, []) != Some(false)
    decreases |proof| - p
  {
    if p < |proof| && Matches(c, proof[p], root, k) {
      var m := MoveAt(c, proof[p], key, k, []);
      if m.Some? && m.value.Follow? && ToHash(m.value.child).Some? {
        EmptyIsNeverFalse(c, ToHash(m.value.child).value, key, proof, m.value.keyIndex, p + 1);
      }
    }
  }

  /** A branch without a child at nibble 3 passes at the key [3] for the empty value, which it does not store. */
  lemma EmptyPasses(c: Crypto, node: Bytes)
    requires c.count(node) == 17 && c.item(node, 3) == Some([])
    ensures VerifyFrom(c, c.keccak(node), [3], [node], 0, 0, []) == Some(true)
    ensures !HasChain(c, c.keccak(node), [3], [node], 0, 0, [])
  {
    var key: Bytes, proof := [3], [node];
    assert MoveAt(c, node, key, 0, []) == Some(Stop(false));
    forall refs, ks | Chain(c, key, proof, 0, refs, ks, [])
      ensures ks[0] != 0
    {
      assert Stores(c, proof[|refs| - 1], key, ks[|refs| - 1], []) && |refs| == 1;
    }
  }

  // ----- extensions -----

  /** An extension compares packed bytes with nibbles, so it is followed only when it carries no nibble (even) or
      a single one (odd): never more than the one nibble of its first byte. */
  lemma ExtensionIsShort(c: Crypto, node: Bytes, key: Bytes, k: nat, value: Bytes, child: Bytes, k': nat)
    requires c.count(node) == 2 && MoveAt(c, node, key, k, value) == Some(Follow(child, k'))
    ensures k <= k' <= k + 1 && c.item(node, 0).Some? && |c.item(node, 0).value| == 1
  {
    FollowsChild(c, node, key, k, value, child, k');
  }

  // ----- binding -----

  ghost predicate NodesDistinct(c: Crypto, proof: seq<Bytes>, other: seq<Bytes>) {
    forall x, y {:trigger x in proof, y in other} :: x in proof && y in other && c.keccak(x) == c.keccak(y) ==> x == y
  }

  /** A node that stops a walk with one value stops it with no other, and does not let it go on. */
  lemma MoveBinds(c: Crypto, node: Bytes, key: Bytes, k: nat, v: Bytes, w: Bytes)
    requires MoveAt(c, node, key, k, v).Some? && MoveAt(c, node, key, k, w).Some?
    ensures var m, n := MoveAt(c, node, key, k, v).value, MoveAt(c, node, key, k, w).value;
      && (m.Follow? ==> m == n)
      && (m == Stop(true) && n == Stop(true) ==> v == w)
  {
  }

  /** One root and one expanded key admit one nonempty value, unless two nodes of the proofs collide. */
  lemma {:induction false} ValueBinding(c: Crypto, root: Bytes32, key: Bytes, k: nat,
                                        proof: seq<Bytes>, p: nat, v: Bytes, other: seq<Bytes>, q: nat, w: Bytes)
    requires v != [] && w != [] && NodesDistinct(c, proof, other)
    requires VerifyFrom(c, root, key, proof, k, p, v) == Some(true)
    requires VerifyFrom(c, root, key, other, k, q, w) == Some(true)
    ensures v == w
    decreases |proof| - p
  {
    assert proof[p] in proof && other[q] in other;
    MoveBinds(c, proof[p], key, k, v, w);
    MoveBinds(c, proof[p], key, k, w, v);
    var m := MoveAt(c, proof[p], key, k, v).value;
    if m.Follow? {
      ValueBinding(c, ToHash(m.child).value, key, m.keyIndex, proof, p + 1, v, other, q + 1, w);
    }
  }
}
