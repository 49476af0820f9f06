/** `apply_merkle_proof` of the Ethereum client: a path whose directions are the bits of an index. */
module DagMerkle {
  import opened Prelude
  import opened Arithmetic
  import opened NearTypes
  import opened Merkle

  type Bytes16 = s: seq<Byte> | |s| == 16 witness [0, 0, 0, 0, 0, 0, 0, 0, 0, 0, 0, 0, 0, 0, 0, 0]

  /** A node of the DAG. */
  type Bytes64 = s: seq<Byte> | |s| == 64 witness seq(64, _ => 0)

  const PAD: Bytes16 := [0, 0, 0, 0, 0, 0, 0, 0, 0, 0, 0, 0, 0, 0, 0, 0]

  /** The last sixteen bytes of a hash. */
  function Truncate(h: Bytes32): Bytes16 { h[16..] }

  function LeafHash(sha: Sha, a: Bytes64, b: Bytes64): Bytes16 { Truncate(sha(a + b)) }

  function HashPair(sha: Sha): Combine<Bytes16> {
    (l: Bytes16, r: Bytes16) => Truncate(sha(PAD + l + PAD + r))
  }

  /** `(index >> i) % 2 == 0` puts the node on the left and its sibling on the right. */
  predicate SiblingRight(index: nat, i: nat) { (index / Pow2(i)) % 2 == 0 }

  function IndexPath(proof: seq<Bytes16>, index: nat): (p: seq<Item<Bytes16>>)
    ensures |p| == |proof|
  {
    if proof == [] then [] else
      var k := |proof| - 1;
      IndexPath(proof[..k], index) + [Item(proof[k], SiblingRight(index, k))]
  }

  /** A missing node and a shift by more than 63 places panic. */
  method ApplyMerkleProof(sha: Sha, nodes: seq<Bytes64>, proof: seq<Bytes16>, index: U64) returns (r: Option<Bytes16>)
    ensures r == if |nodes| < 2 || |proof| > 64 then None else
              Some(Root(HashPair(sha), LeafHash(sha, nodes[0], nodes[1]), IndexPath(proof, index)))
  {
    if |nodes| < 2 {
      return None;
    }
    var leaf := LeafHash(sha, nodes[0], nodes[1]);
    ghost var start := leaf;
    var f := HashPair(sha);
    for i := 0 to |proof|
      invariant i <= 64 && leaf == Root(f, start, IndexPath(proof[..i], index))
    {
      if i >= 64 {
        return None;
      }
      NextRoot(f, start, proof, index, i);
      leaf := if (index / Pow2(i)) % 2 == 0 then f(leaf, proof[i]) else f(proof[i], leaf);
    }
    assert proof[..|proof|] == proof;
    r := Some(leaf);
  }

  lemma NextRoot(f: Combine<Bytes16>, start: Bytes16, proof: seq<Bytes16>, index: nat, i: nat)
    requires i < |proof|
    ensures Root(f, start, IndexPath(proof[..i + 1], index)) ==
      Step(f, Root(f, start, IndexPath(proof[..i], index)), Item(proof[i], SiblingRight(index, i)))
  {
    assert proof[..i + 1] == proof[..i] + [proof[i]];
    IndexPathSnoc(proof[..i], proof[i], index);
    var init, last := IndexPath(proof[..i], index), Item(proof[i], SiblingRight(index, i));
    assert (init + [last])[..|init|] == init;
  }

  lemma {:induction false} IndexPathAt(proof: seq<Bytes16>, index: nat, i: nat)
    requires i < |proof|
    ensures IndexPath(proof, index)[i] == Item(proof[i], SiblingRight(index, i))
    decreases |proof|
  {
    if i < |proof| - 1 {
      IndexPathAt(proof[..|proof| - 1], index, i);
    }
  }

  /** For one index and one root there is one leaf and one proof, unless the pairs hashed on the way collide. */
  lemma IndexBinding(sha: Sha, index: nat, n: Bytes16, p: seq<Bytes16>, m: Bytes16, q: seq<Bytes16>)
    requires |p| == |q|
    requires Root(HashPair(sha), n, IndexPath(p, index)) == Root(HashPair(sha), m, IndexPath(q, index))
    requires Distinct(HashPair(sha), Combined(HashPair(sha), n, IndexPath(p, index)),
                      Combined(HashPair(sha), m, IndexPath(q, index)))
    ensures n == m && p == q
  {
    forall i | 0 <= i < |p|
      ensures IndexPath(p, index)[i] == Item(p[i], SiblingRight(index, i))
      ensures IndexPath(q, index)[i] == Item(q[i], SiblingRight(index, i))
    {
      IndexPathAt(p, index, i);
      IndexPathAt(q, index, i);
    }
    Binding(HashPair(sha), n, IndexPath(p, index), m, IndexPath(q, index));
    assert forall i :: 0 <= i < |p| ==> p[i] == IndexPath(p, index)[i].hash == q[i];
  }

  /** The root, an index and the length of the proof determine the two nodes and the proof, unless two inputs of the
      truncated hash collide. */
  lemma NodesBinding(sha: Sha, index: nat, a: Bytes64, b: Bytes64, p: seq<Bytes16>, c: Bytes64, d: Bytes64, q: seq<Bytes16>)
    requires |p| == |q|
    requires Root(HashPair(sha), LeafHash(sha, a, b), IndexPath(p, index)) == Root(HashPair(sha), LeafHash(sha, c, d), IndexPath(q, index))
    requires Distinct(HashPair(sha), Combined(HashPair(sha), LeafHash(sha, a, b), IndexPath(p, index)),
                      Combined(HashPair(sha), LeafHash(sha, c, d), IndexPath(q, index)))
    requires LeafHash(sha, a, b) == LeafHash(sha, c, d) ==> a + b == c + d
    ensures a == c && b == d && p == q
  {
    IndexBinding(sha, index, LeafHash(sha, a, b), p, LeafHash(sha, c, d), q);
    assert (a + b)[..64] == a && (c + d)[..64] == c;
    assert (a + b)[64..] == b && (c + d)[64..] == d;
  }

  /** The way down that an index stands for: its bits, the highest first. */
  function WayOf(index: nat, depth: nat): seq<bool> {
    if depth == 0 then [] else [!SiblingRight(index, depth - 1)] + WayOf(index, depth - 1)
  }

  function Siblings(path: seq<Item<Bytes16>>): seq<Bytes16> {
    if path == [] then [] else Siblings(path[..|path| - 1]) + [path[|path| - 1].hash]
  }

  /** Putting the directions of an index back on the siblings of its way gives the path. */
  lemma {:induction false} SiblingsOnWay(sha: Sha, t: Tree<Bytes16>, index: nat, depth: nat)
    requires Leads(t, WayOf(index, depth))
    ensures var path := PathAt(HashPair(sha), t, WayOf(index, depth));
      |path| == depth && IndexPath(Siblings(path), index) == path
    decreases depth
  {
    if depth > 0 {
      var f, way := HashPair(sha), WayOf(index, depth);
      assert way[1..] == WayOf(index, depth - 1);
      var below := if way[0] then t.right else t.left;
      SiblingsOnWay(sha, below, index, depth - 1);
      OneMoreSibling(PathAt(f, t, way), PathAt(f, below, way[1..]), index);
    }
  }

  lemma OneMoreSibling(path: seq<Item<Bytes16>>, init: seq<Item<Bytes16>>, index: nat)
    requires |path| == |init| + 1 && path[..|init|] == init && IndexPath(Siblings(init), index) == init
    requires path[|init|].right == SiblingRight(index, |init|)
    ensures IndexPath(Siblings(path), index) == path
  {
    var last := path[|init|];
    assert path == init + [last];
    SiblingsSnoc(init, last);
    SiblingsLength(init);
    IndexPathSnoc(Siblings(init), last.hash, index);
  }

  lemma SiblingsSnoc(init: seq<Item<Bytes16>>, last: Item<Bytes16>)
    ensures Siblings(init + [last]) == Siblings(init) + [last.hash]
  {
    assert (init + [last])[..|init|] == init;
  }

  lemma {:induction false} SiblingsLength(path: seq<Item<Bytes16>>)
    ensures |Siblings(path)| == |path|
    decreases |path|
  {
    if path != [] {
      SiblingsLength(path[..|path| - 1]);
    }
  }

  lemma IndexPathSnoc(proof: seq<Bytes16>, h: Bytes16, index: nat)
    ensures IndexPath(proof + [h], index) == IndexPath(proof, index) + [Item(h, SiblingRight(index, |proof|))]
  {
    assert (proof + [h])[..|proof|] == proof;
  }

  /** The siblings on the way of an index, given back with that index, recompute the root of the tree. */
  lemma IndexCompleteness(sha: Sha, t: Tree<Bytes16>, index: nat, depth: nat)
    requires Leads(t, WayOf(index, depth))
    ensures var path := PathAt(HashPair(sha), t, WayOf(index, depth));
      Root(HashPair(sha), LeafAt(t, WayOf(index, depth)), IndexPath(Siblings(path), index)) == HashOf(HashPair(sha), t)
  {
    SiblingsOnWay(sha, t, index, depth);
    Completeness(HashPair(sha), t, WayOf(index, depth));
  }

  // ----- which leaf an index stands for -----

  function Leaves(t: Tree<Bytes16>): seq<Bytes16> {
    match t
    case Leaf(h) => [h]
    case Node(l, r) => Leaves(l) + Leaves(r)
  }

  predicate Perfect(t: Tree<Bytes16>, depth: nat) {
    match t
    case Leaf(_) => depth == 0
    case Node(l, r) => depth > 0 && Perfect(l, depth - 1) && Perfect(r, depth - 1)
  }

  /** The bits of an index below the highest do not depend on the highest. */
  lemma LowerBit(index: nat, i: nat, n: nat)
    requires i < n && Pow2(n) <= index
    ensures SiblingRight(index, i) == SiblingRight(index - Pow2(n), i)
  {
    var m, k := Pow2(i), Pow2(n - i - 1);
    Pow2Add(i, n - i);
    var x := index - Pow2(n);
    assert Pow2(n) == 2 * k * m by {
      assert Pow2(n - i) == 2 * k;
      assert m * (2 * k) == 2 * k * m;
    }
    Shifted(x, m, 2 * k);
    ModShift(x / m, k, 2);
  }

  lemma Shifted(x: nat, m: nat, k: nat)
    requires m > 0
    ensures (x + k * m) / m == x / m + k
  {
    assert x == (x / m) * m + x % m;
    assert (x / m) * m + k * m == (x / m + k) * m;
    ModUnique(x / m + k, x % m, m);
  }

  lemma {:induction false} WayBelow(index: nat, depth: nat, n: nat)
    requires depth <= n && Pow2(n) <= index
    ensures WayOf(index, depth) == WayOf(index - Pow2(n), depth)
  {
    if depth > 0 {
      LowerBit(index, depth - 1, n);
      WayBelow(index, depth - 1, n);
    }
  }

  lemma TopBit(index: nat, n: nat)
    requires index < 2 * Pow2(n)
    ensures SiblingRight(index, n) <==> index < Pow2(n)
  {
    var m := Pow2(n);
    if index < m {
      ModUnique(0, index, m);
    } else {
      ModUnique(1, index - m, m);
    }
  }

  /** The way of an index leads to the leaf of that number, counted from the left. */
  lemma {:induction false} NumberedLeaf(t: Tree<Bytes16>, index: nat, depth: nat)
    requires Perfect(t, depth) && index < Pow2(depth)
    ensures |Leaves(t)| == Pow2(depth) && Leads(t, WayOf(index, depth)) && LeafAt(t, WayOf(index, depth)) == Leaves(t)[index]
    decreases depth
  {
    if depth > 0 {
      var half, way := Pow2(depth - 1), WayOf(index, depth);
      assert way[1..] == WayOf(index, depth - 1);
      TopBit(index, depth - 1);
      NumberedLeaf(t.left, if index < half then index else 0, depth - 1);
      NumberedLeaf(t.right, if index < half then 0 else index - half, depth - 1);
      if index >= half {
        WayBelow(index, depth - 1, depth - 1);
      }
    }
  }

  /** So the siblings of leaf number `index` of a perfect tree, given back with that index, recompute its root. */
  lemma LeafCompleteness(sha: Sha, t: Tree<Bytes16>, index: nat, depth: nat)
    requires Perfect(t, depth) && index < Pow2(depth)
    ensures |Leaves(t)| == Pow2(depth) && Leads(t, WayOf(index, depth))
    ensures var path := PathAt(HashPair(sha), t, WayOf(index, depth));
      Root(HashPair(sha), Leaves(t)[index], IndexPath(Siblings(path), index)) == HashOf(HashPair(sha), t)
  {
    NumberedLeaf(t, index, depth);
    IndexCompleteness(sha, t, index, depth);
  }

  /** Two nodes are hashed as the low halves of two 32-byte numbers, and the low half of the hash is kept. */
  lemma HashPairLayout(sha: Sha, l: Bytes16, r: Bytes16) returns (x: Bytes)
    ensures |x| == 64 && x[16..32] == l && x[48..] == r
    ensures forall i :: 0 <= i < 16 ==> x[i] == 0
    ensures forall i :: 32 <= i < 48 ==> x[i] == 0
    ensures HashPair(sha)(l, r) == sha(x)[16..]
  {
    x := PAD + l + PAD + r;
  }
}
