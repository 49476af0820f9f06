/** Merkle paths over any way of combining two hashes: a path folds a leaf up to a root. */
module Merkle {

  /** A sibling, and whether it stands on the right. */
  datatype Item<H> = Item(hash: H, right: bool)

  type Combine<!H> = (H, H) -> H

  function Step<H>(f: Combine<H>, node: H, i: Item<H>): H {
    if i.right then f(node, i.hash) else f(i.hash, node)
  }

  function Root<H>(f: Combine<H>, node: H, path: seq<Item<H>>): H {
    if path == [] then node else Step(f, Root(f, node, path[..|path| - 1]), path[|path| - 1])
  }

  /** The loop of both contracts. */
  method ComputeRoot<H>(f: Combine<H>, node: H, path: seq<Item<H>>) returns (hash: H)
    ensures hash == Root(f, node, path)
  {
    hash := node;
    for i := 0 to |path|
      invariant hash == Root(f, node, path[..i])
    {
      assert path[..i + 1][..i] == path[..i];
      hash := if path[i].right then f(hash, path[i].hash) else f(path[i].hash, hash);
    }
    assert path[..|path|] == path;
  }

  // ----- binding -----

  /** The ordered pair that a step combines. */
  ghost function Operands<H>(node: H, i: Item<H>): (H, H) {
    if i.right then (node, i.hash) else (i.hash, node)
  }

  ghost function Combined<H(!new)>(f: Combine<H>, node: H, path: seq<Item<H>>): set<(H, H)> {
    if path == [] then {} else
      var init := path[..|path| - 1];
      Combined(f, node, init) + {Operands(Root(f, node, init), path[|path| - 1])}
  }

  /** No two of the pairs combine alike without being equal. */
  ghost predicate Distinct<H(!new)>(f: Combine<H>, ps: set<(H, H)>, qs: set<(H, H)>) {
    forall p, q {:trigger p in ps, q in qs} :: p in ps && q in qs && f(p.0, p.1) == f(q.0, q.1) ==> p == q
  }

  ghost predicate SameDirections<H>(p: seq<Item<H>>, q: seq<Item<H>>) {
    |p| == |q| && forall i :: 0 <= i < |p| ==> p[i].right == q[i].right
  }

  /** Equal directions and equal roots force equal leaves and siblings, unless the pairs combined on the way
      collide. */
  lemma {:induction false} Binding<H(!new)>(f: Combine<H>, n: H, p: seq<Item<H>>, m: H, q: seq<Item<H>>)
    requires SameDirections(p, q) && Root(f, n, p) == Root(f, m, q)
    requires Distinct(f, Combined(f, n, p), Combined(f, m, q))
    ensures n == m && p == q
    decreases |p|
  {
    if p != [] {
      var k := |p| - 1;
      var x, y := Operands(Root(f, n, p[..k]), p[k]), Operands(Root(f, m, q[..k]), q[k]);
      assert x in Combined(f, n, p) && y in Combined(f, m, q);
      assert p[k].right == q[k].right;
      assert f(x.0, x.1) == Root(f, n, p) && f(y.0, y.1) == Root(f, m, q);
      assert x == y;
      Binding(f, n, p[..k], m, q[..k]);
      assert p == p[..k] + [p[k]] && q == q[..k] + [q[k]];
    }
  }

  /** The two paths turn alike from the root down, as far as both go. */
  ghost predicate SameTop<H>(p: seq<Item<H>>, q: seq<Item<H>>) {
    p != [] && q != [] ==> p[|p| - 1].right == q[|q| - 1].right && SameTop(p[..|p| - 1], q[..|q| - 1])
  }

  lemma {:induction false} TopSymmetric<H>(p: seq<Item<H>>, q: seq<Item<H>>)
    requires SameTop(p, q)
    ensures SameTop(q, p)
  {
    if p != [] && q != [] {
      TopSymmetric(p[..|p| - 1], q[..|q| - 1]);
    }
  }

  lemma {:induction false} TopIsAll<H>(p: seq<Item<H>>, q: seq<Item<H>>)
    requires SameTop(p, q) && |p| == |q|
    ensures SameDirections(p, q)
  {
    if p != [] {
      TopIsAll(p[..|p| - 1], q[..|q| - 1]);
    }
  }

  /** The longer of two such paths to one root passes through the leaf of the shorter, unless pairs collide. */
  lemma {:induction false} PassesThrough<H(!new)>(f: Combine<H>, n: H, p: seq<Item<H>>, m: H, q: seq<Item<H>>)
    requires |q| <= |p| && SameTop(p, q) && Root(f, n, p) == Root(f, m, q)
    requires Distinct(f, Combined(f, n, p), Combined(f, m, q))
    ensures Root(f, n, p[..|p| - |q|]) == m
    decreases |q|
  {
    if q == [] {
      assert p[..|p|] == p;
    } else {
      var a, b := p[..|p| - 1], q[..|q| - 1];
      var x, y := Operands(Root(f, n, a), p[|p| - 1]), Operands(Root(f, m, b), q[|q| - 1]);
      assert x in Combined(f, n, p) && y in Combined(f, m, q);
      assert f(x.0, x.1) == Root(f, n, p) && f(y.0, y.1) == Root(f, m, q);
      assert x == y;
      PassesThrough(f, n, a, m, b);
      assert a[..|a| - |b|] == p[..|p| - |q|];
    }
  }

  /** Every hash above the leaf combines a pair of the path. */
  lemma {:induction false} RootCombines<H(!new)>(f: Combine<H>, n: H, p: seq<Item<H>>, k: nat) returns (x: (H, H))
    requires 0 < k <= |p|
    ensures x in Combined(f, n, p) && f(x.0, x.1) == Root(f, n, p[..k])
    decreases |p|
  {
    if k == |p| {
      assert p[..k] == p;
      x := Operands(Root(f, n, p[..k - 1]), p[k - 1]);
    } else {
      x := RootCombines(f, n, p[..|p| - 1], k);
      assert p[..|p| - 1][..k] == p[..k];
    }
  }

  // ----- completeness -----

  datatype Tree<H> = Leaf(leaf: H) | Node(left: Tree<H>, right: Tree<H>)

  function HashOf<H>(f: Combine<H>, t: Tree<H>): H {
    match t
    case Leaf(h) => h
    case Node(l, r) => f(HashOf(f, l), HashOf(f, r))
  }

  /** A way down the tree to a leaf: left is false. */
  predicate Leads<H>(t: Tree<H>, way: seq<bool>) {
    match t
    case Leaf(_) => way == []
    case Node(l, r) => way != [] && Leads(if way[0] then r else l, way[1..])
  }

  function LeafAt<H>(t: Tree<H>, way: seq<bool>): H
    requires Leads(t, way)
  {
    match t
    case Leaf(h) => h
    case Node(l, r) => LeafAt(if way[0] then r else l, way[1..])
  }

  /** The siblings passed on the way, the lowest first. */
  function PathAt<H>(f: Combine<H>, t: Tree<H>, way: seq<bool>): seq<Item<H>>
    requires Leads(t, way)
  {
    match t
    case Leaf(_) => []
    case Node(l, r) =>
      if way[0] then PathAt(f, r, way[1..]) + [Item(HashOf(f, l), false)]
      else PathAt(f, l, way[1..]) + [Item(HashOf(f, r), true)]
  }

  /** A path read off a tree recomputes its root. */
  lemma {:induction false} Completeness<H>(f: Combine<H>, t: Tree<H>, way: seq<bool>)
    requires Leads(t, way)
    ensures Root(f, LeafAt(t, way), PathAt(f, t, way)) == HashOf(f, t)
    decreases t
  {
    if t.Node? {
      var below := if way[0] then t.right else t.left;
      Completeness(f, below, way[1..]);
      var path := PathAt(f, t, way);
      assert path[..|path| - 1] == PathAt(f, below, way[1..]);
    }
  }
}
