/** A run of eight headers after which the canonical index holds a hash that is not an ancestor of
    the best header: two branches fork at number 10, both are kept while the first one leads, and
    the second overtakes once the fork point has been collected for good. */
module EthClientStale {
  import opened Prelude
  import opened EthClientSpec
  import opened EthClientProofs
  import opened EthClientTheorems

  const CFG := Config(10, 2, 0, false)

  function Header(hash: Hash, parent: Hash, number: U64, difficulty: U256): BlockHeader {
    BlockHeader(hash, parent, number, difficulty, 10240, 0, number, 0)
  }

  const G := Header(10, 9, 10, 0)

  /** The heavy header that ends branch B. */
  const LAST := Header(214, 213, 14, 100)

  /** Any test of the proof of work that these headers pass. */
  type Pow = BlockHeader -> bool

  ghost predicate Accepts(pow: Pow) {
    forall h: BlockHeader :: pow(h)
  }

  function Drop(s: Client, n: nat): set<Hash> {
    if n in s.all then set x | x in s.all[n] else {}
  }

  /** What recording a child of the best header comes to: the walk stops at its first step, and
      the header collector drops the level two below. */
  function Lead(s: Client, h: BlockHeader): Client
    requires h.number >= 2 && h.parentHash in s.infos
    requires s.infos[h.parentHash].totalDifficulty + h.difficulty <= MAX_U256
  {
    var t := Store(s, h);
    var gone := Drop(s, h.number - 2);
    Client(h.hash, s.canonical[h.number := h.hash], t.all - {h.number - 2}, t.headers - gone, t.infos - gone)
  }

  lemma Leads(pow: Pow, s: Client, h: BlockHeader)
    requires h.parentHash == s.best && s.best in s.infos && s.best in s.headers && 3 <= h.number < 100
    requires Verified(CFG, pow, h, s.headers[s.best]) && s.infos[s.best].number + 1 == h.number
    requires h.number !in s.all && h.difficulty > 0 && s.infos[s.best].totalDifficulty + h.difficulty <= MAX_U256
    requires h.number - 1 in s.canonical && s.canonical[h.number - 1] == s.best
    requires h.number - 3 !in s.all && (h.number < 10 || h.number - 10 !in s.canonical)
    requires forall n :: n in s.canonical ==> n < h.number
    ensures AddBlockHeader(CFG, pow, s, h) == Some(Lead(s, h))
  {
    var t, n := Store(s, h), h.number;
    assert Clear(s.canonical, n, n - 1) == s.canonical;
    var c := s.canonical[n := h.hash];
    assert c[n - 1 := s.best] == c;
    var r := Reorganise(t, h, n - 1);
    assert r.canonical == c;
    if n - 2 in s.all {
      assert TrimHeaders(r, n - 2) == DropLevel(r, n - 2);
    } else {
      assert t.all - {n - 2} == t.all;
      var gone := Drop(s, n - 2);
      assert gone == {};
      assert t.headers - gone == t.headers;
      assert t.infos - gone == t.infos;
      assert TrimHeaders(r, n - 2) == r;
    }
  }

  /** Recording a header that does not overtake only stores it. */
  lemma Trails(pow: Pow, s: Client, h: BlockHeader)
    requires s.best in s.infos && h.parentHash in s.headers && h.parentHash in s.infos && h.number < 100
    requires Verified(CFG, pow, h, s.headers[h.parentHash]) && s.infos[s.best].number == h.number
    requires h.hash !in KnownHashes(s, h.number)
    requires s.infos[h.parentHash].totalDifficulty + h.difficulty < s.infos[s.best].totalDifficulty
    ensures AddBlockHeader(CFG, pow, s, h) == Some(Store(s, h))
  {
  }

  /** The state once both branches have reached 11. */
  function Fork(): Client {
    Client(111, Index(11), map[10 := [10], 11 := [111, 211]], map[10 := G, 111 := A(11), 211 := B(11)],
           map[10 := HeaderInfo(0, 0, 10), 111 := InfoA(11), 211 := InfoB(11)])
  }

  /** The state once both branches have reached `n`, for `n` above 11. */
  function Both(n: U64): Client
    requires 12 <= n <= 13
  {
    var a, b, a', b' := A(n), B(n), A(n - 1), B(n - 1);
    Client(a.hash, Index(n), map[n - 1 := [a'.hash, b'.hash], n := [a.hash, b.hash]],
           map[a'.hash := a', b'.hash := b', a.hash := a, b.hash := b],
           map[a'.hash := InfoA(n - 1), b'.hash := InfoB(n - 1), a.hash := InfoA(n), b.hash := InfoB(n)])
  }

  function A(n: U64): BlockHeader
    requires 10 <= n <= 14
  {
    Header(100 + n, if n == 11 then 10 else 99 + n, n, 10)
  }

  function B(n: U64): BlockHeader
    requires 10 <= n <= 14
  {
    Header(200 + n, if n == 11 then 10 else 199 + n, n, 1)
  }

  function InfoA(n: U64): HeaderInfo
    requires 11 <= n <= 14
  {
    HeaderInfo(10 * (n - 10), A(n).parentHash, n)
  }

  function InfoB(n: U64): HeaderInfo
    requires 11 <= n <= 14
  {
    HeaderInfo(n - 10, B(n).parentHash, n)
  }

  function Index(n: nat): map<nat, Hash>
    requires n <= 14
  {
    map k | 10 <= k <= n :: OnA(k)
  }

  function OnA(k: nat): Hash
    requires k <= 14
  {
    if k == 10 then 10 else 100 + k
  }

  /** Branch A takes the lead at 11, and branch B follows. */
  lemma FirstStep(pow: Pow)
    requires Accepts(pow)
    ensures AddBlockHeader(CFG, pow, Initial(G), A(11)) == Some(Lead(Initial(G), A(11)))
    ensures AddBlockHeader(CFG, pow, Lead(Initial(G), A(11)), B(11)) == Some(Fork())
  {
    Leads(pow, Initial(G), A(11));
    var s := Lead(Initial(G), A(11));
    FirstLead();
    Trails(pow, s, B(11));
    assert [111] + [211] == [111, 211];
    assert Store(s, B(11)).all == Fork().all;
    assert Store(s, B(11)).headers == Fork().headers;
    assert Store(s, B(11)).infos == Fork().infos;
  }

  lemma FirstLead()
    ensures Lead(Initial(G), A(11)) ==
      Client(111, Index(11), map[10 := [10], 11 := [111]], map[10 := G, 111 := A(11)],
             map[10 := HeaderInfo(0, 0, 10), 111 := InfoA(11)])
  {
    var s := Lead(Initial(G), A(11));
    assert Drop(Initial(G), 9) == {};
    assert [] + [111] == [111];
    assert s.all == map[10 := [10], 11 := [111]];
    assert s.infos == map[10 := HeaderInfo(0, 0, 10), 111 := InfoA(11)];
    assert s.headers == map[10 := G, 111 := A(11)];
    assert s.canonical == Index(11);
  }

  /** Branch A goes on to the next number; the level two below is collected. */
  lemma StepA(pow: Pow, n: U64)
    requires Accepts(pow)
    requires 12 <= n <= 13
    ensures AddBlockHeader(CFG, pow, Both(n), A(n + 1)) == Some(Ahead(n))
  {
    Leads(pow, Both(n), A(n + 1));
    LeadIs(n);
  }

  lemma LeadIs(n: U64)
    requires 12 <= n <= 13
    ensures Lead(Both(n), A(n + 1)) == Ahead(n)
  {
    var s := Both(n);
    assert Drop(s, n - 1) == {99 + n, 199 + n};
    assert Index(n)[n + 1 := 101 + n] == Index(n + 1);
    assert KnownHashes(s, n + 1) + [101 + n] == [101 + n];
    Levels(n - 1, n, n + 1, [99 + n, 199 + n], [100 + n, 200 + n], [101 + n]);
    Entries(99 + n, 199 + n, 100 + n, 200 + n, 101 + n, A(n - 1), B(n - 1), A(n), B(n), A(n + 1));
    Entries(99 + n, 199 + n, 100 + n, 200 + n, 101 + n, InfoA(n - 1), InfoB(n - 1), InfoA(n), InfoB(n), InfoA(n + 1));
  }

  lemma Levels<V>(a: nat, b: nat, c: nat, x: V, y: V, z: V)
    requires a < b < c
    ensures map[a := x, b := y][c := z] - {a} == map[b := y, c := z]
  {
  }

  lemma Entries<V>(a: Hash, b: Hash, c: Hash, d: Hash, e: Hash, v: V, w: V, x: V, y: V, z: V)
    requires a < c < e < b < d
    ensures map[a := v, b := w, c := x, d := y][e := z] - {a, b} == map[c := x, d := y, e := z]
  {
  }

  lemma StepA11(pow: Pow)
    requires Accepts(pow)
    ensures AddBlockHeader(CFG, pow, Fork(), A(12)) == Some(Ahead(11))
  {
    Leads(pow, Fork(), A(12));
    LeadIs11();
  }

  lemma LeadIs11()
    ensures Lead(Fork(), A(12)) == Ahead(11)
  {
    var s := Fork();
    assert Drop(s, 10) == {10};
    assert Index(11)[12 := 112] == Index(12);
    assert KnownHashes(s, 12) + [112] == [112];
    Levels(10, 11, 12, [10], [111, 211], [112]);
    FirstEntries(10, 111, 211, 112, G, A(11), B(11), A(12));
    FirstEntries(10, 111, 211, 112, HeaderInfo(0, 0, 10), InfoA(11), InfoB(11), InfoA(12));
  }

  lemma FirstEntries<V>(a: Hash, c: Hash, d: Hash, e: Hash, v: V, x: V, y: V, z: V)
    requires a < c < e < d
    ensures map[a := v, c := x, d := y][e := z] - {a} == map[c := x, d := y, e := z]
  {
  }

  /** Branch A at `n + 1`, branch B at `n`. */
  function Ahead(n: U64): Client
    requires 11 <= n <= 13
  {
    var a, b, c := A(n), B(n), A(n + 1);
    Client(c.hash, Index(n + 1), map[n := [a.hash, b.hash], n + 1 := [c.hash]],
           map[a.hash := a, b.hash := b, c.hash := c],
           map[a.hash := InfoA(n), b.hash := InfoB(n), c.hash := InfoA(n + 1)])
  }

  lemma StepB(pow: Pow, n: U64)
    requires Accepts(pow)
    requires 11 <= n <= 12
    ensures AddBlockHeader(CFG, pow, Ahead(n), B(n + 1)) == Some(Both(n + 1))
  {
    Trails(pow, Ahead(n), B(n + 1));
    var t := Store(Ahead(n), B(n + 1));
    assert [101 + n] + [201 + n] == [101 + n, 201 + n];
    assert t.all == Both(n + 1).all;
    assert t.headers == Both(n + 1).headers;
    assert t.infos == Both(n + 1).infos;
  }

  /** Branch B overtakes. The walk writes 13 and 12 and stops there, for the header at 12 is collected; what
      the index says of 11 is left over from branch A. */
  lemma LastStep(pow: Pow)
    requires Accepts(pow)
    ensures var r := AddBlockHeader(CFG, pow, Ahead(13), LAST);
      && r.Some? && r.value.best == 214 && LastBlockNumber(r.value) == 14
      && r.value.canonical == map[10 := 10, 11 := 111, 12 := 212, 13 := 213, 14 := 214]
  {
    var s := Ahead(13);
    var t := Store(s, LAST);
    LastIndex(t.infos);
    assert Record(CFG, s, LAST) == Some(Collect(CFG, Reorganise(t, LAST, 14), 14));
    NothingToCollect(Reorganise(t, LAST, 14));
  }

  /** The walk on the index of branch A, when the info of 213 is still there and that of 212 is gone. */
  lemma LastIndex(infos: map<Hash, HeaderInfo>)
    requires 213 in infos && infos[213].parentHash == 212 && 212 !in infos
    ensures Walk(Clear(Index(14), 14, 14)[14 := 214], infos, 13, 213)
            == map[10 := 10, 11 := 111, 12 := 212, 13 := 213, 14 := 214]
  {
    var c := Clear(Index(14), 14, 14)[14 := 214];
    assert c == map[10 := 10, 11 := 111, 12 := 112, 13 := 113, 14 := 214];
    TwoSteps(c, infos, 12, 212, 213);
  }

  lemma TwoSteps(c: map<nat, Hash>, infos: map<Hash, HeaderInfo>, n: nat, low: Hash, high: Hash)
    requires n > 0 && n in c && c[n] != low && n + 1 in c && c[n + 1] != high
    requires high in infos && infos[high].parentHash == low && low !in infos
    ensures Walk(c, infos, n + 1, high) == c[n + 1 := high][n := low]
  {
    var w := c[n + 1 := high];
    assert Walk(w, infos, n, low) == w[n := low];
  }

  /** Neither collector finds anything at its threshold. */
  lemma NothingToCollect(r: Client)
    requires 4 !in r.canonical && 12 !in r.all
    ensures Collect(CFG, r, 14) == r
  {
  }

  function ToBoth12(): seq<BlockHeader> { [A(11)] + [B(11)] + [A(12)] + [B(12)] }

  function WholeRun(): seq<BlockHeader> { ToBoth12() + [A(13)] + [B(13)] + [A(14)] + [LAST] }

  lemma Extend(pow: Pow, hs: seq<BlockHeader>, h: BlockHeader, s: Client, s': Client)
    requires After(CFG, pow, G, hs) == s && AddBlockHeader(CFG, pow, s, h) == Some(s')
    ensures After(CFG, pow, G, hs + [h]) == s'
  {
    assert (hs + [h])[..|hs|] == hs;
  }

  lemma FirstHalf(pow: Pow)
    requires Accepts(pow)
    ensures After(CFG, pow, G, ToBoth12()) == Both(12)
  {
    FirstStep(pow);
    assert [] + [A(11)] == [A(11)];
    Extend(pow, [], A(11), Initial(G), Lead(Initial(G), A(11)));
    Extend(pow, [A(11)], B(11), Lead(Initial(G), A(11)), Fork());
    StepA11(pow);
    Extend(pow, [A(11)] + [B(11)], A(12), Fork(), Ahead(11));
    StepB(pow, 11);
    Extend(pow, [A(11)] + [B(11)] + [A(12)], B(12), Ahead(11), Both(12));
  }

  lemma SecondHalf(pow: Pow, hs: seq<BlockHeader>, s: Client)
    requires Accepts(pow)
    requires After(CFG, pow, G, hs) == Both(12) && AddBlockHeader(CFG, pow, Ahead(13), LAST) == Some(s)
    ensures After(CFG, pow, G, hs + [A(13)] + [B(13)] + [A(14)] + [LAST]) == s
  {
    StepA(pow, 12);
    Extend(pow, hs, A(13), Both(12), Ahead(12));
    StepB(pow, 12);
    Extend(pow, hs + [A(13)], B(13), Ahead(12), Both(13));
    StepA(pow, 13);
    Extend(pow, hs + [A(13)] + [B(13)], A(14), Both(13), Ahead(13));
    Extend(pow, hs + [A(13)] + [B(13)] + [A(14)], LAST, Ahead(13), s);
  }

  /** After the run the client reports for number 11 a hash of the abandoned branch: the parent of its entry at 12
      is another header. */
  lemma StaleAfterRun(pow: Pow, s: Client)
    requires Accepts(pow)
    requires s == After(CFG, pow, G, WholeRun())
    ensures s.best == LAST.hash && LAST.parentHash == B(13).hash && B(13).parentHash == B(12).hash
    ensures 12 in s.canonical && s.canonical[12] == B(12).hash && B(12).parentHash == B(11).hash
    ensures BlockHashSafe(CFG, s, 11) == Some(Some(A(11).hash)) && A(11).hash != B(11).hash
  {
    LastStep(pow);
    RunEnds(pow, AddBlockHeader(CFG, pow, Ahead(13), LAST).value);
    Reported(s);
  }

  lemma Reported(s: Client)
    requires s.best == 214 && LastBlockNumber(s) == 14
    requires s.canonical == map[10 := 10, 11 := 111, 12 := 212, 13 := 213, 14 := 214]
    ensures 12 in s.canonical && s.canonical[12] == 212 && BlockHashSafe(CFG, s, 11) == Some(Some(111))
  {
  }

  lemma RunEnds(pow: Pow, r: Client)
    requires Accepts(pow)
    requires AddBlockHeader(CFG, pow, Ahead(13), LAST) == Some(r)
    ensures After(CFG, pow, G, WholeRun()) == r
  {
    FirstHalf(pow);
    SecondHalf(pow, ToBoth12(), r);
  }
}
