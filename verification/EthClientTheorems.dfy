/** What the Ethereum light client promises over whole runs: the canonical index is the parent
    walk from the best header, the best header is the heaviest ever seen, and exactly when an
    index entry goes stale. */
module EthClientTheorems {
  import opened Prelude
  import opened EthClientSpec
  import opened EthClientProofs

  lemma {:induction false} AncestorStep(chain: Chain, h: Hash, k: nat)
    ensures AncestorAt(chain, h, k + 1) == chain(AncestorAt(chain, h, k)).parentHash
    decreases k
  {
    if k > 0 {
      AncestorStep(chain, chain(h).parentHash, k - 1);
    }
  }

  /** Every retained entry of the index, and the one below, is the ancestor of the best header. */
  lemma {:induction false} IndexIsParentWalk(g: BlockHeader, chain: Chain, s: Client, lo: nat, clo: nat, i: nat)
    requires TreeKept(g, chain, s, lo) && IndexShape(g, chain, s, lo, clo)
    requires i in s.canonical && lo <= i + 1
    ensures s.canonical[i] == AncestorAt(chain, s.best, s.infos[s.best].number - i)
    decreases s.infos[s.best].number - i
  {
    var top := s.infos[s.best].number;
    if i < top {
      IndexIsParentWalk(g, chain, s, lo, clo, i + 1);
      AncestorStep(chain, s.best, top - i - 1);
      assert LinkAt(s.canonical, s.infos, i + 1);
      assert HeaderKept(g, chain, s, lo, s.canonical[i + 1]);
    }
  }

  /** The accepted header kept the invariant; `lo'` and `clo'` are the new window. */
  lemma RecordInv(cfg: Config, g: BlockHeader, chain: Chain, s: Client, lo: nat, clo: nat, header: BlockHeader, s': Client)
    returns (lo': nat, clo': nat)
    requires Sane(cfg) && Inv(cfg, g, chain, s, lo, clo) && Record(cfg, s, header) == Some(s')
    requires chain(header.hash) == header && header.number == s.infos[header.parentHash].number + 1
    ensures Inv(cfg, g, chain, s', lo', clo') && lo <= lo'
    ensures s'.best == s.best || (s'.best == header.hash && lo' == Max(lo, header.number - cfg.finalizedGc + 1))
  {
    var s1 := Store(s, header);
    StoreInv(cfg, g, chain, s, lo, clo, header);
    if Overtakes(s1.infos[header.hash].totalDifficulty, header.difficulty, s.infos[s.best].totalDifficulty) {
      var clo1 := ReorganiseShape(cfg, g, chain, s1, lo, clo, header);
      var s2 := Reorganise(s1, header, s.infos[s.best].number);
      lo', clo' := Max(lo, header.number - cfg.finalizedGc + 1), Max(clo1, header.number - cfg.hashesGc + 1);
      CollectInv(cfg, g, chain, s2, s', lo, clo1, lo', clo');
    } else {
      lo', clo' := lo, clo;
    }
  }

  // ----- whole runs -----

  /** The state after the headers `hs` were submitted in order; a rejected header changes nothing. */
  function After(cfg: Config, pow: BlockHeader -> bool, g: BlockHeader, hs: seq<BlockHeader>): Client
    decreases |hs|
  {
    if hs == [] then Initial(g)
    else
      var s := After(cfg, pow, g, hs[..|hs| - 1]);
      match AddBlockHeader(cfg, pow, s, hs[|hs| - 1])
      case None => s
      case Some(s') => s'
  }

  /** Every header the client ever recorded, collected or not. */
  function Recorded(cfg: Config, pow: BlockHeader -> bool, g: BlockHeader, hs: seq<BlockHeader>): set<Hash>
    decreases |hs|
  {
    if hs == [] then {g.hash}
    else
      var header := hs[|hs| - 1];
      Recorded(cfg, pow, g, hs[..|hs| - 1]) +
      if AddBlockHeader(cfg, pow, After(cfg, pow, g, hs[..|hs| - 1]), header).Some? then {header.hash} else {}
  }

  /** No two different headers of the run share a hash. */
  ghost predicate Genuine(chain: Chain, g: BlockHeader, hs: seq<BlockHeader>) {
    chain(g.hash) == g && forall i :: 0 <= i < |hs| ==> chain(hs[i].hash) == hs[i]
  }

  lemma {:induction false} RunInv(cfg: Config, pow: BlockHeader -> bool, g: BlockHeader, chain: Chain, hs: seq<BlockHeader>)
    returns (lo: nat, clo: nat)
    requires Sane(cfg) && Genuine(chain, g, hs)
    ensures Inv(cfg, g, chain, After(cfg, pow, g, hs), lo, clo)
    decreases |hs|
  {
    if hs == [] {
      InitialInv(cfg, g, chain);
      lo, clo := g.number, g.number;
    } else {
      lo, clo := RunInv(cfg, pow, g, chain, hs[..|hs| - 1]);
      var s, header := After(cfg, pow, g, hs[..|hs| - 1]), hs[|hs| - 1];
      var r := AddBlockHeader(cfg, pow, s, header);
      if r.Some? {
        assert HeaderKept(g, chain, s, lo, header.parentHash);
        lo, clo := RecordInv(cfg, g, chain, s, lo, clo, header, r.value);
      }
    }
  }

  /** What every reachable state retains: the three header maps hold the same hashes, nothing `finalizedGc` or more
      below the best header, every header above the lowest level with its parent, the best header, and an index
      that is one interval of at most `hashesGc` numbers ending at the best header. */
  lemma Retention(cfg: Config, pow: BlockHeader -> bool, g: BlockHeader, chain: Chain, hs: seq<BlockHeader>, s: Client)
    returns (lo: nat, clo: nat)
    requires Sane(cfg) && Genuine(chain, g, hs) && s == After(cfg, pow, g, hs)
    ensures s.best in s.infos && s.headers.Keys == s.infos.Keys
    ensures var top := s.infos[s.best].number;
      && (forall h :: h in s.infos <==> exists n :: n in s.all && h in s.all[n])
      && (forall n :: n in s.all ==> lo <= n && top - cfg.finalizedGc < n)
      && (forall h :: h in s.infos && s.infos[h].number > lo ==> s.infos[h].parentHash in s.infos)
      && (forall n :: n in s.canonical <==> clo <= n <= top)
      && top - clo < cfg.hashesGc && top in s.canonical && s.canonical[top] == s.best
  {
    lo, clo := RunInv(cfg, pow, g, chain, hs);
    RetentionInState(cfg, g, chain, s, lo, clo);
  }

  lemma RetentionInState(cfg: Config, g: BlockHeader, chain: Chain, s: Client, lo: nat, clo: nat)
    requires Inv(cfg, g, chain, s, lo, clo)
    ensures var top := s.infos[s.best].number;
      && (forall h :: h in s.infos <==> exists n :: n in s.all && h in s.all[n])
      && (forall n :: n in s.all ==> lo <= n && top - cfg.finalizedGc < n)
      && (forall h :: h in s.infos && s.infos[h].number > lo ==> s.infos[h].parentHash in s.infos)
      && (forall n :: n in s.canonical <==> clo <= n <= top)
  {
    forall h | h in s.infos
      ensures exists n :: n in s.all && h in s.all[n]
      ensures s.infos[h].number > lo ==> s.infos[h].parentHash in s.infos
    {
      assert HeaderKept(g, chain, s, lo, h);
    }
    forall n | n in s.all
      ensures lo <= n && forall h :: h in s.all[n] ==> h in s.infos
    {
      assert LevelKept(s, lo, n);
    }
  }

  lemma SafeHashInState(cfg: Config, g: BlockHeader, chain: Chain, s: Client, lo: nat, clo: nat, i: U64)
    requires Inv(cfg, g, chain, s, lo, clo) && (i in s.all || i + 1 in s.all) && i in s.canonical
    ensures i <= s.infos[s.best].number
    ensures s.canonical[i] == AncestorAt(chain, s.best, s.infos[s.best].number - i)
  {
    assert i in s.all ==> LevelKept(s, lo, i);
    assert i + 1 in s.all ==> LevelKept(s, lo, i + 1);
    IndexIsParentWalk(g, chain, s, lo, clo, i);
  }

  /** In every reachable state: wherever the safe hash is reported for a retained number, or the
      number just below the retained ones, it is the best header's ancestor with enough blocks on top. */
  lemma SafeHashIsAncestor(cfg: Config, pow: BlockHeader -> bool, g: BlockHeader, chain: Chain, hs: seq<BlockHeader>,
                           s: Client, i: U64, h: Hash)
    requires Sane(cfg) && Genuine(chain, g, hs) && s == After(cfg, pow, g, hs)
    requires i in s.all || i + 1 in s.all
    requires BlockHashSafe(cfg, s, i) == Some(Some(h))
    ensures s.best in s.infos && i + cfg.confirmations <= s.infos[s.best].number
    ensures h == AncestorAt(chain, s.best, s.infos[s.best].number - i)
  {
    var lo, clo := RunInv(cfg, pow, g, chain, hs);
    SafeHashInState(cfg, g, chain, s, lo, clo, i);
  }

  /** The difficulties on the path from the initial header to `h`. */
  ghost function TotalOf(g: BlockHeader, chain: Chain, h: Hash): nat {
    if chain(h).number < g.number then 0 else PathDifficulty(chain, h, chain(h).number - g.number)
  }

  /** Every stored total is the sum along the path from the initial header. */
  lemma TotalsAreExact(cfg: Config, pow: BlockHeader -> bool, g: BlockHeader, chain: Chain, hs: seq<BlockHeader>,
                       s: Client, h: Hash)
    requires Sane(cfg) && Genuine(chain, g, hs) && s == After(cfg, pow, g, hs) && h in s.infos
    ensures s.infos[h].totalDifficulty == TotalOf(g, chain, h)
    ensures g.number <= s.infos[h].number
    ensures AncestorAt(chain, h, s.infos[h].number - g.number) == g.hash
  {
    var lo, clo := RunInv(cfg, pow, g, chain, hs);
    TotalInState(cfg, g, chain, s, lo, clo, h);
  }

  lemma TotalInState(cfg: Config, g: BlockHeader, chain: Chain, s: Client, lo: nat, clo: nat, h: Hash)
    requires Inv(cfg, g, chain, s, lo, clo) && h in s.infos
    ensures s.infos[h].totalDifficulty == TotalOf(g, chain, h)
    ensures g.number <= s.infos[h].number
    ensures AncestorAt(chain, h, s.infos[h].number - g.number) == g.hash
  {
    assert HeaderKept(g, chain, s, lo, h);
  }

  /** The best header outweighs every header ever recorded, collected ones included. */
  lemma {:induction false} BestIsHeaviest(cfg: Config, pow: BlockHeader -> bool, g: BlockHeader, chain: Chain, hs: seq<BlockHeader>)
    requires Sane(cfg) && Genuine(chain, g, hs)
    ensures var best := After(cfg, pow, g, hs).best;
            && best in Recorded(cfg, pow, g, hs)
            && forall h :: h in Recorded(cfg, pow, g, hs) ==> TotalOf(g, chain, h) <= TotalOf(g, chain, best)
    decreases |hs|
  {
    if hs != [] {
      BestIsHeaviest(cfg, pow, g, chain, hs[..|hs| - 1]);
      StepOutweighs(cfg, pow, g, chain, hs);
    }
  }

  /** One submission never lowers the best total, and the submitted header does not exceed it. */
  lemma StepOutweighs(cfg: Config, pow: BlockHeader -> bool, g: BlockHeader, chain: Chain, hs: seq<BlockHeader>)
    requires Sane(cfg) && Genuine(chain, g, hs) && hs != []
    ensures var s, header := After(cfg, pow, g, hs[..|hs| - 1]), hs[|hs| - 1];
            var best := After(cfg, pow, g, hs).best;
            && TotalOf(g, chain, s.best) <= TotalOf(g, chain, best)
            && (best == s.best || best == header.hash)
            && (AddBlockHeader(cfg, pow, s, header).Some? ==> TotalOf(g, chain, header.hash) <= TotalOf(g, chain, best))
            && (AddBlockHeader(cfg, pow, s, header).None? ==> best == s.best)
  {
    var s, header := After(cfg, pow, g, hs[..|hs| - 1]), hs[|hs| - 1];
    if AddBlockHeader(cfg, pow, s, header).Some? {
      var lo, clo := RunInv(cfg, pow, g, chain, hs[..|hs| - 1]);
      RecordOutweighs(cfg, g, chain, s, lo, clo, header, After(cfg, pow, g, hs));
    }
  }

  lemma RecordOutweighs(cfg: Config, g: BlockHeader, chain: Chain, s: Client, lo: nat, clo: nat, header: BlockHeader, s': Client)
    requires Sane(cfg) && Inv(cfg, g, chain, s, lo, clo) && Record(cfg, s, header) == Some(s')
    requires chain(header.hash) == header && header.parentHash in s.headers
    requires header.number == s.headers[header.parentHash].number + 1
    ensures TotalOf(g, chain, s.best) <= TotalOf(g, chain, s'.best)
    ensures TotalOf(g, chain, header.hash) <= TotalOf(g, chain, s'.best)
    ensures s'.best == s.best || s'.best == header.hash
  {
    assert HeaderKept(g, chain, s, lo, header.parentHash);
    TotalInState(cfg, g, chain, s, lo, clo, s.best);
    StoreInv(cfg, g, chain, s, lo, clo, header);
    TotalInState(cfg, g, chain, Store(s, header), lo, clo, header.hash);
    BestAfterRecord(cfg, s, header);
  }

  lemma BestAfterRecord(cfg: Config, s: Client, header: BlockHeader)
    requires Record(cfg, s, header).Some?
    ensures var total := s.infos[header.parentHash].totalDifficulty + header.difficulty;
            Record(cfg, s, header).value.best ==
              if Overtakes(total, header.difficulty, s.infos[s.best].totalDifficulty) then header.hash else s.best
  {
    if header.number > 0 {
      CollectBest(cfg, Reorganise(Store(s, header), header, s.infos[s.best].number), header.number);
    }
  }

  lemma CollectBest(cfg: Config, s: Client, number: nat)
    ensures Collect(cfg, s, number).best == s.best
  {
    var s1 := if number >= cfg.hashesGc then s.(canonical := TrimCanonical(s.canonical, number - cfg.hashesGc)) else s;
    if number >= cfg.finalizedGc {
      TrimBest(s1, number - cfg.finalizedGc);
    }
  }

  lemma {:induction false} TrimBest(s: Client, number: nat)
    ensures TrimHeaders(s, number).best == s.best
    decreases number
  {
    if number in s.all && number > 0 {
      TrimBest(DropLevel(s, number), number - 1);
    }
  }

  // ----- stale entries -----

  /** Every entry of the index is the parent of the entry above it. */
  ghost predicate FullyLinked(chain: Chain, c: map<nat, Hash>) {
    forall n {:trigger c[n + 1]} :: n in c && n + 1 in c ==> chain(c[n + 1]).parentHash == c[n]
  }

  /** The links among the old entries that a switch to `number` neither rewrites nor collects are right. */
  ghost predicate OldLinks(cfg: Config, chain: Chain, c: map<nat, Hash>, lo: nat, number: nat) {
    forall n {:trigger c[n + 1]} :: number - cfg.hashesGc < n && n + 2 < lo && n in c && n + 1 in c ==>
      chain(c[n + 1]).parentHash == c[n]
  }

  /** The walk for `header` meets what it leaves: its ancestor at `lo - 2` is the entry already there, or there is
      none, or the entry is about to be collected. */
  ghost predicate Meets(cfg: Config, chain: Chain, c: map<nat, Hash>, lo: nat, header: BlockHeader) {
    || lo < 2 || lo - 2 !in c || lo - 2 + cfg.hashesGc <= header.number
    || (lo < header.number && AncestorAt(chain, header.hash, header.number - (lo - 2)) == c[lo - 2])
  }

  /** Below the retained headers the walk stops without converging, so entries more than one
      below `lo` can be left over from the old chain. After a switch to `header`, from any state, the
      index is fully linked exactly when the old links that stay are right and the walk meets them. */
  lemma StaleExactly(cfg: Config, g: BlockHeader, chain: Chain, s: Client, lo: nat, clo: nat, header: BlockHeader, s': Client)
    requires Sane(cfg) && Inv(cfg, g, chain, s, lo, clo) && Record(cfg, s, header) == Some(s')
    requires chain(header.hash) == header && header.number == s.infos[header.parentHash].number + 1
    requires Overtakes(s.infos[header.parentHash].totalDifficulty + header.difficulty, header.difficulty,
                       s.infos[s.best].totalDifficulty)
    ensures lo < header.number
    ensures FullyLinked(chain, s'.canonical) <==>
            OldLinks(cfg, chain, s.canonical, lo, header.number) && Meets(cfg, chain, s.canonical, lo, header)
  {
    var s2, clo1 := Switched(cfg, g, chain, s, lo, clo, header, s');
    var clo' := Max(clo1, header.number - cfg.hashesGc + 1);
    CollectCuts(cfg, g, chain, s2, Collect(cfg, s2, header.number), lo, clo1, clo');
    StaleShape(cfg, g, chain, s.canonical, s2, s'.canonical, lo, clo1, header);
  }

  /** The state after the reorganisation and before the collection. */
  lemma Switched(cfg: Config, g: BlockHeader, chain: Chain, s: Client, lo: nat, clo: nat, header: BlockHeader, s': Client)
    returns (s2: Client, clo1: nat)
    requires Sane(cfg) && Inv(cfg, g, chain, s, lo, clo) && Record(cfg, s, header) == Some(s')
    requires chain(header.hash) == header && header.number == s.infos[header.parentHash].number + 1
    requires Overtakes(s.infos[header.parentHash].totalDifficulty + header.difficulty, header.difficulty,
                       s.infos[s.best].totalDifficulty)
    ensures TreeKept(g, chain, s2, lo) && IndexShape(g, chain, s2, lo, clo1) && lo < header.number
    ensures Untouched(s.canonical, s2.canonical, lo)
    ensures s2.best == header.hash && s2.infos[s2.best].number == header.number
    ensures s' == Collect(cfg, s2, header.number)
  {
    var s1 := Store(s, header);
    StoreInv(cfg, g, chain, s, lo, clo, header);
    clo1 := ReorganiseShape(cfg, g, chain, s1, lo, clo, header);
    s2 := Reorganise(s1, header, s.infos[s.best].number);
  }

  lemma StaleShape(cfg: Config, g: BlockHeader, chain: Chain, c0: map<nat, Hash>, s: Client, c: map<nat, Hash>, lo: nat, clo: nat,
                   header: BlockHeader)
    requires TreeKept(g, chain, s, lo) && IndexShape(g, chain, s, lo, clo) && Untouched(c0, s.canonical, lo)
    requires s.best == header.hash && s.infos[s.best].number == header.number && lo < header.number
    requires IsAtLeast(s.canonical, c, Max(clo, header.number - cfg.hashesGc + 1))
    requires Max(clo, header.number - cfg.hashesGc + 1) <= header.number
    ensures FullyLinked(chain, c) <==> OldLinks(cfg, chain, c0, lo, header.number) && Meets(cfg, chain, c0, lo, header)
  {
    if 2 <= lo && lo - 2 in s.canonical {
      StaleLink(g, chain, s, lo, clo);
    }
    if OldLinks(cfg, chain, c0, lo, header.number) && Meets(cfg, chain, c0, lo, header) {
      forall n {:trigger c[n + 1]} | n in c && n + 1 in c ensures chain(c[n + 1]).parentHash == c[n] {
        if lo <= n + 1 {
          FreshLink(g, chain, s, lo, clo, n);
        } else if n + 2 < lo {
          assert c0[n + 1] == c[n + 1];
        }
      }
    }
    if FullyLinked(chain, c) {
      StaleConverse(cfg, chain, c0, s.canonical, c, lo, clo, header);
    }
  }

  lemma StaleConverse(cfg: Config, chain: Chain, c0: map<nat, Hash>, c1: map<nat, Hash>, c: map<nat, Hash>, lo: nat, clo: nat,
                      header: BlockHeader)
    requires FullyLinked(chain, c) && Untouched(c0, c1, lo) && lo < header.number
    requires forall n :: n in c1 ==> clo <= n
    requires IsAtLeast(c1, c, Max(clo, header.number - cfg.hashesGc + 1))
    requires 2 <= lo && lo - 2 in c1 ==>
      lo - 1 in c1 && chain(c1[lo - 1]).parentHash == AncestorAt(chain, header.hash, header.number - (lo - 2))
    ensures OldLinks(cfg, chain, c0, lo, header.number) && Meets(cfg, chain, c0, lo, header)
  {
    forall n {:trigger c0[n + 1]} | header.number - cfg.hashesGc < n && n + 2 < lo && n in c0 && n + 1 in c0
      ensures chain(c0[n + 1]).parentHash == c0[n]
    {
      assert c[n + 1] == c0[n + 1] && c[n] == c0[n];
    }
    if 2 <= lo && lo - 2 in c0 && header.number < lo - 2 + cfg.hashesGc {
      var k := lo - 2;
      assert c[k + 1] == c1[k + 1] && c[k] == c0[k];
    }
  }

  /** The link between the two entries just below the retained headers. */
  lemma StaleLink(g: BlockHeader, chain: Chain, s: Client, lo: nat, clo: nat)
    requires TreeKept(g, chain, s, lo) && IndexShape(g, chain, s, lo, clo) && 2 <= lo && lo - 2 in s.canonical
    ensures lo - 1 in s.canonical
    ensures chain(s.canonical[lo - 1]).parentHash == AncestorAt(chain, s.best, s.infos[s.best].number - (lo - 2))
  {
    IndexIsParentWalk(g, chain, s, lo, clo, lo - 1);
    AncestorStep(chain, s.best, s.infos[s.best].number - lo + 1);
  }

  /** The links to retained infos are right. */
  lemma FreshLink(g: BlockHeader, chain: Chain, s: Client, lo: nat, clo: nat, n: nat)
    requires TreeKept(g, chain, s, lo) && IndexShape(g, chain, s, lo, clo)
    requires n in s.canonical && n + 1 in s.canonical && lo <= n + 1
    ensures chain(s.canonical[n + 1]).parentHash == s.canonical[n]
  {
    assert LinkAt(s.canonical, s.infos, n + 1);
    assert HeaderKept(g, chain, s, lo, s.canonical[n + 1]);
  }

  // ----- stale entries over whole runs -----

  /** The lowest retained number. */
  ghost predicate Lowest(s: Client, lo: nat) {
    lo in s.all && forall n :: n in s.all ==> lo <= n
  }

  predicate Switches(s: Client, header: BlockHeader) {
    && header.parentHash in s.infos && s.best in s.infos
    && Overtakes(s.infos[header.parentHash].totalDifficulty + header.difficulty, header.difficulty,
                 s.infos[s.best].totalDifficulty)
  }

  /** A submission that is rejected, does not overtake, or meets the entries it leaves. */
  ghost predicate SmoothStep(cfg: Config, pow: BlockHeader -> bool, chain: Chain, s: Client, header: BlockHeader) {
    AddBlockHeader(cfg, pow, s, header).Some? && Switches(s, header) ==>
      forall lo: nat :: Lowest(s, lo) ==> Meets(cfg, chain, s.canonical, lo, header)
  }

  ghost predicate Smooth(cfg: Config, pow: BlockHeader -> bool, g: BlockHeader, chain: Chain, hs: seq<BlockHeader>)
    decreases |hs|
  {
    hs != [] ==>
      && Smooth(cfg, pow, g, chain, hs[..|hs| - 1])
      && SmoothStep(cfg, pow, chain, After(cfg, pow, g, hs[..|hs| - 1]), hs[|hs| - 1])
  }

  /** The index was fully linked after every submission. */
  ghost predicate AlwaysLinked(cfg: Config, pow: BlockHeader -> bool, g: BlockHeader, chain: Chain, hs: seq<BlockHeader>)
    decreases |hs|
  {
    && FullyLinked(chain, After(cfg, pow, g, hs).canonical)
    && (hs != [] ==> AlwaysLinked(cfg, pow, g, chain, hs[..|hs| - 1]))
  }

  lemma LowestIs(cfg: Config, g: BlockHeader, chain: Chain, s: Client, lo: nat, clo: nat)
    requires Inv(cfg, g, chain, s, lo, clo)
    ensures Lowest(s, lo) && forall n: nat :: Lowest(s, n) ==> n == lo
  {
    assert HeaderKept(g, chain, s, lo, s.best);
    LevelsContiguous(g, chain, s, lo, lo, s.infos[s.best].number);
    forall n | n in s.all ensures lo <= n {
      assert LevelKept(s, lo, n);
    }
  }

  lemma LinkedHasOldLinks(cfg: Config, chain: Chain, c: map<nat, Hash>, lo: nat, number: nat)
    requires FullyLinked(chain, c)
    ensures OldLinks(cfg, chain, c, lo, number)
  {
  }

  lemma SmoothStepExactly(cfg: Config, pow: BlockHeader -> bool, g: BlockHeader, chain: Chain, s: Client, lo: nat, clo: nat,
                          header: BlockHeader, s': Client)
    requires Sane(cfg) && Inv(cfg, g, chain, s, lo, clo) && chain(header.hash) == header
    requires AddBlockHeader(cfg, pow, s, header) == Some(s') && FullyLinked(chain, s.canonical)
    ensures FullyLinked(chain, s'.canonical) <==> SmoothStep(cfg, pow, chain, s, header)
  {
    assert HeaderKept(g, chain, s, lo, header.parentHash);
    LowestIs(cfg, g, chain, s, lo, clo);
    if Switches(s, header) {
      StaleExactly(cfg, g, chain, s, lo, clo, header, s');
      LinkedHasOldLinks(cfg, chain, s.canonical, lo, header.number);
    } else {
      IndexStays(cfg, s, header, s');
    }
  }

  lemma IndexStays(cfg: Config, s: Client, header: BlockHeader, s': Client)
    requires Record(cfg, s, header) == Some(s') && !Switches(s, header)
    ensures s'.canonical == s.canonical
  {
  }

  /** A run keeps the index fully linked throughout exactly when each of its switches meets the entries it leaves. */
  lemma {:induction false} SmoothExactly(cfg: Config, pow: BlockHeader -> bool, g: BlockHeader, chain: Chain, hs: seq<BlockHeader>)
    requires Sane(cfg) && Genuine(chain, g, hs)
    ensures Smooth(cfg, pow, g, chain, hs) <==> AlwaysLinked(cfg, pow, g, chain, hs)
    decreases |hs|
  {
    if hs != [] {
      var init, header := hs[..|hs| - 1], hs[|hs| - 1];
      SmoothExactly(cfg, pow, g, chain, init);
      var lo, clo := RunInv(cfg, pow, g, chain, init);
      var s := After(cfg, pow, g, init);
      var r := AddBlockHeader(cfg, pow, s, header);
      if r.Some? && AlwaysLinked(cfg, pow, g, chain, init) {
        AlwaysNow(cfg, pow, g, chain, init);
        SmoothStepExactly(cfg, pow, g, chain, s, lo, clo, header, r.value);
      }
    }
  }

  lemma AlwaysNow(cfg: Config, pow: BlockHeader -> bool, g: BlockHeader, chain: Chain, hs: seq<BlockHeader>)
    requires AlwaysLinked(cfg, pow, g, chain, hs)
    ensures FullyLinked(chain, After(cfg, pow, g, hs).canonical)
  {
  }
}
