/** Invariants of the Ethereum light client over every run of accepted headers. */
module EthClientProofs {
  import opened Prelude
  import opened EthClientSpec

  /** The assumption that a hash determines its header: every header handed to the
      client is the one `chain` gives for its hash. */
  type Chain = Hash -> BlockHeader

  /** The `k`-th ancestor of `h`, and the difficulties summed on the way there. */
  ghost function AncestorAt(chain: Chain, h: Hash, k: nat): Hash
    decreases k
  {
    if k == 0 then h else AncestorAt(chain, chain(h).parentHash, k - 1)
  }

  ghost function PathDifficulty(chain: Chain, h: Hash, k: nat): nat
    decreases k
  {
    if k == 0 then 0 else chain(h).difficulty + PathDifficulty(chain, chain(h).parentHash, k - 1)
  }

  /** What every retained header satisfies; `g` is the initial header and `lo` the lowest retained number. */
  ghost predicate HeaderKept(g: BlockHeader, chain: Chain, s: Client, lo: nat, h: Hash)
    requires h in s.infos
  {
    var info := s.infos[h];
    && h in s.headers && s.headers[h] == chain(h) && chain(h).hash == h
    && info.number == chain(h).number && g.number <= lo <= info.number
    && info.number in s.all && h in s.all[info.number]
    && AncestorAt(chain, h, info.number - g.number) == g.hash
    && info.totalDifficulty == PathDifficulty(chain, h, info.number - g.number)
    && (h == g.hash ==> info.number == g.number)
    && (h != g.hash ==> info.parentHash == chain(h).parentHash && chain(info.parentHash).number == info.number - 1)
    && (info.number > lo ==> h != g.hash && info.parentHash in s.infos
                             && s.infos[info.parentHash].number == info.number - 1)
  }

  /** One level of `all_header_hashes`. */
  ghost predicate LevelKept(s: Client, lo: nat, n: nat)
    requires n in s.all
  {
    && lo <= n && s.all[n] != []
    && (n > lo ==> n - 1 in s.all)
    && (forall h :: h in s.all[n] ==> h in s.infos && s.infos[h].number == n)
    && (forall i, j :: 0 <= i < j < |s.all[n]| ==> s.all[n][i] != s.all[n][j])
  }

  /** The header tree: the three header maps hold the same hashes, level by level from `lo` up. */
  ghost predicate TreeKept(g: BlockHeader, chain: Chain, s: Client, lo: nat) {
    && chain(g.hash) == g
    && g.number <= lo && lo in s.all
    && (lo == g.number ==> s.all[lo] == [g.hash])
    && s.best in s.infos
    && s.headers.Keys == s.infos.Keys
    && (forall h {:trigger HeaderKept(g, chain, s, lo, h)} :: h in s.infos ==> HeaderKept(g, chain, s, lo, h))
    && (forall n {:trigger LevelKept(s, lo, n)} :: n in s.all ==> LevelKept(s, lo, n))
  }

  ghost predicate LinkAt(c: map<nat, Hash>, infos: map<Hash, HeaderInfo>, n: nat) {
    n in c && c[n] in infos ==> n > 0 && n - 1 in c && c[n - 1] == infos[c[n]].parentHash
  }

  /** Up to `top`, wherever the info of a canonical header is retained, the entry below it
      (if present) is its parent. */
  ghost predicate Linked(chain: Chain, c: map<nat, Hash>, infos: map<Hash, HeaderInfo>, lo: nat, clo: nat, top: int) {
    && (forall n :: clo <= n <= top ==> n in c)
    && (forall n :: n in c && n <= top ==> clo <= n && chain(c[n]).number == n)
    && (forall n :: lo <= n <= top ==> n in c && c[n] in infos && infos[c[n]].number == n)
    && (forall n {:trigger LinkAt(c, infos, n)} :: clo < n <= top ==> LinkAt(c, infos, n))
  }

  /** `Linked` depends only on the entries up to `top` and on their infos. */
  lemma LinkedFrame(chain: Chain, c: map<nat, Hash>, infos: map<Hash, HeaderInfo>,
                    c': map<nat, Hash>, infos': map<Hash, HeaderInfo>, lo: nat, clo: nat, top: int)
    requires Linked(chain, c, infos, lo, clo, top)
    requires forall n: nat :: n <= top ==> (n in c <==> n in c') && (n in c ==> c[n] == c'[n])
    requires forall n: nat :: n <= top && n in c ==> (c[n] in infos <==> c[n] in infos') && (c[n] in infos ==> infos[c[n]] == infos'[c[n]])
    ensures Linked(chain, c', infos', lo, clo, top)
  {
    forall n: nat | clo < n <= top ensures LinkAt(c', infos', n) {
      assert LinkAt(c, infos, n);
    }
  }

  /** The canonical index covers one interval that ends at the best header. */
  ghost predicate IndexKept(cfg: Config, g: BlockHeader, chain: Chain, s: Client, lo: nat, clo: nat)
    requires s.best in s.infos
  {
    var top := s.infos[s.best].number;
    && g.number <= clo <= lo <= top
    && (forall n :: n in s.canonical ==> n <= top)
    && Linked(chain, s.canonical, s.infos, lo, clo, top)
    && s.canonical[top] == s.best
    && top - clo < cfg.hashesGc
    && top - cfg.finalizedGc < lo
  }

  ghost predicate Inv(cfg: Config, g: BlockHeader, chain: Chain, s: Client, lo: nat, clo: nat) {
    TreeKept(g, chain, s, lo) && IndexKept(cfg, g, chain, s, lo, clo)
  }

  /** The thresholds the contract is deployed with. */
  predicate Sane(cfg: Config) {
    1 <= cfg.finalizedGc <= cfg.hashesGc
  }

  lemma InitialInv(cfg: Config, g: BlockHeader, chain: Chain)
    requires Sane(cfg) && chain(g.hash) == g
    ensures Inv(cfg, g, chain, Initial(g), g.number, g.number)
  {
    assert Initial(g).all[g.number] == [g.hash];
  }

  // ----- storing a header -----

  lemma FreshHeader(g: BlockHeader, chain: Chain, s: Client, lo: nat, header: BlockHeader)
    requires TreeKept(g, chain, s, lo) && header.parentHash in s.infos
    requires header.hash !in KnownHashes(s, header.number)
    requires chain(header.hash) == header && header.number == s.infos[header.parentHash].number + 1
    ensures header.hash !in s.infos && header.hash != g.hash
    ensures lo < header.number && header.number - 1 in s.all
  {
    assert header.hash in s.infos ==> HeaderKept(g, chain, s, lo, header.hash);
    assert HeaderKept(g, chain, s, lo, header.parentHash);
  }

  lemma StoreLevel(g: BlockHeader, chain: Chain, s: Client, lo: nat, header: BlockHeader, m: nat)
    requires TreeKept(g, chain, s, lo) && header.parentHash in s.infos
    requires s.infos[header.parentHash].totalDifficulty + header.difficulty <= MAX_U256
    requires header.hash !in s.infos && lo < header.number && header.number - 1 in s.all
    requires header.hash !in KnownHashes(s, header.number)
    requires m in Store(s, header).all
    ensures LevelKept(Store(s, header), lo, m)
  {
    assert m in s.all ==> LevelKept(s, lo, m);
  }

  lemma StoreHeader(g: BlockHeader, chain: Chain, s: Client, lo: nat, header: BlockHeader, h: Hash)
    requires TreeKept(g, chain, s, lo) && header.parentHash in s.infos
    requires s.infos[header.parentHash].totalDifficulty + header.difficulty <= MAX_U256
    requires header.hash !in s.infos && header.hash != g.hash
    requires chain(header.hash) == header && header.number == s.infos[header.parentHash].number + 1
    requires h in Store(s, header).infos
    ensures HeaderKept(g, chain, Store(s, header), lo, h)
  {
    if h == header.hash {
      assert HeaderKept(g, chain, s, lo, header.parentHash);
    } else {
      assert HeaderKept(g, chain, s, lo, h);
    }
  }

  lemma StoreTree(g: BlockHeader, chain: Chain, s: Client, lo: nat, header: BlockHeader)
    requires TreeKept(g, chain, s, lo) && header.parentHash in s.infos
    requires s.infos[header.parentHash].totalDifficulty + header.difficulty <= MAX_U256
    requires header.hash !in KnownHashes(s, header.number)
    requires chain(header.hash) == header && header.number == s.infos[header.parentHash].number + 1
    ensures header.hash !in s.infos && lo < header.number
    ensures TreeKept(g, chain, Store(s, header), lo)
  {
    var s' := Store(s, header);
    FreshHeader(g, chain, s, lo, header);
    forall h {:trigger HeaderKept(g, chain, s', lo, h)} | h in s'.infos ensures HeaderKept(g, chain, s', lo, h) {
      StoreHeader(g, chain, s, lo, header, h);
    }
    forall m {:trigger LevelKept(s', lo, m)} | m in s'.all ensures LevelKept(s', lo, m) {
      StoreLevel(g, chain, s, lo, header, m);
    }
  }

  lemma StoreInv(cfg: Config, g: BlockHeader, chain: Chain, s: Client, lo: nat, clo: nat, header: BlockHeader)
    requires Inv(cfg, g, chain, s, lo, clo) && Recordable(cfg, s, header)
    requires chain(header.hash) == header && header.number == s.infos[header.parentHash].number + 1
    ensures header.hash !in s.infos && lo < header.number
    ensures Inv(cfg, g, chain, Store(s, header), lo, clo)
  {
    StoreTree(g, chain, s, lo, header);
    LinkedFrame(chain, s.canonical, s.infos, s.canonical, Store(s, header).infos, lo, clo, s.infos[s.best].number);
  }

  // ----- the reorganisation walk -----

  /** The walk stands at `number` and is about to write `current` there; `m` is the highest
      entry at or below `number`. */
  ghost predicate WalkReady(g: BlockHeader, chain: Chain, s: Client, c: map<nat, Hash>,
                            number: nat, current: Hash, lo: nat, clo: nat, m: int) {
    && TreeKept(g, chain, s, lo)
    && g.number <= clo <= lo <= number + 1
    && (if number >= lo then lo <= m <= number && current in s.infos && s.infos[current].number == number
        else m == number && current !in s.infos && g.number < lo)
    && chain(current).number == number
    && Linked(chain, c, s.infos, lo, clo, m)
    && forall n :: n in c && n <= number ==> n <= m
  }

  /** `r` is linked up to `number`, and is `c` above `number` and more than one below `lo`. */
  ghost predicate Walked(g: BlockHeader, chain: Chain, infos: map<Hash, HeaderInfo>, c: map<nat, Hash>, r: map<nat, Hash>,
                         number: nat, current: Hash, lo: nat, clo: nat) {
    && g.number <= clo
    && Linked(chain, r, infos, lo, clo, number)
    && number in r && r[number] == current
    && (forall n: nat :: n > number || n + 1 < lo ==> (n in r <==> n in c) && (n in c ==> r[n] == c[n]))
  }

  lemma WalkAdvance(g: BlockHeader, chain: Chain, s: Client, c: map<nat, Hash>,
                    number: nat, current: Hash, lo: nat, clo: nat, m: int)
    requires WalkReady(g, chain, s, c, number, current, lo, clo, m)
    requires current in s.infos && !(number in c && c[number] == current)
    ensures number > 0
    ensures WalkReady(g, chain, s, c[number := current], number - 1, s.infos[current].parentHash, lo, clo, Min(m, number - 1))
  {
    assert HeaderKept(g, chain, s, lo, current);
    var parent := s.infos[current].parentHash;
    if number == lo {
      assert HeaderKept(g, chain, s, lo, c[lo]);
      assert LevelKept(s, lo, lo);
      assert parent in s.infos ==> HeaderKept(g, chain, s, lo, parent);
    }
    LinkedFrame(chain, c, s.infos, c[number := current], s.infos, lo, clo, Min(m, number - 1));
  }

  /** Writing one entry on top of a walk that ended linked. */
  lemma WalkedStep(g: BlockHeader, chain: Chain, s: Client, c: map<nat, Hash>, r: map<nat, Hash>,
                   number: nat, current: Hash, lo: nat, clo: nat)
    requires number > 0 && current in s.infos && s.infos[current].number == number && chain(current).number == number
    requires lo <= number
    requires Walked(g, chain, s.infos, c[number := current], r, number - 1, s.infos[current].parentHash, lo, clo)
    ensures Walked(g, chain, s.infos, c, r, number, current, lo, clo)
  {
    forall n: nat | clo < n <= number ensures LinkAt(r, s.infos, n) {
      assert n < number ==> LinkAt(r, s.infos, n);
    }
  }

  /** The early-stopping walk links the whole index up to `number`. */
  lemma {:induction false} WalkLinks(g: BlockHeader, chain: Chain, s: Client, c: map<nat, Hash>,
                                     number: nat, current: Hash, lo: nat, clo: nat, m: int) returns (clo': nat)
    requires WalkReady(g, chain, s, c, number, current, lo, clo, m)
    ensures clo' <= clo && Walked(g, chain, s.infos, c, Walk(c, s.infos, number, current), number, current, lo, clo')
    decreases number
  {
    var w := c[number := current];
    if number in c && c[number] == current {
      clo' := clo;
      assert w == c;
    } else if current !in s.infos {
      clo' := Min(clo, number);
      LinkedFrame(chain, c, s.infos, w, s.infos, lo, clo, number - 1);
    } else {
      WalkAdvance(g, chain, s, c, number, current, lo, clo, m);
      clo' := WalkLinks(g, chain, s, w, number - 1, s.infos[current].parentHash, lo, clo, Min(m, number - 1));
      WalkedStep(g, chain, s, c, Walk(w, s.infos, number - 1, s.infos[current].parentHash), number, current, lo, clo');
    }
  }

  /** The index as `IndexKept` describes it, before garbage collection restores the bounds. */
  ghost predicate IndexShape(g: BlockHeader, chain: Chain, s: Client, lo: nat, clo: nat)
    requires s.best in s.infos
  {
    var top := s.infos[s.best].number;
    && g.number <= clo <= lo <= top
    && (forall n :: n in s.canonical ==> n <= top)
    && Linked(chain, s.canonical, s.infos, lo, clo, top)
    && s.canonical[top] == s.best
  }

  /** The entries more than one below `lo` are the same. */
  ghost predicate Untouched(c0: map<nat, Hash>, c: map<nat, Hash>, lo: nat) {
    forall k: nat :: k + 1 < lo ==> (k in c <==> k in c0) && (k in c0 ==> c[k] == c0[k])
  }

  /** The index handed to the walk. */
  function Cleared(s: Client, header: BlockHeader): map<nat, Hash>
    requires s.best in s.infos
  {
    Clear(s.canonical, header.number, s.infos[s.best].number)[header.number := header.hash]
  }

  lemma WalkStart(cfg: Config, g: BlockHeader, chain: Chain, s: Client, lo: nat, clo: nat, header: BlockHeader)
    requires Inv(cfg, g, chain, s, lo, clo) && header.hash in s.infos && lo < header.number
    requires chain(header.hash) == header && s.infos[header.hash].parentHash == header.parentHash
    ensures WalkReady(g, chain, s, Cleared(s, header), header.number - 1, header.parentHash, lo, clo,
                      Min(header.number - 1, s.infos[s.best].number))
  {
    var n, top := header.number, s.infos[s.best].number;
    var c, m := Cleared(s, header), Min(n - 1, top);
    assert HeaderKept(g, chain, s, lo, header.hash);
    assert HeaderKept(g, chain, s, lo, header.parentHash);
    forall k: nat | clo < k <= m ensures LinkAt(c, s.infos, k) {
      assert LinkAt(s.canonical, s.infos, k);
    }
  }

  lemma ReorganiseShape(cfg: Config, g: BlockHeader, chain: Chain, s: Client, lo: nat, clo: nat, header: BlockHeader)
    returns (clo': nat)
    requires Inv(cfg, g, chain, s, lo, clo) && header.hash in s.infos && lo < header.number
    requires chain(header.hash) == header && s.infos[header.hash].parentHash == header.parentHash
    ensures var s' := Reorganise(s, header, s.infos[s.best].number);
            && TreeKept(g, chain, s', lo)
            && clo' <= clo && IndexShape(g, chain, s', lo, clo')
            && Untouched(s.canonical, s'.canonical, lo)
  {
    var n, c := header.number, Cleared(s, header);
    var s' := Reorganise(s, header, s.infos[s.best].number);
    WalkStart(cfg, g, chain, s, lo, clo, header);
    clo' := WalkLinks(g, chain, s, c, n - 1, header.parentHash, lo, clo, Min(n - 1, s.infos[s.best].number));
    assert HeaderKept(g, chain, s, lo, header.hash);
    WalkTop(chain, s.infos, s'.canonical, lo, clo', header);
    TreeBest(g, chain, s, s', lo);
  }

  lemma WalkTop(chain: Chain, infos: map<Hash, HeaderInfo>, c: map<nat, Hash>, lo: nat, clo: nat, header: BlockHeader)
    requires lo < header.number && Linked(chain, c, infos, lo, clo, header.number - 1)
    requires header.number in c && c[header.number] == header.hash && c[header.number - 1] == header.parentHash
    requires header.hash in infos && chain(header.hash) == header && clo <= header.number
    requires infos[header.hash].number == header.number && infos[header.hash].parentHash == header.parentHash
    ensures Linked(chain, c, infos, lo, clo, header.number)
  {
    forall k: nat | clo < k <= header.number ensures LinkAt(c, infos, k) {
      assert k < header.number ==> LinkAt(c, infos, k);
    }
  }

  lemma TreeBest(g: BlockHeader, chain: Chain, s: Client, s': Client, lo: nat)
    requires TreeKept(g, chain, s, lo) && s'.best in s.infos
    requires s'.all == s.all && s'.headers == s.headers && s'.infos == s.infos
    ensures TreeKept(g, chain, s', lo)
  {
    forall h {:trigger HeaderKept(g, chain, s', lo, h)} | h in s'.infos ensures HeaderKept(g, chain, s', lo, h) {
      assert HeaderKept(g, chain, s, lo, h);
    }
    forall n {:trigger LevelKept(s', lo, n)} | n in s'.all ensures LevelKept(s', lo, n) {
      assert LevelKept(s, lo, n);
    }
  }

  // ----- garbage collection -----

  lemma {:induction false} TrimCanonicalIs(c: map<nat, Hash>, number: nat, clo: nat)
    requires forall n :: n in c ==> clo <= n
    requires forall n :: clo <= n <= number ==> n in c
    ensures TrimCanonical(c, number) == map n | n in c && n > number :: c[n]
    decreases number
  {
    if number in c && number > 0 {
      TrimCanonicalIs(c - {number}, number - 1, clo);
    }
  }

  ghost predicate Levelled(s: Client) {
    && s.headers.Keys == s.infos.Keys
    && (forall h :: h in s.infos ==> s.infos[h].number in s.all && h in s.all[s.infos[h].number])
    && (forall n, h :: n in s.all && h in s.all[n] ==> h in s.infos && s.infos[h].number == n)
  }

  /** `s'` holds exactly the headers of `s` above `number`. */
  ghost predicate IsAbove(s: Client, s': Client, number: int) {
    && s'.best == s.best && s'.canonical == s.canonical
    && (forall n :: n in s'.all <==> n in s.all && n > number)
    && (forall n :: n in s'.all ==> s'.all[n] == s.all[n])
    && (forall h :: h in s'.infos <==> h in s.infos && s.infos[h].number > number)
    && (forall h :: h in s'.infos ==> s'.infos[h] == s.infos[h])
    && s'.headers.Keys == s'.infos.Keys
    && (forall h :: h in s'.headers ==> h in s.headers && s'.headers[h] == s.headers[h])
  }

  /** `d` is `s` without the headers of one level. */
  ghost predicate IsWithout(s: Client, d: Client, number: nat) {
    && d.best == s.best && d.canonical == s.canonical
    && (forall n :: n in d.all <==> n in s.all && n != number)
    && (forall n :: n in d.all ==> d.all[n] == s.all[n])
    && (forall h :: h in d.infos <==> h in s.infos && s.infos[h].number != number)
    && (forall h :: h in d.infos ==> d.infos[h] == s.infos[h])
    && (forall h :: h in d.headers ==> h in s.headers && d.headers[h] == s.headers[h])
  }

  lemma DropIsWithout(s: Client, number: nat)
    requires Levelled(s) && number in s.all
    ensures IsWithout(s, DropLevel(s, number), number)
    ensures DropLevel(s, number).headers.Keys == DropLevel(s, number).infos.Keys
  {
    var d := DropLevel(s, number);
    forall h ensures h in d.infos <==> h in s.infos && s.infos[h].number != number {
      if h in s.infos {
        assert h in s.all[s.infos[h].number];
      }
    }
  }

  lemma WithoutLevelled(s: Client, d: Client, number: nat)
    requires Levelled(s) && IsWithout(s, d, number) && d.headers.Keys == d.infos.Keys
    ensures Levelled(d)
  {
    forall n, h | n in d.all && h in d.all[n] ensures h in d.infos && d.infos[h].number == n {
      assert h in s.all[n];
    }
  }

  /** Without the level `number`, and then above the one below it. */
  lemma WithoutAbove(s: Client, d: Client, s': Client, number: nat)
    requires IsWithout(s, d, number) && IsAbove(d, s', number - 1)
    ensures IsAbove(s, s', number)
  {
  }

  lemma WithoutLowest(s: Client, d: Client, number: nat)
    requires IsWithout(s, d, number) && d.headers.Keys == d.infos.Keys && Levelled(s)
    requires forall n :: n in s.all ==> number <= n
    ensures IsAbove(s, d, number)
  {
  }

  lemma {:induction false} TrimHeadersIs(s: Client, number: nat, lo: nat)
    requires Levelled(s)
    requires forall n :: n in s.all ==> lo <= n
    requires forall n :: lo <= n <= number ==> n in s.all
    ensures IsAbove(s, TrimHeaders(s, number), number)
    decreases number
  {
    if number in s.all {
      var d := DropLevel(s, number);
      DropIsWithout(s, number);
      WithoutLevelled(s, d, number);
      if number > 0 {
        TrimHeadersIs(d, number - 1, lo);
        WithoutAbove(s, d, TrimHeaders(d, number - 1), number);
      } else {
        WithoutLowest(s, d, number);
      }
    }
  }

  lemma {:induction false} LevelsContiguous(g: BlockHeader, chain: Chain, s: Client, lo: nat, m: nat, n: nat)
    requires TreeKept(g, chain, s, lo) && lo <= m <= n && n in s.all
    ensures m in s.all
    decreases n
  {
    assert LevelKept(s, lo, n);
    if m < n {
      LevelsContiguous(g, chain, s, lo, m, n - 1);
    }
  }

  lemma TreeLevelled(g: BlockHeader, chain: Chain, s: Client, lo: nat)
    requires TreeKept(g, chain, s, lo)
    ensures Levelled(s)
  {
    forall h | h in s.infos ensures s.infos[h].number in s.all && h in s.all[s.infos[h].number] {
      assert HeaderKept(g, chain, s, lo, h);
    }
    forall n, h | n in s.all && h in s.all[n] ensures h in s.infos && s.infos[h].number == n {
      assert LevelKept(s, lo, n);
    }
  }

  lemma HeaderAbove(g: BlockHeader, chain: Chain, s: Client, s': Client, lo: nat, number: nat, h: Hash)
    requires TreeKept(g, chain, s, lo) && lo <= number && IsAbove(s, s', number) && h in s'.infos
    ensures HeaderKept(g, chain, s', number + 1, h)
  {
    assert HeaderKept(g, chain, s, lo, h);
  }

  lemma LevelAbove(g: BlockHeader, chain: Chain, s: Client, s': Client, lo: nat, number: nat, n: nat)
    requires TreeKept(g, chain, s, lo) && lo <= number && IsAbove(s, s', number) && n in s'.all
    ensures LevelKept(s', number + 1, n)
  {
    assert LevelKept(s, lo, n);
  }

  lemma TreeAbove(g: BlockHeader, chain: Chain, s: Client, s': Client, lo: nat, number: nat)
    requires TreeKept(g, chain, s, lo) && lo <= number < s.infos[s.best].number && IsAbove(s, s', number)
    ensures TreeKept(g, chain, s', number + 1)
  {
    assert number + 1 in s'.all by {
      assert HeaderKept(g, chain, s, lo, s.best);
      LevelsContiguous(g, chain, s, lo, number + 1, s.infos[s.best].number);
    }
    forall h {:trigger HeaderKept(g, chain, s', number + 1, h)} | h in s'.infos ensures HeaderKept(g, chain, s', number + 1, h) {
      HeaderAbove(g, chain, s, s', lo, number, h);
    }
    forall n {:trigger LevelKept(s', number + 1, n)} | n in s'.all ensures LevelKept(s', number + 1, n) {
      LevelAbove(g, chain, s, s', lo, number, n);
    }
  }

  /** `c'` is the part of `c` from `clo` up. */
  ghost predicate IsAtLeast(c: map<nat, Hash>, c': map<nat, Hash>, clo: nat) {
    && (forall n :: n in c' <==> n in c && clo <= n)
    && (forall n :: n in c' ==> c'[n] == c[n])
  }

  /** What is left of the index after the canonical collector has run. */
  lemma ShapeTrimmed(g: BlockHeader, chain: Chain, s: Client, lo: nat, clo: nat, k: nat)
    requires s.best in s.infos && IndexShape(g, chain, s, lo, clo) && clo <= k < lo
    ensures var s' := s.(canonical := TrimCanonical(s.canonical, k));
            && IndexShape(g, chain, s', lo, k + 1)
            && IsAtLeast(s.canonical, s'.canonical, k + 1)
  {
    TrimCanonicalIs(s.canonical, k, clo);
    var c := TrimCanonical(s.canonical, k);
    forall n: nat | k + 1 < n <= s.infos[s.best].number ensures LinkAt(c, s.infos, n) {
      assert LinkAt(s.canonical, s.infos, n);
    }
  }

  /** Collecting headers at or below `k` keeps the shape of the index. */
  lemma ShapeAbove(g: BlockHeader, chain: Chain, s: Client, s': Client, lo: nat, clo: nat, k: nat)
    requires TreeKept(g, chain, s, lo) && IndexShape(g, chain, s, lo, clo) && lo <= k < s.infos[s.best].number
    requires IsAbove(s, s', k)
    ensures IndexShape(g, chain, s', k + 1, clo)
  {
    forall n: nat | clo < n <= s.infos[s.best].number ensures LinkAt(s'.canonical, s'.infos, n) {
      assert LinkAt(s.canonical, s.infos, n);
    }
  }

  /** The header collector, from number `k` down. */
  lemma CollectHeaders(g: BlockHeader, chain: Chain, s: Client, lo: nat, k: nat)
    requires TreeKept(g, chain, s, lo) && k < s.infos[s.best].number
    ensures var s' := TrimHeaders(s, k);
            && TreeKept(g, chain, s', Max(lo, k + 1))
            && if lo <= k then IsAbove(s, s', k) else s' == s
  {
    TreeLevelled(g, chain, s, lo);
    forall n | n in s.all ensures lo <= n {
      assert LevelKept(s, lo, n);
    }
    if lo <= k {
      assert HeaderKept(g, chain, s, lo, s.best);
      forall n | lo <= n <= k ensures n in s.all {
        LevelsContiguous(g, chain, s, lo, n, s.infos[s.best].number);
      }
      TrimHeadersIs(s, k, lo);
      TreeAbove(g, chain, s, TrimHeaders(s, k), lo, k);
    }
  }

  /** `TrimHeaders` neither reads nor writes the canonical index. */
  lemma {:induction false} TrimHeadersFrame(s: Client, c: map<nat, Hash>, k: nat)
    ensures TrimHeaders(s.(canonical := c), k) == TrimHeaders(s, k).(canonical := c)
    decreases k
  {
    if k in s.all && k > 0 {
      TrimHeadersFrame(DropLevel(s, k), c, k - 1);
    }
  }

  /** The state after the header collector alone. */
  function HeadersCollected(cfg: Config, s: Client, number: nat): Client {
    if number >= cfg.finalizedGc then TrimHeaders(s, number - cfg.finalizedGc) else s
  }

  lemma CollectTree(cfg: Config, g: BlockHeader, chain: Chain, s: Client, lo: nat, clo: nat)
    requires Sane(cfg) && TreeKept(g, chain, s, lo) && IndexShape(g, chain, s, lo, clo)
    ensures var top := s.infos[s.best].number;
            var s1 := HeadersCollected(cfg, s, top);
            var lo' := Max(lo, top - cfg.finalizedGc + 1);
            && TreeKept(g, chain, s1, lo') && IndexShape(g, chain, s1, lo', clo)
            && s1.best == s.best && s1.infos[s.best] == s.infos[s.best] && s1.canonical == s.canonical
  {
    var top := s.infos[s.best].number;
    if top >= cfg.finalizedGc {
      var k := top - cfg.finalizedGc;
      CollectHeaders(g, chain, s, lo, k);
      if lo <= k {
        ShapeAbove(g, chain, s, TrimHeaders(s, k), lo, clo, k);
      }
    }
  }

  lemma CollectIndex(cfg: Config, g: BlockHeader, chain: Chain, s: Client, s': Client, lo: nat, clo: nat, clo': nat)
    requires Sane(cfg) && TreeKept(g, chain, s, lo) && IndexShape(g, chain, s, lo, clo)
    requires s.infos[s.best].number - cfg.finalizedGc < lo
    requires s' == if s.infos[s.best].number >= cfg.hashesGc
                   then s.(canonical := TrimCanonical(s.canonical, s.infos[s.best].number - cfg.hashesGc)) else s
    requires clo' == Max(clo, s.infos[s.best].number - cfg.hashesGc + 1)
    ensures Inv(cfg, g, chain, s', lo, clo')
    ensures IsAtLeast(s.canonical, s'.canonical, clo')
  {
    var top := s.infos[s.best].number;
    if top >= cfg.hashesGc {
      if clo <= top - cfg.hashesGc {
        ShapeTrimmed(g, chain, s, lo, clo, top - cfg.hashesGc);
      }
      TreeBest(g, chain, s, s', lo);
    }
  }

  /** The two collectors touch different maps, so their order does not matter. */
  lemma CollectOrder(cfg: Config, s: Client, number: nat)
    requires Sane(cfg)
    ensures var s1 := HeadersCollected(cfg, s, number);
            Collect(cfg, s, number) ==
              if number >= cfg.hashesGc then s1.(canonical := TrimCanonical(s.canonical, number - cfg.hashesGc)) else s1
  {
    if number >= cfg.hashesGc {
      TrimHeadersFrame(s, TrimCanonical(s.canonical, number - cfg.hashesGc), number - cfg.finalizedGc);
    }
  }

  /** Garbage collection as header collection to `s1`, then index collection. */
  lemma CollectSplit(cfg: Config, g: BlockHeader, chain: Chain, s: Client, lo: nat, clo: nat, lo': nat) returns (s1: Client)
    requires Sane(cfg) && TreeKept(g, chain, s, lo) && IndexShape(g, chain, s, lo, clo)
    requires lo' == Max(lo, s.infos[s.best].number - cfg.finalizedGc + 1)
    ensures TreeKept(g, chain, s1, lo') && IndexShape(g, chain, s1, lo', clo)
    ensures s1.best == s.best && s1.infos[s.best] == s.infos[s.best] && s1.canonical == s.canonical
    ensures var top := s.infos[s.best].number;
            && Collect(cfg, s, top) ==
                 (if top >= cfg.hashesGc then s1.(canonical := TrimCanonical(s.canonical, top - cfg.hashesGc)) else s1)
            && Collect(cfg, s, top).best == s1.best && Collect(cfg, s, top).infos == s1.infos
  {
    s1 := HeadersCollected(cfg, s, s.infos[s.best].number);
    CollectTree(cfg, g, chain, s, lo, clo);
    CollectOrder(cfg, s, s.infos[s.best].number);
  }

  lemma CollectInv(cfg: Config, g: BlockHeader, chain: Chain, s: Client, s': Client, lo: nat, clo: nat, lo': nat, clo': nat)
    requires Sane(cfg) && TreeKept(g, chain, s, lo) && IndexShape(g, chain, s, lo, clo)
    requires s' == Collect(cfg, s, s.infos[s.best].number)
    requires lo' == Max(lo, s.infos[s.best].number - cfg.finalizedGc + 1)
    requires clo' == Max(clo, s.infos[s.best].number - cfg.hashesGc + 1)
    ensures Inv(cfg, g, chain, s', lo', clo')
    ensures s'.best == s.best && s'.infos[s.best] == s.infos[s.best]
    ensures IsAtLeast(s.canonical, s'.canonical, clo')
  {
    var s1 := CollectSplit(cfg, g, chain, s, lo, clo, lo');
    CollectIndex(cfg, g, chain, s1, s', lo', clo, clo');
  }

  /** What the collection leaves of the index. */
  lemma CollectCuts(cfg: Config, g: BlockHeader, chain: Chain, s: Client, s': Client, lo: nat, clo: nat, clo': nat)
    requires Sane(cfg) && TreeKept(g, chain, s, lo) && IndexShape(g, chain, s, lo, clo)
    requires s' == Collect(cfg, s, s.infos[s.best].number)
    requires clo' == Max(clo, s.infos[s.best].number - cfg.hashesGc + 1)
    ensures IsAtLeast(s.canonical, s'.canonical, clo') && clo' <= s.infos[s.best].number
  {
    CollectInv(cfg, g, chain, s, s', lo, clo, Max(lo, s.infos[s.best].number - cfg.finalizedGc + 1), clo');
  }
}
