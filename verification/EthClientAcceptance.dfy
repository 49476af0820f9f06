/** Which headers the Ethereum light client takes in, and what follows for those it ever took in. */
module EthClientAcceptance {
  import opened Prelude
  import opened EthClientSpec
  import opened EthClientProofs
  import opened EthClientTheorems

  /** What the client demands of a header `x` on its parent `y`, without the rounding of its divisions: the gas limit lies
      strictly between 1023/1024 and 1025/1024 of the parent's, above by at least one unit. The test of the difficulty,
      which compares it with itself, asks for at least one hundred. */
  ghost predicate Legal(cfg: Config, pow: BlockHeader -> bool, x: BlockHeader, y: BlockHeader) {
    && pow(x)
    && x.parentHash == y.hash && x.number == y.number + 1
    && y.timestamp < x.timestamp
    && x.gasUsed <= x.gasLimit && 5000 <= x.gasLimit
    && 1023 * y.gasLimit < 1024 * x.gasLimit && 1024 * (x.gasLimit + 1) <= 1025 * y.gasLimit <= MAX_U256
    && x.extraDataLength <= 32
    && (cfg.validateEthash ==> 100 <= x.difficulty && 101 * x.difficulty <= MAX_U256)
  }

  lemma GasBounds(a: nat, b: nat)
    ensures b * 1023 / 1024 < a <==> 1023 * b < 1024 * a
    ensures a < b * 1025 / 1024 <==> 1024 * (a + 1) <= 1025 * b
  {
  }

  lemma DifficultyBounds(d: nat)
    ensures d * 99 / 100 < d < d * 101 / 100 <==> 100 <= d
  {
  }

  lemma VerifiedIsLegal(cfg: Config, pow: BlockHeader -> bool, x: BlockHeader, y: BlockHeader)
    ensures Verified(cfg, pow, x, y) <==> Legal(cfg, pow, x, y)
  {
    GasBounds(x.gasLimit, y.gasLimit);
    DifficultyBounds(x.difficulty);
  }

  /** Every header ever recorded but the first is legal on its parent, which was recorded too. */
  lemma {:induction false} RecordedIsLegal(cfg: Config, pow: BlockHeader -> bool, g: BlockHeader, chain: Chain, hs: seq<BlockHeader>,
                                           h: Hash)
    requires Sane(cfg) && Genuine(chain, g, hs) && h in Recorded(cfg, pow, g, hs) && h != g.hash
    ensures chain(h).parentHash in Recorded(cfg, pow, g, hs)
    ensures Legal(cfg, pow, chain(h), chain(chain(h).parentHash))
    decreases |hs|
  {
    var init, header := hs[..|hs| - 1], hs[|hs| - 1];
    if h in Recorded(cfg, pow, g, init) {
      RecordedIsLegal(cfg, pow, g, chain, init, h);
    } else {
      var s := After(cfg, pow, g, init);
      var lo, clo := RunInv(cfg, pow, g, chain, init);
      RetainedWasRecorded(cfg, pow, g, chain, init, header.parentHash);
      assert HeaderKept(g, chain, s, lo, header.parentHash);
      VerifiedIsLegal(cfg, pow, header, s.headers[header.parentHash]);
    }
  }

  /** What a state retains was recorded. */
  lemma {:induction false} RetainedWasRecorded(cfg: Config, pow: BlockHeader -> bool, g: BlockHeader, chain: Chain,
                                               hs: seq<BlockHeader>, h: Hash)
    requires Sane(cfg) && Genuine(chain, g, hs) && h in After(cfg, pow, g, hs).headers
    ensures h in Recorded(cfg, pow, g, hs)
    decreases |hs|
  {
    if hs != [] {
      var init, header := hs[..|hs| - 1], hs[|hs| - 1];
      var s := After(cfg, pow, g, init);
      var r := AddBlockHeader(cfg, pow, s, header);
      if r.Some? {
        RecordAdds(cfg, s, header, r.value, h);
      }
      if h in s.headers {
        RetainedWasRecorded(cfg, pow, g, chain, init, h);
      }
    }
  }

  /** Recording adds one header and may drop others. */
  lemma RecordAdds(cfg: Config, s: Client, header: BlockHeader, s': Client, h: Hash)
    requires Record(cfg, s, header) == Some(s') && h in s'.headers
    ensures h == header.hash || h in s.headers
  {
    var s1 := Store(s, header);
    if header.number > 0 {
      CollectDrops(cfg, Reorganise(s1, header, s.infos[s.best].number), header.number);
    }
  }

  lemma CollectDrops(cfg: Config, s: Client, number: nat)
    ensures Collect(cfg, s, number).headers.Keys <= s.headers.Keys
  {
    var s1 := if number >= cfg.hashesGc then s.(canonical := TrimCanonical(s.canonical, number - cfg.hashesGc)) else s;
    if number >= cfg.finalizedGc {
      TrimDrops(s1, number - cfg.finalizedGc);
    }
  }

  lemma {:induction false} TrimDrops(s: Client, number: nat)
    ensures TrimHeaders(s, number).headers.Keys <= s.headers.Keys
    decreases number
  {
    if number in s.all && number > 0 {
      TrimDrops(DropLevel(s, number), number - 1);
    }
  }

  // ----- acceptance -----

  /** A submission is accepted exactly when its parent is retained, the header is legal on it and not retained itself, its
      number is at most the finality threshold below the best one, and neither that sum nor its total difficulty
      overflows. */
  lemma AcceptedExactly(cfg: Config, pow: BlockHeader -> bool, g: BlockHeader, chain: Chain, hs: seq<BlockHeader>, s: Client,
                        header: BlockHeader)
    requires Sane(cfg) && Genuine(chain, g, hs) && s == After(cfg, pow, g, hs) && chain(header.hash) == header
    ensures s.best in s.infos
    ensures AddBlockHeader(cfg, pow, s, header).Some? <==>
              && header.parentHash in s.infos && Legal(cfg, pow, header, chain(header.parentHash))
              && header.hash !in s.infos
              && s.infos[s.best].number <= header.number + cfg.finalizedGc <= MAX_U64
              && TotalOf(g, chain, header.parentHash) + header.difficulty <= MAX_U256
  {
    var lo, clo := RunInv(cfg, pow, g, chain, hs);
    AcceptedInState(cfg, pow, g, chain, s, lo, clo, header);
  }

  lemma AcceptedInState(cfg: Config, pow: BlockHeader -> bool, g: BlockHeader, chain: Chain, s: Client, lo: nat, clo: nat,
                        header: BlockHeader)
    requires Sane(cfg) && Inv(cfg, g, chain, s, lo, clo) && chain(header.hash) == header
    ensures AddBlockHeader(cfg, pow, s, header).Some? <==>
              && header.parentHash in s.infos && Legal(cfg, pow, header, chain(header.parentHash))
              && header.hash !in s.infos
              && s.infos[s.best].number <= header.number + cfg.finalizedGc <= MAX_U64
              && TotalOf(g, chain, header.parentHash) + header.difficulty <= MAX_U256
  {
    KnownExactly(cfg, g, chain, s, lo, clo, header);
    if header.parentHash in s.infos {
      assert HeaderKept(g, chain, s, lo, header.parentHash);
      TotalInState(cfg, g, chain, s, lo, clo, header.parentHash);
      VerifiedIsLegal(cfg, pow, header, chain(header.parentHash));
    }
  }

  /** A header on a retained parent is never too old: the collection has already seen to that. */
  lemma NeverTooOld(cfg: Config, g: BlockHeader, chain: Chain, s: Client, lo: nat, clo: nat, header: BlockHeader)
    requires Inv(cfg, g, chain, s, lo, clo) && header.parentHash in s.infos
    requires header.number == s.infos[header.parentHash].number + 1
    ensures s.infos[s.best].number <= header.number + cfg.finalizedGc
  {
    assert HeaderKept(g, chain, s, lo, header.parentHash);
  }

  /** A header is known under its number exactly when its info is retained. */
  lemma KnownExactly(cfg: Config, g: BlockHeader, chain: Chain, s: Client, lo: nat, clo: nat, header: BlockHeader)
    requires Inv(cfg, g, chain, s, lo, clo) && chain(header.hash) == header
    ensures header.hash in KnownHashes(s, header.number) <==> header.hash in s.infos
  {
    if header.hash in s.infos {
      assert HeaderKept(g, chain, s, lo, header.hash);
    }
    if header.number in s.all {
      assert LevelKept(s, lo, header.number);
    }
  }

  // ----- fork choice and the safe hash -----

  /** An accepted header becomes the best one exactly when its total is larger, or as large and its difficulty even. */
  lemma BestExactly(cfg: Config, pow: BlockHeader -> bool, g: BlockHeader, chain: Chain, hs: seq<BlockHeader>, s: Client,
                    header: BlockHeader, s': Client)
    requires Sane(cfg) && Genuine(chain, g, hs) && s == After(cfg, pow, g, hs) && chain(header.hash) == header
    requires AddBlockHeader(cfg, pow, s, header) == Some(s')
    ensures var total, best := TotalOf(g, chain, header.parentHash) + header.difficulty, TotalOf(g, chain, s.best);
            s'.best == if total > best || (total == best && header.difficulty % 2 == 0) then header.hash else s.best
  {
    var lo, clo := RunInv(cfg, pow, g, chain, hs);
    TotalInState(cfg, g, chain, s, lo, clo, s.best);
    TotalInState(cfg, g, chain, s, lo, clo, header.parentHash);
    BestAfterRecord(cfg, s, header);
  }

  /** For a retained number, or the one just below, the safe hash is the ancestor of the best header exactly when enough
      blocks lie on top. */
  lemma SafeHashExactly(cfg: Config, pow: BlockHeader -> bool, g: BlockHeader, chain: Chain, hs: seq<BlockHeader>, s: Client,
                        i: U64)
    requires Sane(cfg) && Genuine(chain, g, hs) && s == After(cfg, pow, g, hs)
    requires (i in s.all || i + 1 in s.all) && i in s.canonical && i + cfg.confirmations <= MAX_U64
    ensures s.best in s.infos && i <= s.infos[s.best].number
    ensures var top := s.infos[s.best].number;
            BlockHashSafe(cfg, s, i) ==
              if i + cfg.confirmations <= top then Some(Some(AncestorAt(chain, s.best, top - i))) else Some(None)
  {
    var lo, clo := RunInv(cfg, pow, g, chain, hs);
    SafeHashInState(cfg, g, chain, s, lo, clo, i);
  }
}
