/** The contract object: four maps and the best header, updated in place. */
module EthClient {
  import opened Prelude
  import opened EthClientSpec

  class EthClient {
    const cfg: Config
    const pow: BlockHeader -> bool
    var best: Hash
    var canonical: map<nat, Hash>
    var all: map<nat, seq<Hash>>
    var headers: map<Hash, BlockHeader>
    var infos: map<Hash, HeaderInfo>

    ghost function State(): Client
      reads this
    {
      Client(best, canonical, all, headers, infos)
    }

    constructor (cfg: Config, pow: BlockHeader -> bool, first: BlockHeader)
      ensures this.cfg == cfg && this.pow == pow && State() == Initial(first)
    {
      this.cfg, this.pow := cfg, pow;
      best := first.hash;
      canonical := map[first.number := first.hash];
      all := map[first.number := [first.hash]];
      headers := map[first.hash := first];
      infos := map[first.hash := HeaderInfo(0, 0, first.number)];
    }

    /** Returns false for a panic, which leaves the state as it was. */
    method AddBlockHeader(header: BlockHeader) returns (ok: bool)
      modifies this
      ensures ok == EthClientSpec.AddBlockHeader(cfg, pow, old(State()), header).Some?
      ensures ok ==> Some(State()) == EthClientSpec.AddBlockHeader(cfg, pow, old(State()), header)
      ensures !ok ==> State() == old(State())
    {
      if header.parentHash !in headers {
        return false;
      }
      if !Verified(cfg, pow, header, headers[header.parentHash]) {
        return false;
      }
      ok := RecordHeader(header);
    }

    method RecordHeader(header: BlockHeader) returns (ok: bool)
      modifies this
      ensures ok == Record(cfg, old(State()), header).Some?
      ensures ok ==> Some(State()) == Record(cfg, old(State()), header)
      ensures !ok ==> State() == old(State())
    {
      if best !in infos || header.number + cfg.finalizedGc > MAX_U64 {
        return false;
      }
      var bestInfo := infos[best];
      if header.number + cfg.finalizedGc < bestInfo.number || header.parentHash !in infos {
        return false;
      }
      var parentInfo := infos[header.parentHash];
      var known := if header.number in all then all[header.number] else [];
      if header.hash in known || parentInfo.totalDifficulty + header.difficulty > MAX_U256 {
        return false;
      }
      var info := HeaderInfo(parentInfo.totalDifficulty + header.difficulty, header.parentHash, header.number);
      var switch := Overtakes(info.totalDifficulty, header.difficulty, bestInfo.totalDifficulty);
      if switch && header.number == 0 {
        return false;
      }
      all := all[header.number := known + [header.hash]];
      headers := headers[header.hash := header];
      infos := infos[header.hash := info];
      assert State() == Store(old(State()), header);
      if switch {
        SwitchTo(header, bestInfo.number);
      }
      ok := true;
    }

    /** Makes `header` the best header, rewrites the index and collects garbage. */
    method SwitchTo(header: BlockHeader, oldBest: nat)
      requires header.number > 0
      modifies this
      ensures State() == Collect(cfg, Reorganise(old(State()), header, oldBest), header.number)
    {
      ClearAbove(header.number, oldBest);
      best := header.hash;
      canonical := canonical[header.number := header.hash];
      RewriteFrom(header.number - 1, header.parentHash);
      if header.number >= cfg.hashesGc {
        GcCanonicalChain(header.number - cfg.hashesGc);
      }
      if header.number >= cfg.finalizedGc {
        GcHeaders(header.number - cfg.finalizedGc);
      }
    }

    method ClearAbove(head: nat, oldBest: nat)
      modifies `canonical
      ensures canonical == Clear(old(canonical), head, oldBest)
    {
      var number := head + 1;
      while number <= oldBest
        invariant head < number && (number <= oldBest + 1 || number == head + 1)
        invariant canonical == Clear(old(canonical), head, number - 1)
      {
        canonical := canonical - {number};
        number := number + 1;
      }
    }

    /** Replaces past hashes, parent by parent, until the old and the new chain converge. */
    method RewriteFrom(start: nat, hash: Hash)
      modifies `canonical
      ensures canonical == Walk(old(canonical), infos, start, hash)
    {
      var number, current := start, hash;
      while true
        invariant Walk(canonical, infos, number, current) == Walk(old(canonical), infos, start, hash)
        decreases number
      {
        var converged := number in canonical && canonical[number] == current;
        canonical := canonical[number := current];
        if number == 0 || converged {
          break;
        }
        if current !in infos {
          break;
        }
        current := infos[current].parentHash;
        number := number - 1;
      }
    }

    method GcCanonicalChain(start: nat)
      modifies `canonical
      ensures canonical == TrimCanonical(old(canonical), start)
    {
      var number := start;
      while number in canonical
        invariant TrimCanonical(canonical, number) == TrimCanonical(old(canonical), start)
        decreases number
      {
        canonical := canonical - {number};
        if number == 0 {
          break;
        }
        number := number - 1;
      }
    }

    method GcHeaders(start: nat)
      modifies `all, `headers, `infos
      ensures State() == TrimHeaders(old(State()), start)
    {
      var number := start;
      while number in all
        invariant canonical == old(canonical) && best == old(best)
        invariant TrimHeaders(State(), number) == TrimHeaders(old(State()), start)
        decreases number
      {
        ghost var before := State();
        var level := all[number];
        for i := 0 to |level|
          modifies `headers, `infos
          invariant headers == before.headers - set h | h in level[..i]
          invariant infos == before.infos - set h | h in level[..i]
        {
          headers := headers - {level[i]};
          infos := infos - {level[i]};
          assert level[..i + 1] == level[..i] + [level[i]];
        }
        assert level[..|level|] == level;
        all := all - {number};
        assert State() == DropLevel(before, number);
        if number == 0 {
          break;
        }
        number := number - 1;
      }
    }

    method BlockHash(index: U64) returns (r: Option<Hash>)
      ensures r == if index in canonical then Some(canonical[index]) else None
    {
      r := if index in canonical then Some(canonical[index]) else None;
    }

    /** The outer option is the overflow panic. */
    method BlockHashSafe(index: U64) returns (r: Option<Option<Hash>>)
      ensures r == EthClientSpec.BlockHashSafe(cfg, State(), index)
    {
      var hash := BlockHash(index);
      if hash.None? {
        return Some(None);
      }
      var last := if best in infos then infos[best].number else 0;
      if index + cfg.confirmations > MAX_U64 {
        return None;
      }
      if index + cfg.confirmations > last {
        return Some(None);
      }
      r := Some(hash);
    }
  }
}
