/** The bridge contract as an object whose methods update its storage, and the watchdog's scan
    against it. A method that returns false has reverted. */
module NearBridge {
  import opened Prelude
  import opened NearTypes
  import opened NearBridgeSpec
  import opened NearBridgeProofs
  import MapSum

  /** The first `n` slots of one map over those of another. */
  function Overlaid(src: map<nat, BlockProducer>, dest: map<nat, BlockProducer>, n: nat): map<nat, BlockProducer> {
    dest + map k: nat | k in src && k < n :: src[k]
  }

  lemma OverlaidMore(src: map<nat, BlockProducer>, dest: map<nat, BlockProducer>, n: nat)
    requires n in src
    ensures Overlaid(src, dest, n + 1) == Overlaid(src, dest, n)[n := src[n]]
  {
  }

  class NearBridge {
    const cfg: Config
    var initialized: bool
    var current: ProducerSet
    var next: ProducerSet
    var untrustedNext: ProducerSet
    var head: BlockInfo
    var untrusted: BlockInfo
    var approvals: map<nat, Option<Signature>>
    var fromNextEpoch: bool
    var lastSubmitter: Address
    var lastValidAt: nat
    var hashes: map<U64, Bytes32>
    var roots: map<U64, Bytes32>
    var balances: map<Address, nat>
    var ether: nat

    function Storage(): Bridge
      reads this
    {
      Bridge(initialized, current, next, untrustedNext, head, untrusted, approvals, fromNextEpoch,
             lastSubmitter, lastValidAt, hashes, roots, balances, ether)
    }

    constructor (cfg: Config)
      ensures this.cfg == cfg && Storage() == DEPLOYED
    {
      this.cfg := cfg;
      initialized := false;
      current, next, untrustedNext := NO_PRODUCERS, NO_PRODUCERS, NO_PRODUCERS;
      head, untrusted := NO_BLOCK, NO_BLOCK;
      approvals, fromNextEpoch := map[], false;
      lastSubmitter, lastValidAt := 0, 0;
      hashes, roots, balances, ether := map[], map[], map[], 0;
    }

    /** What a revert does. */
    method Restore(s: Bridge)
      modifies this
      ensures Storage() == s
    {
      RestoreSets(s);
      RestoreRest(s);
    }

    method RestoreSets(s: Bridge)
      modifies `initialized, `current, `next, `untrustedNext, `head, `untrusted, `approvals
      ensures initialized == s.initialized && current == s.current && next == s.next && untrustedNext == s.untrustedNext
      ensures head == s.head && untrusted == s.untrusted && approvals == s.approvals
    {
      initialized, current, next, untrustedNext := s.initialized, s.current, s.next, s.untrustedNext;
      head, untrusted, approvals := s.head, s.untrusted, s.approvals;
    }

    method RestoreRest(s: Bridge)
      modifies `fromNextEpoch, `lastSubmitter, `lastValidAt, `hashes, `roots, `balances, `ether
      ensures fromNextEpoch == s.fromNextEpoch && lastSubmitter == s.lastSubmitter && lastValidAt == s.lastValidAt
      ensures hashes == s.hashes && roots == s.roots && balances == s.balances && ether == s.ether
    {
      fromNextEpoch, lastSubmitter, lastValidAt := s.fromNextEpoch, s.lastSubmitter, s.lastValidAt;
      hashes, roots, balances, ether := s.hashes, s.roots, s.balances, s.ether;
    }

    method Deposit(sender: Address, value: U256) returns (ok: bool)
      modifies this
      ensures ok == ExecDeposit(cfg, old(Storage()), sender, value).Some?
      ensures Storage() == if ok then ExecDeposit(cfg, old(Storage()), sender, value).value else old(Storage())
    {
      if value != cfg.lock || MapSum.Get(balances, sender) != 0 {
        return false;
      }
      balances := balances[sender := MapSum.Get(balances, sender) + value];
      ether := ether + value;
      ok := true;
    }

    /** The bond goes to the sender, who may refuse it. */
    method Withdraw(now: nat, sender: Address, accepts: bool) returns (ok: bool)
      modifies this
      ensures ok == ExecWithdraw(cfg, old(Storage()), now, sender, accepts).Some?
      ensures Storage() == if ok then ExecWithdraw(cfg, old(Storage()), now, sender, accepts).value else old(Storage())
    {
      if sender == lastSubmitter && now < lastValidAt {
        return false;
      }
      var balance := MapSum.Get(balances, sender);
      if balance < cfg.lock || ether < cfg.lock || !accepts {
        return false;
      }
      balances := balances[sender := balance - cfg.lock];
      ether := ether - cfg.lock;
      ok := true;
    }

    /** None is a revert. */
    method CheckBlockProducerSignatureInHead(index: nat) returns (r: Option<bool>)
      ensures r == CheckSignature(cfg, Storage(), index)
    {
      var ps := if fromNextEpoch then next else current;
      if index >= ps.length || index !in ps.slots || index !in approvals || approvals[index].None? {
        return None;
      }
      r := Some(cfg.sigOk(untrusted.height, untrusted.nextHash, approvals[index].value, ps.slots[index].publicKey));
    }

    /** The reward goes to a receiver, who may refuse it, and the rest to the burner, who never does: half of the bond
        each, the odd unit to the burner. */
    method Challenge(now: nat, index: nat, accepts: bool) returns (ok: bool, reward: nat, burnt: nat)
      modifies this
      ensures ok == ExecChallenge(cfg, old(Storage()), now, index, accepts).Some?
      ensures Storage() == if ok then ExecChallenge(cfg, old(Storage()), now, index, accepts).value else old(Storage())
      ensures ok ==> reward + burnt == cfg.lock && reward <= burnt <= reward + 1 && ether + reward + burnt == old(ether)
    {
      reward, burnt := 0, 0;
      if now >= lastValidAt {
        return false, 0, 0;
      }
      var valid := CheckBlockProducerSignatureInHead(index);
      if valid != Some(false) {
        return false, 0, 0;
      }
      var balance := MapSum.Get(balances, lastSubmitter);
      if balance < cfg.lock || ether < cfg.lock / 2 || ether - cfg.lock / 2 < cfg.lock - cfg.lock / 2 || !accepts {
        return false, 0, 0;
      }
      balances := balances[lastSubmitter := balance - cfg.lock];
      reward := cfg.lock / 2;
      ether := ether - reward;
      burnt := cfg.lock - cfg.lock / 2;
      ether := ether - burnt;
      lastValidAt := 0;
      ok := true;
    }

    /** `setBlockProducers`; None is the overflow revert. */
    static method SetBlockProducers(src: seq<ValidatorStake>, dest: ProducerSet) returns (r: Option<ProducerSet>)
      ensures r == if StakeSum(src) > MAX_U256 then None else Some(SetProducers(dest, src))
    {
      var slots, totalStake := dest.slots, 0;
      for i := 0 to |src|
        invariant totalStake == StakeSum(src[..i]) <= MAX_U256
        invariant slots == dest.slots + map k | 0 <= k < i :: BlockProducer(src[k].publicKey, src[k].stake)
      {
        assert src[..i + 1][..i] == src[..i];
        slots := slots[i := BlockProducer(src[i].publicKey, src[i].stake)];
        if totalStake + src[i].stake > MAX_U256 {
          StakeSumPrefix(src, i + 1);
          return None;
        }
        totalStake := totalStake + src[i].stake;
      }
      assert src[..|src|] == src;
      r := Some(ProducerSet(|src|, totalStake, slots));
    }

    static lemma StakeSumPrefix(src: seq<ValidatorStake>, n: nat)
      requires n <= |src|
      ensures StakeSum(src[..n]) <= StakeSum(src)
    {
      if n < |src| {
        StakeSumPrefix(src[..|src| - 1], n);
        assert src[..|src| - 1][..n] == src[..n];
      } else {
        assert src[..n] == src;
      }
    }

    static method CopyBlockProducers(src: ProducerSet, dest: ProducerSet) returns (r: ProducerSet)
      requires forall i: nat :: i < src.length ==> i in src.slots
      ensures r == CopyProducers(src, dest)
    {
      var slots := dest.slots;
      for i := 0 to src.length
        invariant slots == Overlaid(src.slots, dest.slots, i)
      {
        OverlaidMore(src.slots, dest.slots, i);
        slots := slots[i := src.slots[i]];
      }
      r := ProducerSet(src.length, src.totalStake, slots);
    }

    /** `_checkBp`; false is a revert. */
    static method CheckBp(blockApprovals: seq<Option<Signature>>, ps: ProducerSet) returns (ok: bool)
      requires forall i: nat :: i < ps.length ==> i in ps.slots
      ensures ok == HasQuorum(ps, blockApprovals)
      ensures ok ==> 3 * Voted(ps, blockApprovals, ps.length) > 2 * ps.totalStake
    {
      if |blockApprovals| < ps.length {
        return false;
      }
      var votedFor := 0;
      for i := 0 to ps.length
        invariant votedFor == Voted(ps, blockApprovals, i) <= MAX_U256
      {
        if blockApprovals[i].Some? {
          if votedFor + ps.slots[i].stake > MAX_U256 {
            VotedPrefix(ps, blockApprovals, i + 1, ps.length);
            return false;
          }
          votedFor := votedFor + ps.slots[i].stake;
        }
      }
      ok := ps.totalStake * 2 <= MAX_U256 && votedFor > ps.totalStake * 2 / 3;
    }

    static lemma VotedPrefix(ps: ProducerSet, blockApprovals: seq<Option<Signature>>, m: nat, n: nat)
      requires m <= n <= |blockApprovals|
      ensures Voted(ps, blockApprovals, m) <= Voted(ps, blockApprovals, n)
    {
    }

    method InitWithValidators(stakes: seq<ValidatorStake>) returns (ok: bool)
      modifies this
      ensures ok == ExecInitValidators(old(Storage()), stakes).Some?
      ensures Storage() == if ok then ExecInitValidators(old(Storage()), stakes).value else old(Storage())
    {
      if initialized {
        return false;
      }
      var producers := SetBlockProducers(stakes, current);
      if producers.None? {
        return false;
      }
      current := producers.value;
      ok := true;
    }

    method InitWithBlock(block: LightClientBlock) returns (ok: bool)
      modifies this
      ensures ok == ExecInitBlock(old(Storage()), block).Some?
      ensures Storage() == if ok then ExecInitBlock(old(Storage()), block).value else old(Storage())
    {
      if current.totalStake == 0 || initialized || block.nextBps.None? {
        return false;
      }
      var producers := SetBlockProducers(block.nextBps.value.stakes, next);
      if producers.None? {
        return false;
      }
      initialized := true;
      head := InfoOf(block);
      next := producers.value;
      hashes := hashes[head.height := head.hash];
      roots := roots[head.height := head.merkleRoot];
      ok := true;
    }

    method CommitBlock()
      requires SetsOk(Storage())
      modifies this
      ensures Storage() == Commit(old(Storage()))
    {
      head := untrusted;
      if fromNextEpoch {
        current := CopyBlockProducers(next, current);
        next := CopyBlockProducers(untrustedNext, next);
      }
      lastValidAt := 0;
      hashes := hashes[head.height := head.hash];
      roots := roots[head.height := head.merkleRoot];
    }

    method AddLightClientBlock(now: nat, sender: Address, block: LightClientBlock) returns (ok: bool)
      requires SetsOk(Storage())
      modifies this
      ensures ok == ExecAdd(cfg, old(Storage()), now, sender, block).Some?
      ensures Storage() == if ok then ExecAdd(cfg, old(Storage()), now, sender, block).value else old(Storage())
    {
      if !initialized || MapSum.Get(balances, sender) < cfg.lock {
        return false;
      }
      if now < lastValidAt && (untrusted.timestamp + cfg.replaceDuration > MAX_U256
                               || block.innerLite.timestamp < untrusted.timestamp + cfg.replaceDuration) {
        return false;
      }
      var before := Storage();
      CommitIfDue(now);
      var vetted := Vet(now, block);
      if vetted.None? {
        Restore(before);
        return false;
      }
      Install(now, sender, block, vetted.value);
      ok := true;
    }

    method CommitIfDue(now: nat)
      requires SetsOk(Storage())
      modifies this
      ensures Storage() == Settle(old(Storage()), now)
      ensures SetsOk(Storage())
    {
      if now >= lastValidAt && lastValidAt != 0 {
        CommitSets(Storage());
        CommitBlock();
      }
    }

    /** The checks of a submission that follow the commit: the epoch the block is from and the
        producers it brings, or None for a revert. */
    method Vet(now: nat, block: LightClientBlock) returns (r: Option<(bool, ProducerSet)>)
      requires SetsOk(Storage())
      ensures r == Vetted(cfg, Storage(), now, block)
    {
      if block.innerLite.height <= head.height {
        return None;
      }
      var fromNext: bool;
      if block.innerLite.epochId == head.epochId {
        fromNext := false;
      } else if block.innerLite.epochId == head.nextEpochId {
        fromNext := true;
      } else {
        return None;
      }
      var quorum := CheckBp(block.approvals, if fromNext then next else current);
      if !quorum {
        return None;
      }
      var producers := Some(untrustedNext);
      if fromNext {
        if block.nextBps.None? || block.nextBps.value.hash != block.innerLite.nextBpHash {
          return None;
        }
        producers := SetBlockProducers(block.nextBps.value.stakes, untrustedNext);
      }
      if producers.None? || now + cfg.lockDuration > MAX_U256 {
        return None;
      }
      r := Some((fromNext, producers.value));
    }

    /** Makes a vetted block the untrusted head. */
    method Install(now: nat, sender: Address, block: LightClientBlock, vetted: (bool, ProducerSet))
      modifies this
      ensures Storage() == Installed(cfg, old(Storage()), now, sender, block, vetted)
    {
      untrusted := InfoOf(block);
      StoreApprovals(block.approvals);
      fromNextEpoch := vetted.0;
      untrustedNext := vetted.1;
      lastSubmitter := sender;
      lastValidAt := now + cfg.lockDuration;
    }

    method StoreApprovals(newer: seq<Option<Signature>>)
      modifies `approvals
      ensures approvals == Store(old(approvals), newer)
    {
      for i := 0 to |newer|
        invariant approvals == Store(old(approvals), newer[..i])
      {
        approvals := approvals[i := newer[i]];
      }
      assert newer[..|newer|] == newer;
    }

    /** The watchdog's pass over a block in its window: it challenges the first invalid signature, for a receiver
        that takes the reward. */
    method Scan(now: nat) returns (challenged: bool)
      requires Solvent(cfg, Storage()) && Bonded(cfg, Storage(), now)
      modifies this
      ensures !challenged ==> Storage() == old(Storage())
      ensures !challenged && now < lastValidAt ==>
                forall i: nat :: i < CheckedSet(Storage()).length ==> CheckSignature(cfg, Storage(), i) != Some(false)
      ensures challenged ==> old(lastValidAt) > now && lastValidAt == 0 && ether == old(ether) - cfg.lock
    {
      challenged := false;
      var view := StateView(Storage(), now);
      if view.nextValidAt == 0 {
        return;
      }
      for i := 0 to view.numBlockProducers
        invariant Storage() == old(Storage())
        invariant forall k: nat :: k < i ==> CheckSignature(cfg, Storage(), k) != Some(false)
      {
        var result := CheckBlockProducerSignatureInHead(i);
        if result == Some(false) {
          ChallengeIsPaid(cfg, Storage(), now, 0, i, true);
          var done, _, _ := Challenge(now, i, true);
          challenged := done;
          return;
        }
      }
    }

    method BlockHashes(now: nat, height: U64) returns (res: Bytes32)
      ensures res == NearBridgeSpec.BlockHashes(Storage(), now, height)
    {
      res := if height in hashes then hashes[height] else ZERO32;
      if res == ZERO32 && now >= lastValidAt && lastValidAt != 0 && height == untrusted.height {
        res := untrusted.hash;
      }
    }

    method BlockMerkleRoots(now: nat, height: U64) returns (res: Bytes32)
      ensures res == NearBridgeSpec.BlockMerkleRoots(Storage(), now, height)
    {
      res := if height in roots then roots[height] else ZERO32;
      if res == ZERO32 && now >= lastValidAt && lastValidAt != 0 && height == untrusted.height {
        res := untrusted.merkleRoot;
      }
    }
  }
}
