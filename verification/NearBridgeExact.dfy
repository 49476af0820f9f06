/** Exactly when each call of the bridge goes through, and what it leaves, in the terms of the blocks and accounts. */
module NearBridgeExact {
  import opened Prelude
  import opened NearTypes
  import opened NearBridgeSpec
  import opened NearBridgeProofs
  import opened NearBridgeTheorems
  import MapSum

  // ----- bonds -----

  lemma DepositExactly(cfg: Config, s: Bridge, now: nat, sender: Address, value: U256)
    ensures var r := Exec(cfg, s, now, Deposit(sender, value));
            && (r.Some? <==> value == cfg.lock && Balance(s, sender) == 0)
            && (r.Some? ==> r.value == s.(balances := r.value.balances, ether := s.ether + cfg.lock)
                            && Balance(r.value, sender) == cfg.lock
                            && forall a :: a != sender ==> Balance(r.value, a) == Balance(s, a))
  {
  }

  /** Whoever has a bond gets it back, unless it stands behind a block in its window or the transfer is refused. */
  lemma WithdrawExactly(cfg: Config, s: Bridge, now: nat, sender: Address, accepts: bool)
    requires Solvent(cfg, s)
    ensures var r := Exec(cfg, s, now, Withdraw(sender, accepts));
            && (r.Some? <==> Balance(s, sender) == cfg.lock && accepts && !(sender == s.lastSubmitter && now < s.lastValidAt))
            && (r.Some? ==> r.value == s.(balances := r.value.balances, ether := s.ether - cfg.lock)
                            && Balance(r.value, sender) == 0
                            && forall a :: a != sender ==> Balance(r.value, a) == Balance(s, a))
  {
    MapSum.SumAtLeast(s.balances, sender);
  }

  // ----- producer sets -----

  /** The set holds these validators, in order, with their keys and stakes. */
  ghost predicate Holds(ps: ProducerSet, vs: seq<ValidatorStake>) {
    && ps.length == |vs| && ps.totalStake == StakeSum(vs)
    && forall i :: 0 <= i < |vs| ==> i in ps.slots && ps.slots[i].publicKey == vs[i].publicKey && ps.slots[i].stake == vs[i].stake
  }

  lemma SetHolds(before: ProducerSet, vs: seq<ValidatorStake>)
    ensures Holds(SetProducers(before, vs), vs)
  {
  }

  lemma CopyHolds(src: ProducerSet, dest: ProducerSet, vs: seq<ValidatorStake>)
    requires Holds(src, vs)
    ensures Holds(CopyProducers(src, dest), vs)
  {
  }

  /** A commit from the next epoch moves both sets up by one epoch; any other leaves them. */
  lemma CommitRotates(s: Bridge, vs: seq<ValidatorStake>, ws: seq<ValidatorStake>)
    requires Holds(s.next, vs) && Holds(s.untrustedNext, ws)
    ensures s.fromNextEpoch ==> Holds(Commit(s).current, vs) && Holds(Commit(s).next, ws)
    ensures !s.fromNextEpoch ==> Commit(s).current == s.current && Commit(s).next == s.next
    ensures Commit(s).untrustedNext == s.untrustedNext
  {
    CopyHolds(s.next, s.current, vs);
    CopyHolds(s.untrustedNext, s.next, ws);
  }

  lemma CommitSameProducers(s: Bridge)
    requires SetsOk(s) && s.fromNextEpoch
    ensures SameProducers(s.next, Commit(s).current) && SameProducers(s.untrustedNext, Commit(s).next)
  {
    CopyProducersOk(s.next, s.current);
    CopyProducersOk(s.untrustedNext, s.next);
  }

  // ----- blocks -----

  /** What the contract keeps of a block. */
  ghost predicate Describes(i: BlockInfo, b: LightClientBlock) {
    && i.height == b.innerLite.height && i.timestamp == b.innerLite.timestamp
    && i.epochId == b.innerLite.epochId && i.nextEpochId == b.innerLite.nextEpochId
    && i.hash == b.hash && i.merkleRoot == b.innerLite.blockMerkleRoot && i.nextHash == b.nextHash
  }

  lemma InfoDescribes(b: LightClientBlock)
    ensures Describes(InfoOf(b), b)
  {
  }

  /** What is demanded of a block once everything due is committed: a greater height, this epoch or the next, more than two
      thirds of the stake of that epoch's producers and, for a new epoch, the next producers under the announced hash. */
  ghost predicate Fit(head: BlockInfo, producers: ProducerSet, b: LightClientBlock) {
    && head.height < b.innerLite.height
    && (b.innerLite.epochId == head.epochId || b.innerLite.epochId == head.nextEpochId)
    && producers.length <= |b.approvals| && 3 * Voted(producers, b.approvals, producers.length) > 2 * producers.totalStake
    && (b.innerLite.epochId != head.epochId ==>
          b.nextBps.Some? && b.nextBps.value.hash == b.innerLite.nextBpHash && StakeSum(b.nextBps.value.stakes) <= MAX_U256)
  }

  /** A block in its window may be replaced only by one that is newer by the replace duration. */
  ghost predicate MayReplace(cfg: Config, s: Bridge, now: nat, b: LightClientBlock) {
    now < s.lastValidAt ==> s.untrusted.timestamp + cfg.replaceDuration <= b.innerLite.timestamp
  }

  ghost function ProducersFor(s: Bridge, b: LightClientBlock): ProducerSet {
    if b.innerLite.epochId == s.head.epochId then s.current else s.next
  }

  /** A submission is accepted exactly from a bonded sender, for a fit block that may replace the one in its window, if the
      end of the new window fits a word. */
  lemma AddExactly(cfg: Config, s: Bridge, now: nat, sender: Address, b: LightClientBlock)
    requires SetsOk(s) && SetsFit(s)
    ensures Exec(cfg, s, now, AddLightClientBlock(sender, b)).Some? <==>
              && s.initialized && Balance(s, sender) >= cfg.lock && MayReplace(cfg, s, now, b)
              && Fit(Settle(s, now).head, ProducersFor(Settle(s, now), b), b) && now + cfg.lockDuration <= MAX_U256
  {
    SettledSets(s, now);
    var s1 := Settle(s, now);
    QuorumExactly(ProducersFor(s1, b), b.approvals);
    VettedExactly(cfg, s1, now, b);
    ReplaceFits(cfg, s, now, b);
  }

  lemma ReplaceFits(cfg: Config, s: Bridge, now: nat, b: LightClientBlock)
    ensures !(now < s.lastValidAt && (s.untrusted.timestamp + cfg.replaceDuration > MAX_U256
                                      || b.innerLite.timestamp < s.untrusted.timestamp + cfg.replaceDuration))
            <==> MayReplace(cfg, s, now, b)
  {
  }

  lemma VettedExactly(cfg: Config, s: Bridge, now: nat, b: LightClientBlock)
    requires HasQuorum(ProducersFor(s, b), b.approvals) <==>
               var ps := ProducersFor(s, b);
               ps.length <= |b.approvals| && 3 * Voted(ps, b.approvals, ps.length) > 2 * ps.totalStake
    ensures Vetted(cfg, s, now, b).Some? <==> Fit(s.head, ProducersFor(s, b), b) && now + cfg.lockDuration <= MAX_U256
  {
  }

  lemma SettledSets(s: Bridge, now: nat)
    requires SetsOk(s) && SetsFit(s)
    ensures SetsOk(Settle(s, now)) && SetsFit(Settle(s, now))
  {
    CommitSets(s);
  }

  /** What an accepted submission leaves: what was due is committed, and the block waits until the end of its window. */
  lemma AddLeaves(cfg: Config, s: Bridge, now: nat, sender: Address, b: LightClientBlock, s': Bridge)
    requires Exec(cfg, s, now, AddLightClientBlock(sender, b)) == Some(s')
    ensures var s1 := Settle(s, now);
            && Describes(s'.untrusted, b) && s'.lastSubmitter == sender && s'.lastValidAt == now + cfg.lockDuration
            && s'.fromNextEpoch == (b.innerLite.epochId != s1.head.epochId)
            && (forall i :: 0 <= i < |b.approvals| ==> i in s'.approvals && s'.approvals[i] == b.approvals[i])
            && s'.head == s1.head && s'.current == s1.current && s'.next == s1.next
            && s'.hashes == s1.hashes && s'.roots == s1.roots && s'.balances == s.balances && s'.ether == s.ether
            && (s'.fromNextEpoch ==> b.nextBps.Some? && Holds(s'.untrustedNext, b.nextBps.value.stakes))
            && (!s'.fromNextEpoch ==> s'.untrustedNext == s1.untrustedNext)
  {
    if b.nextBps.Some? {
      SetHolds(Settle(s, now).untrustedNext, b.nextBps.value.stakes);
    }
  }

  // ----- initialisation -----

  lemma InitValidatorsExactly(cfg: Config, s: Bridge, now: nat, vs: seq<ValidatorStake>)
    requires |vs| <= MAX_U32
    ensures var r := Exec(cfg, s, now, InitWithValidators(vs));
            && (r.Some? <==> !s.initialized)
            && (r.Some? ==> r.value == s.(current := r.value.current) && Holds(r.value.current, vs))
  {
    StakeSumFits(vs);
    SetHolds(s.current, vs);
  }

  lemma InitBlockExactly(cfg: Config, s: Bridge, now: nat, b: LightClientBlock)
    requires b.nextBps.Some? ==> |b.nextBps.value.stakes| <= MAX_U32
    ensures var r := Exec(cfg, s, now, InitWithBlock(b));
            && (r.Some? <==> !s.initialized && s.current.totalStake > 0 && b.nextBps.Some?)
            && (r.Some? ==> && r.value == s.(initialized := true, head := r.value.head, next := r.value.next,
                                             hashes := s.hashes[b.innerLite.height := b.hash],
                                             roots := s.roots[b.innerLite.height := b.innerLite.blockMerkleRoot])
                            && Describes(r.value.head, b) && Holds(r.value.next, b.nextBps.value.stakes))
  {
    if b.nextBps.Some? {
      StakeSumFits(b.nextBps.value.stakes);
      SetHolds(s.next, b.nextBps.value.stakes);
    }
  }
}
