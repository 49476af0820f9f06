/** What every call keeps in the NEAR light client on Ethereum. */
module NearBridgeProofs {
  import opened Prelude
  import opened NearTypes
  import opened NearBridgeSpec
  import MapSum

  // ----- stake of a set of producers -----

  /** The stake of the producers in `who` among the first `n` slots. */
  ghost function Weight(slots: map<nat, BlockProducer>, who: set<nat>, n: nat): nat {
    if n == 0 then 0
    else Weight(slots, who, n - 1) + if n - 1 in who && n - 1 in slots then slots[n - 1].stake else 0
  }

  ghost function Upto(n: nat): (r: set<nat>)
    ensures forall i: nat :: i in r <==> i < n
  {
    if n == 0 then {} else Upto(n - 1) + {n - 1}
  }

  /** `totalStake` is the sum of the first `length` stakes, whatever the slots above hold. */
  ghost predicate SetOk(ps: ProducerSet) {
    && (forall i: nat :: i < ps.length ==> i in ps.slots)
    && ps.totalStake == Weight(ps.slots, Upto(ps.length), ps.length)
  }

  lemma {:induction false} WeightFrame(a: map<nat, BlockProducer>, b: map<nat, BlockProducer>, who: set<nat>, who': set<nat>, n: nat)
    requires forall i: nat :: i < n ==> (i in who <==> i in who') && (i in a <==> i in b) && (i in a ==> a[i] == b[i])
    ensures Weight(a, who, n) == Weight(b, who', n)
  {
    if n > 0 {
      WeightFrame(a, b, who, who', n - 1);
    }
  }

  lemma {:induction false} SetWeight(before: ProducerSet, stakes: seq<ValidatorStake>, n: nat)
    requires n <= |stakes|
    ensures Weight(SetProducers(before, stakes).slots, Upto(|stakes|), n) == StakeSum(stakes[..n])
  {
    if n > 0 {
      SetWeight(before, stakes, n - 1);
      assert stakes[..n][..n - 1] == stakes[..n - 1];
    }
  }

  lemma SetProducersOk(before: ProducerSet, stakes: seq<ValidatorStake>)
    ensures SetOk(SetProducers(before, stakes))
  {
    SetWeight(before, stakes, |stakes|);
    assert stakes[..|stakes|] == stakes;
  }

  lemma CopyProducersOk(src: ProducerSet, dest: ProducerSet)
    requires SetOk(src)
    ensures SetOk(CopyProducers(src, dest))
    ensures SameProducers(src, CopyProducers(src, dest))
  {
    WeightFrame(src.slots, CopyProducers(src, dest).slots, Upto(src.length), Upto(src.length), src.length);
  }

  /** The same producers in the same order, leftovers aside. */
  ghost predicate SameProducers(a: ProducerSet, b: ProducerSet) {
    && a.length == b.length && a.totalStake == b.totalStake
    && forall i: nat :: i < a.length ==> i in a.slots && i in b.slots && a.slots[i] == b.slots[i]
  }

  /** Decoded lists have fewer than 2^32 entries of at most 128 bits, so no sum overflows. */
  lemma {:induction false} StakeSumBound(stakes: seq<ValidatorStake>)
    ensures StakeSum(stakes) <= |stakes| * MAX_U128
  {
    if stakes != [] {
      StakeSumBound(stakes[..|stakes| - 1]);
    }
  }

  /** Twice the sum of a decoded list never overflows. */
  lemma StakeSumFits(stakes: seq<ValidatorStake>)
    requires |stakes| <= MAX_U32
    ensures StakeSum(stakes) * 2 <= MAX_U256
  {
    StakeSumBound(stakes);
    assert |stakes| * MAX_U128 <= MAX_U32 * MAX_U128;
  }

  lemma {:induction false} WeightMonotone(slots: map<nat, BlockProducer>, a: set<nat>, b: set<nat>, n: nat)
    requires a <= b
    ensures Weight(slots, a, n) <= Weight(slots, b, n)
  {
    if n > 0 {
      WeightMonotone(slots, a, b, n - 1);
    }
  }

  lemma {:induction false} WeightOverlap(slots: map<nat, BlockProducer>, a: set<nat>, b: set<nat>, n: nat)
    ensures Weight(slots, a, n) + Weight(slots, b, n) <= Weight(slots, a * b, n) + Weight(slots, Upto(n), n)
  {
    if n > 0 {
      WeightOverlap(slots, a, b, n - 1);
      WeightMonotone(slots, Upto(n - 1), Upto(n), n - 1);
    }
  }

  // ----- bonds -----

  /** Every balance is nothing or one bond, and the contract holds exactly the balances. */
  ghost predicate Solvent(cfg: Config, s: Bridge) {
    && (forall a :: a in s.balances ==> s.balances[a] == 0 || s.balances[a] == cfg.lock)
    && s.ether == MapSum.Sum(s.balances)
  }

  lemma StepSolvent(cfg: Config, s: Bridge, now: nat, call: Call)
    requires Solvent(cfg, s)
    ensures Solvent(cfg, Next(cfg, s, now, call))
  {
    var s' := Next(cfg, s, now, call);
    match call
    case Deposit(sender, value) =>
      MapSum.SumUpdate(s.balances, sender, value);
    case Withdraw(sender, _) =>
      MapSum.SumUpdate(s.balances, sender, 0);
    case Challenge(_, _, _) =>
      MapSum.SumUpdate(s.balances, s.lastSubmitter, 0);
    case _ =>
  }

  /** The submitter of a block inside its challenge window has its bond in the contract. */
  ghost predicate Bonded(cfg: Config, s: Bridge, now: nat) {
    now < s.lastValidAt ==> Balance(s, s.lastSubmitter) >= cfg.lock
  }

  lemma StepBonded(cfg: Config, s: Bridge, now: nat, call: Call)
    requires Bonded(cfg, s, now)
    ensures Bonded(cfg, Next(cfg, s, now, call), now)
  {
  }

  /** Inside the window a challenge of an invalid signature goes through unless its receiver refuses the
      reward: both halves are paid, together they are the whole bond, and the block is rolled back. */
  lemma ChallengeIsPaid(cfg: Config, s: Bridge, now: nat, receiver: Address, index: nat, accepts: bool)
    requires Solvent(cfg, s) && Bonded(cfg, s, now)
    ensures now < s.lastValidAt && CheckSignature(cfg, s, index) == Some(false) && accepts
            <==> Exec(cfg, s, now, Challenge(receiver, index, accepts)).Some?
    ensures var r := Exec(cfg, s, now, Challenge(receiver, index, accepts));
            r.Some? ==> && r.value.lastValidAt == 0
                        && s.ether == r.value.ether + cfg.lock
                        && Balance(s, s.lastSubmitter) == Balance(r.value, s.lastSubmitter) + cfg.lock
                        && forall a :: a != s.lastSubmitter ==> Balance(r.value, a) == Balance(s, a)
  {
    MapSum.SumAtLeast(s.balances, s.lastSubmitter);
  }

  // ----- heads -----

  ghost predicate SetsOk(s: Bridge) {
    SetOk(s.current) && SetOk(s.next) && SetOk(s.untrustedNext)
  }

  lemma CommitSets(s: Bridge)
    requires SetsOk(s)
    ensures SetsOk(Commit(s))
  {
    CopyProducersOk(s.next, s.current);
    CopyProducersOk(s.untrustedNext, s.next);
  }

  lemma StepSets(cfg: Config, s: Bridge, now: nat, call: Call)
    requires SetsOk(s)
    ensures SetsOk(Next(cfg, s, now, call))
  {
    match call
    case InitWithValidators(stakes) =>
      SetProducersOk(s.current, stakes);
    case InitWithBlock(b) =>
      if b.nextBps.Some? {
        SetProducersOk(s.next, b.nextBps.value.stakes);
      }
    case AddLightClientBlock(_, b) =>
      CommitSets(s);
      if b.nextBps.Some? {
        SetProducersOk(Settle(s, now).untrustedNext, b.nextBps.value.stakes);
      }
    case _ =>
  }

  // ----- overflow -----

  /** The doubled total of the quorum test fits a word. */
  predicate Fits(ps: ProducerSet) { ps.totalStake * 2 <= MAX_U256 }

  ghost predicate SetsFit(s: Bridge) {
    Fits(s.current) && Fits(s.next) && Fits(s.untrustedNext)
  }

  /** The lists of a call have no more entries than a decoded count can say. */
  predicate Countable(call: Call) {
    match call
    case InitWithValidators(stakes) => |stakes| <= MAX_U32
    case InitWithBlock(b) => b.nextBps.Some? ==> |b.nextBps.value.stakes| <= MAX_U32
    case AddLightClientBlock(_, b) => b.nextBps.Some? ==> |b.nextBps.value.stakes| <= MAX_U32
    case _ => true
  }

  /** Setting, copying and rotating sets keeps all three totals small. */
  lemma StepFits(cfg: Config, s: Bridge, now: nat, call: Call)
    requires SetsFit(s) && Countable(call)
    ensures SetsFit(Next(cfg, s, now, call))
  {
    match call
    case InitWithValidators(stakes) =>
      StakeSumFits(stakes);
    case InitWithBlock(b) =>
      if b.nextBps.Some? {
        StakeSumFits(b.nextBps.value.stakes);
      }
    case AddLightClientBlock(_, b) =>
      if b.nextBps.Some? {
        StakeSumFits(b.nextBps.value.stakes);
      }
    case _ =>
  }

  /** No more can vote than there is. */
  lemma {:induction false} VotedBounded(ps: ProducerSet, approvals: seq<Option<Signature>>, n: nat)
    requires n <= |approvals|
    ensures Voted(ps, approvals, n) <= Weight(ps.slots, Upto(n), n)
  {
    if n > 0 {
      VotedBounded(ps, approvals, n - 1);
      WeightMonotone(ps.slots, Upto(n - 1), Upto(n), n - 1);
    }
  }

  /** On a set whose total is right and small, the quorum test with all its overflow checks is strictly more than
      two thirds of the stake. */
  lemma QuorumExactly(ps: ProducerSet, approvals: seq<Option<Signature>>)
    requires SetOk(ps) && Fits(ps)
    ensures HasQuorum(ps, approvals)
            <==> ps.length <= |approvals| && 3 * Voted(ps, approvals, ps.length) > 2 * ps.totalStake
  {
    if ps.length <= |approvals| {
      VotedBounded(ps, approvals, ps.length);
    }
  }

  // ----- blocks -----

  /** Stored heights stop at the head, and the untrusted block is above it. */
  ghost predicate Ordered(s: Bridge) {
    && (forall h :: h in s.hashes ==> s.initialized && h <= s.head.height)
    && (forall h :: h in s.roots ==> s.initialized && h <= s.head.height)
    && (Pending(s) ==> s.initialized && s.head.height < s.untrusted.height)
  }

  lemma StepOrdered(cfg: Config, s: Bridge, now: nat, call: Call)
    requires Ordered(s)
    ensures Ordered(Next(cfg, s, now, call))
    ensures var s' := Next(cfg, s, now, call);
            s.initialized ==> s'.initialized && (s'.head == s.head || s.head.height < s'.head.height)
  {
  }

  /** Those of the first `n` producers whose approval is stored. */
  ghost function Approving(approvals: map<nat, Option<Signature>>, n: nat): set<nat> {
    set i: nat | i < n && i in approvals && approvals[i].Some?
  }

  /** The stored approvals of the untrusted block carry a quorum of the set that will be read
      when they are challenged. */
  ghost predicate Approved(s: Bridge) {
    Pending(s) ==>
      var ps := CheckedSet(s);
      && (forall i: nat :: i < ps.length ==> i in s.approvals)
      && 3 * Weight(ps.slots, Approving(s.approvals, ps.length), ps.length) > 2 * ps.totalStake
  }

  lemma {:induction false} VotedIsWeight(ps: ProducerSet, before: map<nat, Option<Signature>>, approvals: seq<Option<Signature>>, n: nat, len: nat)
    requires n <= len <= |approvals|
    ensures Voted(ps, approvals, n) == Weight(ps.slots, Approving(Store(before, approvals), len), n)
  {
    if n > 0 {
      VotedIsWeight(ps, before, approvals, n - 1, len);
    }
  }

  lemma StepApproved(cfg: Config, s: Bridge, now: nat, call: Call)
    requires Approved(s) && Ordered(s)
    ensures Approved(Next(cfg, s, now, call))
  {
    if call.AddLightClientBlock? {
      var s1 := Settle(s, now);
      var ps := if call.block.innerLite.epochId != s1.head.epochId then s1.next else s1.current;
      if HasQuorum(ps, call.block.approvals) {
        VotedIsWeight(ps, s1.approvals, call.block.approvals, ps.length, ps.length);
      }
    }
  }
}
