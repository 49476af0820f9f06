/** The optimistic NEAR light client on Ethereum (NearBridge.sol), as a value: what each call does
    to the contract's storage. A call that reverts is None and changes nothing. */
module NearBridgeSpec {
  import opened Prelude
  import opened NearTypes
  import MapSum

  type Address = nat

  datatype BlockProducer = BlockProducer(publicKey: PublicKey, stake: U128)

  /** A producer set in storage: slots at and above `length` may hold leftovers. */
  datatype ProducerSet = ProducerSet(length: nat, totalStake: nat, slots: map<nat, BlockProducer>)

  datatype BlockInfo = BlockInfo(height: U64, timestamp: U64, epochId: Bytes32, nextEpochId: Bytes32,
                                 hash: Bytes32, merkleRoot: Bytes32, nextHash: Bytes32)

  /** `sigOk` is the signature check on (height, next hash, signature, key). */
  datatype Config = Config(lock: U256, lockDuration: U256, replaceDuration: U256,
                           sigOk: (U64, Bytes32, Signature, PublicKey) -> bool)

  datatype Bridge = Bridge(
    initialized: bool,
    current: ProducerSet, next: ProducerSet, untrustedNext: ProducerSet,
    head: BlockInfo, untrusted: BlockInfo,
    approvals: map<nat, Option<Signature>>, fromNextEpoch: bool,
    lastSubmitter: Address, lastValidAt: nat,
    hashes: map<U64, Bytes32>, roots: map<U64, Bytes32>,
    balances: map<Address, nat>, ether: nat)

  /** `accepts` says whether the account that is paid takes the transfer; one that does not reverts the call. */
  datatype Call =
    | Deposit(sender: Address, value: U256)
    | Withdraw(sender: Address, accepts: bool)
    | Challenge(receiver: Address, index: nat, accepts: bool)
    | InitWithValidators(stakes: seq<ValidatorStake>)
    | InitWithBlock(block: LightClientBlock)
    | AddLightClientBlock(sender: Address, block: LightClientBlock)

  const NO_PRODUCERS: ProducerSet := ProducerSet(0, 0, map[])
  const NO_BLOCK: BlockInfo := BlockInfo(0, 0, ZERO32, ZERO32, ZERO32, ZERO32, ZERO32)
  const DEPLOYED: Bridge := Bridge(false, NO_PRODUCERS, NO_PRODUCERS, NO_PRODUCERS, NO_BLOCK, NO_BLOCK,
                           map[], false, 0, 0, map[], map[], map[], 0)

  function Exec(cfg: Config, s: Bridge, now: nat, call: Call): Option<Bridge> {
    match call
    case Deposit(sender, value) => ExecDeposit(cfg, s, sender, value)
    case Withdraw(sender, accepts) => ExecWithdraw(cfg, s, now, sender, accepts)
    case Challenge(_, index, accepts) => ExecChallenge(cfg, s, now, index, accepts)
    case InitWithValidators(stakes) => ExecInitValidators(s, stakes)
    case InitWithBlock(block) => ExecInitBlock(s, block)
    case AddLightClientBlock(sender, block) => ExecAdd(cfg, s, now, sender, block)
  }

  function Next(cfg: Config, s: Bridge, now: nat, call: Call): Bridge {
    match Exec(cfg, s, now, call)
    case None => s
    case Some(s') => s'
  }

  // ----- bonds -----

  function Balance(s: Bridge, a: Address): nat {
    MapSum.Get(s.balances, a)
  }

  function ExecDeposit(cfg: Config, s: Bridge, sender: Address, value: U256): Option<Bridge> {
    if value == cfg.lock && Balance(s, sender) == 0
    then Some(s.(balances := s.balances[sender := value], ether := s.ether + value))
    else None
  }

  /** Takes one bond off `a` and out of the contract; both the balance and the ether must suffice, and the payee
      must take the transfer. */
  function PayOut(cfg: Config, s: Bridge, a: Address, accepts: bool): Option<Bridge> {
    if Balance(s, a) < cfg.lock || s.ether < cfg.lock || !accepts then None
    else Some(s.(balances := s.balances[a := Balance(s, a) - cfg.lock], ether := s.ether - cfg.lock))
  }

  function ExecWithdraw(cfg: Config, s: Bridge, now: nat, sender: Address, accepts: bool): Option<Bridge> {
    if sender == s.lastSubmitter && now < s.lastValidAt then None else PayOut(cfg, s, sender, accepts)
  }

  /** A successful challenge pays out the bond, half to its receiver and the rest to the burner. */
  function ExecChallenge(cfg: Config, s: Bridge, now: nat, index: nat, accepts: bool): Option<Bridge> {
    if now >= s.lastValidAt then None
    else if CheckSignature(cfg, s, index) != Some(false) then None
    else
      var paid :- PayOut(cfg, s, s.lastSubmitter, accepts);
      Some(paid.(lastValidAt := 0))
  }

  // ----- producer sets -----

  /** The set the untrusted block is checked against. */
  function CheckedSet(s: Bridge): ProducerSet {
    if s.fromNextEpoch then s.next else s.current
  }

  /** `checkBlockProducerSignatureInHead`; None is a revert. */
  function CheckSignature(cfg: Config, s: Bridge, index: nat): Option<bool> {
    var ps := CheckedSet(s);
    if index >= ps.length || index !in ps.slots || index !in s.approvals || s.approvals[index].None? then None
    else Some(cfg.sigOk(s.untrusted.height, s.untrusted.nextHash, s.approvals[index].value, ps.slots[index].publicKey))
  }

  function StakeSum(stakes: seq<ValidatorStake>): nat {
    if stakes == [] then 0 else StakeSum(stakes[..|stakes| - 1]) + stakes[|stakes| - 1].stake
  }

  function SetProducers(before: ProducerSet, stakes: seq<ValidatorStake>): ProducerSet {
    ProducerSet(|stakes|, StakeSum(stakes),
      before.slots + map i | 0 <= i < |stakes| :: BlockProducer(stakes[i].publicKey, stakes[i].stake))
  }

  function CopyProducers(src: ProducerSet, dest: ProducerSet): ProducerSet {
    ProducerSet(src.length, src.totalStake,
      dest.slots + map i | i in src.slots && i < src.length :: src.slots[i])
  }

  /** The stake of the first `n` producers whose approval is present. */
  function Voted(ps: ProducerSet, approvals: seq<Option<Signature>>, n: nat): nat
    requires n <= |approvals|
  {
    if n == 0 then 0
    else Voted(ps, approvals, n - 1) +
         if approvals[n - 1].Some? && n - 1 in ps.slots then ps.slots[n - 1].stake else 0
  }

  /** `_checkBp`: the presented approvals carry more than two thirds of the stake. */
  predicate HasQuorum(ps: ProducerSet, approvals: seq<Option<Signature>>) {
    && ps.length <= |approvals|
    && Voted(ps, approvals, ps.length) <= MAX_U256 && ps.totalStake * 2 <= MAX_U256
    && Voted(ps, approvals, ps.length) > ps.totalStake * 2 / 3
  }

  // ----- blocks -----

  function InfoOf(b: LightClientBlock): BlockInfo {
    BlockInfo(b.innerLite.height, b.innerLite.timestamp, b.innerLite.epochId, b.innerLite.nextEpochId,
              b.hash, b.innerLite.blockMerkleRoot, b.nextHash)
  }

  function ExecInitValidators(s: Bridge, stakes: seq<ValidatorStake>): Option<Bridge> {
    if s.initialized || StakeSum(stakes) > MAX_U256 then None
    else Some(s.(current := SetProducers(s.current, stakes)))
  }

  function ExecInitBlock(s: Bridge, b: LightClientBlock): Option<Bridge> {
    if s.current.totalStake == 0 || s.initialized || b.nextBps.None? || StakeSum(b.nextBps.value.stakes) > MAX_U256 then None
    else Some(s.(initialized := true, head := InfoOf(b), next := SetProducers(s.next, b.nextBps.value.stakes),
                 hashes := s.hashes[b.innerLite.height := b.hash],
                 roots := s.roots[b.innerLite.height := b.innerLite.blockMerkleRoot]))
  }

  predicate Pending(s: Bridge) {
    s.lastValidAt != 0
  }

  /** The challenge period of the untrusted block is over. */
  predicate Due(s: Bridge, now: nat) {
    Pending(s) && now >= s.lastValidAt
  }

  /** `commitBlock`. */
  function Commit(s: Bridge): Bridge {
    var s1 := s.(head := s.untrusted, lastValidAt := 0,
                 hashes := s.hashes[s.untrusted.height := s.untrusted.hash],
                 roots := s.roots[s.untrusted.height := s.untrusted.merkleRoot]);
    if s.fromNextEpoch
    then s1.(current := CopyProducers(s.next, s.current), next := CopyProducers(s.untrustedNext, s.next))
    else s1
  }

  /** What the storage is once everything due is committed. */
  function Settle(s: Bridge, now: nat): Bridge {
    if Due(s, now) then Commit(s) else s
  }

  function Store(approvals: map<nat, Option<Signature>>, newer: seq<Option<Signature>>): map<nat, Option<Signature>> {
    approvals + map i | 0 <= i < |newer| :: newer[i]
  }

  function ExecAdd(cfg: Config, s0: Bridge, now: nat, sender: Address, b: LightClientBlock): Option<Bridge> {
    if !s0.initialized || Balance(s0, sender) < cfg.lock then None
    else if now < s0.lastValidAt && (s0.untrusted.timestamp + cfg.replaceDuration > MAX_U256
                                     || b.innerLite.timestamp < s0.untrusted.timestamp + cfg.replaceDuration) then None
    else
      var s := Settle(s0, now);
      var vetted :- Vetted(cfg, s, now, b);
      Some(Installed(cfg, s, now, sender, b, vetted))
  }

  /** The checks that follow the commit: the block is newer, from this epoch or the next, carries a
      quorum, and brings the next producers if it starts an epoch. */
  function Vetted(cfg: Config, s: Bridge, now: nat, b: LightClientBlock): Option<(bool, ProducerSet)> {
    var fromNext := b.innerLite.epochId != s.head.epochId;
    if b.innerLite.height <= s.head.height then None
    else if fromNext && b.innerLite.epochId != s.head.nextEpochId then None
    else if !HasQuorum(if fromNext then s.next else s.current, b.approvals) then None
    else if fromNext && (b.nextBps.None? || b.nextBps.value.hash != b.innerLite.nextBpHash
                         || StakeSum(b.nextBps.value.stakes) > MAX_U256) then None
    else if now + cfg.lockDuration > MAX_U256 then None
    else Some((fromNext, if fromNext then SetProducers(s.untrustedNext, b.nextBps.value.stakes) else s.untrustedNext))
  }

  function Installed(cfg: Config, s: Bridge, now: nat, sender: Address, b: LightClientBlock, vetted: (bool, ProducerSet)): Bridge {
    s.(untrusted := InfoOf(b), approvals := Store(s.approvals, b.approvals), fromNextEpoch := vetted.0,
       untrustedNext := vetted.1, lastSubmitter := sender, lastValidAt := now + cfg.lockDuration)
  }

  // ----- views -----

  function Lookup(m: map<U64, Bytes32>, height: U64): Bytes32 {
    if height in m then m[height] else ZERO32
  }

  function BlockHashes(s: Bridge, now: nat, height: U64): Bytes32 {
    var res := Lookup(s.hashes, height);
    if res == ZERO32 && Due(s, now) && height == s.untrusted.height then s.untrusted.hash else res
  }

  function BlockMerkleRoots(s: Bridge, now: nat, height: U64): Bytes32 {
    var res := Lookup(s.roots, height);
    if res == ZERO32 && Due(s, now) && height == s.untrusted.height then s.untrusted.merkleRoot else res
  }

  datatype BridgeState = BridgeState(currentHeight: nat, nextTimestamp: nat, nextValidAt: nat, numBlockProducers: nat)

  function StateView(s: Bridge, now: nat): BridgeState {
    if now < s.lastValidAt
    then BridgeState(s.head.height, s.untrusted.timestamp, s.lastValidAt, CheckedSet(s).length)
    else BridgeState((if s.lastValidAt == 0 then s.head else s.untrusted).height, 0, 0, 0)
  }
}
