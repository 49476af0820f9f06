/** The bridge with the blocks behind its storage: which block every stored height came from, and which lists the producer
    sets hold, epoch by epoch. */
module NearBridgeHistory {
  import opened Prelude
  import opened NearTypes
  import opened NearBridgeSpec
  import opened NearBridgeProofs
  import opened NearBridgeTheorems
  import opened NearBridgeExact

  /** The validators of the first call, the blocks that brought the next producers of each epoch (the initial block first),
      the block behind the head, the one that waits, and those behind the stored heights. */
  datatype History = History(bridge: Bridge, first: seq<ValidatorStake>, epochs: seq<LightClientBlock>,
                             head: Option<LightClientBlock>, waiting: Option<LightClientBlock>,
                             stored: map<U64, LightClientBlock>)

  const BEGINNING: History := History(DEPLOYED, [], [], None, None, map[])

  /** What the commit of the waiting block adds. */
  function Committed(h: History, now: nat): History {
    if Due(h.bridge, now) && h.waiting.Some? then
      h.(head := h.waiting, stored := h.stored[h.waiting.value.innerLite.height := h.waiting.value],
         epochs := if h.bridge.fromNextEpoch then h.epochs + [h.waiting.value] else h.epochs)
    else h
  }

  function Follow(cfg: Config, h: History, now: nat, call: Call): History {
    match Exec(cfg, h.bridge, now, call)
    case None => h
    case Some(s) =>
      match call
      case InitWithValidators(vs) => h.(bridge := s, first := vs)
      case InitWithBlock(b) =>
        h.(bridge := s, epochs := [b], head := Some(b), stored := h.stored[b.innerLite.height := b])
      case AddLightClientBlock(_, b) => Committed(h, now).(bridge := s, waiting := Some(b))
      case _ => h.(bridge := s)
  }

  function Recount(cfg: Config, h: History, es: seq<Event>): History
    decreases |es|
  {
    if es == [] then h else Recount(cfg, Follow(cfg, h, es[0].now, es[0].call), es[1..])
  }

  /** The block brings the list it announces, and starts another epoch than the one before. */
  ghost predicate Starts(b: LightClientBlock, before: LightClientBlock) {
    b.nextBps.Some? && b.nextBps.value.hash == b.innerLite.nextBpHash && b.innerLite.epochId != before.innerLite.epochId
  }

  ghost predicate EpochsOk(epochs: seq<LightClientBlock>) {
    && (forall i {:trigger epochs[i]} :: 0 <= i < |epochs| ==> epochs[i].nextBps.Some?)
    && (forall i {:trigger Starts(epochs[i], epochs[i - 1])} :: 1 <= i < |epochs| ==> Starts(epochs[i], epochs[i - 1]))
  }

  /** The producers of the epoch of the head are those that the block before the last brought, or the first validators; the
      next ones are those that the last block brought. */
  ghost predicate SetsTold(h: History) {
    && (!h.bridge.initialized ==> h.epochs == [] && Holds(h.bridge.current, h.first))
    && (h.bridge.initialized ==>
          && h.epochs != [] && EpochsOk(h.epochs)
          && h.head.Some? && Describes(h.bridge.head, h.head.value)
          && h.bridge.head.epochId == h.epochs[|h.epochs| - 1].innerLite.epochId
          && Holds(h.bridge.next, h.epochs[|h.epochs| - 1].nextBps.value.stakes)
          && Holds(h.bridge.current, if |h.epochs| == 1 then h.first else h.epochs[|h.epochs| - 2].nextBps.value.stakes))
  }

  ghost predicate WaitingTold(h: History) {
    Pending(h.bridge) ==>
      && h.bridge.initialized && h.epochs != [] && h.waiting.Some? && Describes(h.bridge.untrusted, h.waiting.value)
      && (if h.bridge.fromNextEpoch
          then Starts(h.waiting.value, h.epochs[|h.epochs| - 1]) && h.bridge.untrusted.epochId == h.bridge.head.nextEpochId
               && Holds(h.bridge.untrustedNext, h.waiting.value.nextBps.value.stakes)
          else h.bridge.untrusted.epochId == h.bridge.head.epochId)
  }

  /** Every stored hash and root is that of a block of that height. */
  ghost predicate StoredTold(h: History) {
    && h.bridge.hashes.Keys == h.bridge.roots.Keys == h.stored.Keys
    && forall n {:trigger h.stored[n]} :: n in h.stored ==>
         && h.stored[n].innerLite.height == n && h.bridge.hashes[n] == h.stored[n].hash
         && h.bridge.roots[n] == h.stored[n].innerLite.blockMerkleRoot
  }

  ghost predicate Told(h: History) {
    SetsTold(h) && StoredTold(h) && WaitingTold(h)
  }

  lemma ExtendEpochs(epochs: seq<LightClientBlock>, b: LightClientBlock)
    requires EpochsOk(epochs) && epochs != [] && Starts(b, epochs[|epochs| - 1])
    ensures EpochsOk(epochs + [b])
  {
    var all := epochs + [b];
    forall i {:trigger Starts(all[i], all[i - 1])} | 1 <= i < |all| ensures Starts(all[i], all[i - 1]) {
      if i < |epochs| {
        assert Starts(epochs[i], epochs[i - 1]);
      }
    }
  }

  lemma CommitSetsTold(h: History, h': History)
    requires Told(h) && Pending(h.bridge)
    requires h' == h.(head := h.waiting, bridge := Commit(h.bridge), stored := h'.stored,
                      epochs := if h.bridge.fromNextEpoch then h.epochs + [h.waiting.value] else h.epochs)
    ensures SetsTold(h')
  {
    var s, b := h.bridge, h.waiting.value;
    if s.fromNextEpoch {
      ExtendEpochs(h.epochs, b);
      CommitRotates(s, h.epochs[|h.epochs| - 1].nextBps.value.stakes, b.nextBps.value.stakes);
    }
  }

  lemma CommitStoredTold(h: History, h': History)
    requires StoredTold(h) && WaitingTold(h) && Pending(h.bridge) && h'.bridge == Commit(h.bridge)
    requires h'.stored == h.stored[h.waiting.value.innerLite.height := h.waiting.value]
    ensures StoredTold(h')
  {
  }

  /** Committing what is due keeps the account. */
  lemma CommitTold(h: History, now: nat, h': History)
    requires Told(h) && h' == Committed(h, now).(bridge := Settle(h.bridge, now))
    ensures SetsTold(h') && StoredTold(h')
  {
    if Due(h.bridge, now) {
      CommitSetsTold(h, h');
      CommitStoredTold(h, h');
    }
  }

  lemma AddTold(cfg: Config, h: History, now: nat, sender: Address, b: LightClientBlock, s': Bridge)
    requires Told(h) && Exec(cfg, h.bridge, now, AddLightClientBlock(sender, b)) == Some(s')
    ensures Told(Follow(cfg, h, now, AddLightClientBlock(sender, b)))
  {
    var h1 := Committed(h, now).(bridge := Settle(h.bridge, now));
    CommitTold(h, now, h1);
    AddLeaves(cfg, h.bridge, now, sender, b, s');
    AddChecked(cfg, h.bridge, now, sender, b);
    InstallTold(h1, b, Follow(cfg, h, now, AddLightClientBlock(sender, b)));
  }

  lemma AddChecked(cfg: Config, s: Bridge, now: nat, sender: Address, b: LightClientBlock)
    requires Exec(cfg, s, now, AddLightClientBlock(sender, b)).Some?
    ensures var s1 := Settle(s, now);
            && s.initialized && s1.initialized && Exec(cfg, s, now, AddLightClientBlock(sender, b)).value.initialized
            && (b.innerLite.epochId == s1.head.epochId || b.innerLite.epochId == s1.head.nextEpochId)
            && (b.innerLite.epochId != s1.head.epochId ==> b.nextBps.Some? && b.nextBps.value.hash == b.innerLite.nextBpHash)
  {
  }

  /** A block that waits on an account with nothing due. */
  lemma InstallTold(h: History, b: LightClientBlock, h': History)
    requires SetsTold(h) && StoredTold(h) && h.bridge.initialized
    requires h' == h.(bridge := h'.bridge, waiting := Some(b)) && h'.bridge.initialized
    requires h'.bridge.head == h.bridge.head && h'.bridge.current == h.bridge.current && h'.bridge.next == h.bridge.next
    requires h'.bridge.hashes == h.bridge.hashes && h'.bridge.roots == h.bridge.roots && Describes(h'.bridge.untrusted, b)
    requires b.innerLite.epochId == h.bridge.head.epochId || b.innerLite.epochId == h.bridge.head.nextEpochId
    requires h'.bridge.fromNextEpoch == (b.innerLite.epochId != h.bridge.head.epochId)
    requires h'.bridge.fromNextEpoch ==> b.nextBps.Some? && b.nextBps.value.hash == b.innerLite.nextBpHash
                                         && Holds(h'.bridge.untrustedNext, b.nextBps.value.stakes)
    ensures Told(h')
  {
  }

  lemma InitTold(cfg: Config, h: History, now: nat, call: Call)
    requires Told(h) && Countable(call) && (call.InitWithValidators? || call.InitWithBlock?) && Ordered(h.bridge)
    ensures Told(Follow(cfg, h, now, call))
  {
    match call
    case InitWithValidators(vs) =>
      InitValidatorsExactly(cfg, h.bridge, now, vs);
    case InitWithBlock(b) =>
      InitBlockExactly(cfg, h.bridge, now, b);
  }

  lemma MoneyTold(cfg: Config, h: History, now: nat, call: Call)
    requires Told(h) && (call.Deposit? || call.Withdraw? || call.Challenge?)
    ensures Told(Follow(cfg, h, now, call))
  {
  }

  lemma FollowTold(cfg: Config, h: History, now: nat, call: Call)
    requires Told(h) && Countable(call) && Ordered(h.bridge)
    ensures Told(Follow(cfg, h, now, call)) && Follow(cfg, h, now, call).bridge == Next(cfg, h.bridge, now, call)
  {
    match call
    case AddLightClientBlock(sender, b) =>
      var r := Exec(cfg, h.bridge, now, call);
      if r.Some? {
        AddTold(cfg, h, now, sender, b, r.value);
      }
    case InitWithValidators(_) => InitTold(cfg, h, now, call);
    case InitWithBlock(_) => InitTold(cfg, h, now, call);
    case _ => MoneyTold(cfg, h, now, call);
  }

  lemma {:induction false} RecountTold(cfg: Config, h: History, es: seq<Event>)
    requires Told(h) && AllCountable(es) && Ordered(h.bridge)
    ensures Told(Recount(cfg, h, es)) && Recount(cfg, h, es).bridge == Run(cfg, h.bridge, es)
    decreases |es|
  {
    if es != [] {
      FollowTold(cfg, h, es[0].now, es[0].call);
      StepOrdered(cfg, h.bridge, es[0].now, es[0].call);
      RecountTold(cfg, Follow(cfg, h, es[0].now, es[0].call), es[1..]);
    }
  }

  /** In every reachable state the two sets hold the lists of the initialisation or those that committed blocks brought, in
      epoch order, each under the hash its block announced. */
  lemma EpochsInOrder(cfg: Config, es: seq<Event>, h: History)
    requires AllCountable(es) && h == Recount(cfg, BEGINNING, es)
    ensures h.bridge == Run(cfg, DEPLOYED, es) && SetsTold(h)
  {
    RecountTold(cfg, BEGINNING, es);
  }

  /** The block whose hash and root the views report at a height. */
  function BlockAt(h: History, now: nat, n: U64): Option<LightClientBlock> {
    if n in h.stored then Some(h.stored[n])
    else if Due(h.bridge, now) && n == h.bridge.untrusted.height then h.waiting
    else None
  }

  /** The views report the hash and the root of one submitted block of that height, or zero. */
  lemma ViewsOfBlocks(cfg: Config, es: seq<Event>, h: History, now: nat, n: U64)
    requires AllCountable(es) && h == Recount(cfg, BEGINNING, es)
    ensures var b := BlockAt(h, now, n);
            && (b.Some? ==> b.value.innerLite.height == n)
            && (b.Some? && b.value.hash != ZERO32 ==> BlockHashes(h.bridge, now, n) == b.value.hash)
            && (b.Some? && b.value.innerLite.blockMerkleRoot != ZERO32 ==>
                  BlockMerkleRoots(h.bridge, now, n) == b.value.innerLite.blockMerkleRoot)
            && (b.None? ==> BlockHashes(h.bridge, now, n) == ZERO32 && BlockMerkleRoots(h.bridge, now, n) == ZERO32)
  {
    RecountTold(cfg, BEGINNING, es);
  }

  /** The list that the waiting block is checked against. */
  function CheckedList(h: History): seq<ValidatorStake> {
    if |h.epochs| == 0 || (|h.epochs| == 1 && !h.bridge.fromNextEpoch) then h.first
    else
      var b := h.epochs[|h.epochs| - if h.bridge.fromNextEpoch then 1 else 2];
      if b.nextBps.Some? then b.nextBps.value.stakes else []
  }

  /** What `bridgeState` tells the watchdog: inside a window the head's height, the timestamp of the waiting block, the end
      of its window and the number of producers it is checked against; otherwise the height of the last block. */
  lemma StateOfBlocks(cfg: Config, es: seq<Event>, h: History, now: nat)
    requires AllCountable(es) && h == Recount(cfg, BEGINNING, es) && h.bridge.initialized
    ensures var v := StateView(h.bridge, now);
            if now < h.bridge.lastValidAt then
              && h.head.Some? && h.waiting.Some?
              && v == BridgeState(h.head.value.innerLite.height, h.waiting.value.innerLite.timestamp, h.bridge.lastValidAt,
                                  |CheckedList(h)|)
            else
              var b := if Pending(h.bridge) then h.waiting else h.head;
              b.Some? && v == BridgeState(b.value.innerLite.height, 0, 0, 0)
  {
    RecountTold(cfg, BEGINNING, es);
  }
}
