/** The watchdog beside the bridge: bridge calls interleaved with the steps of its signature scan,
    and what the bridge then never reports. */
module Watchdog {
  import opened Prelude
  import opened NearTypes
  import opened NearBridgeSpec
  import opened NearBridgeProofs
  import opened NearBridgeTheorems

  /** Where the scan stands: about to check signature `next` of `count`, or about to challenge. */
  datatype Scan = Idle | Checking(next: nat, count: nat) | Challenging(index: nat)

  /** A submitted block with the producer set `_checkBp` counted and the approvals it counted. */
  datatype Evidence = Evidence(info: BlockInfo, producers: ProducerSet, approvals: seq<Option<Signature>>)

  /** The bridge, the scan, and three history variables: whether no block was accepted since the
      scan began, whether a full scan ran inside the present window, and the evidence behind the
      untrusted block and behind every committed one. */
  datatype World = World(bridge: Bridge, scan: Scan, undisturbed: bool, covered: bool,
                         pending: Evidence, committed: map<U64, Evidence>, initHeight: U64)

  datatype Step =
    | Tx(call: Call)
    | Begin
    | Check
    | Accuse(receiver: Address, accepts: bool)
    | GiveUp

  const START: World := World(DEPLOYED, Idle, false, false, Evidence(NO_BLOCK, NO_PRODUCERS, []), map[], 0)

  function Advance(cfg: Config, w: World, now: nat, step: Step): World {
    match step
    case Tx(call) => Transact(cfg, w, now, call)
    case Begin =>
      if StateView(w.bridge, now).nextValidAt == 0 then w.(scan := Idle)
      else w.(scan := Checking(0, StateView(w.bridge, now).numBlockProducers), undisturbed := true)
    case Check => CheckOne(cfg, w, now)
    case Accuse(receiver, accepts) =>
      if w.scan.Challenging? then Transact(cfg, w, now, Challenge(receiver, w.scan.index, accepts)).(scan := Idle) else w
    case GiveUp => w.(scan := Idle)
  }

  /** A reverted check means a skipped signature; the scan that has looked at every index is complete. */
  function CheckOne(cfg: Config, w: World, now: nat): World {
    if !w.scan.Checking? then w
    else if w.scan.next >= w.scan.count then
      w.(scan := Idle, covered := w.covered || (w.undisturbed && now < w.bridge.lastValidAt))
    else if CheckSignature(cfg, w.bridge, w.scan.next) == Some(false) then w.(scan := Challenging(w.scan.next))
    else w.(scan := Checking(w.scan.next + 1, w.scan.count))
  }

  function Transact(cfg: Config, w: World, now: nat, call: Call): World {
    var r := Exec(cfg, w.bridge, now, call);
    if r.None? then w
    else
      var w1 := w.(bridge := r.value);
      match call
      case InitWithBlock(b) => w1.(initHeight := b.innerLite.height)
      case AddLightClientBlock(_, b) =>
        w1.(undisturbed := false, covered := false,
            pending := Evidence(InfoOf(b), CheckedSet(r.value), b.approvals),
            committed := if Due(w.bridge, now) then w.committed[w.bridge.untrusted.height := w.pending] else w.committed)
      case _ => w1
  }

  datatype TimedStep = TimedStep(now: nat, step: Step)

  function Trace(cfg: Config, w: World, es: seq<TimedStep>): World
    decreases |es|
  {
    if es == [] then w else Trace(cfg, Advance(cfg, w, es[0].now, es[0].step), es[1..])
  }

  /** The assumption on the watchdog: whenever the clock has reached the end of a challenge window
      and the block is still there, a full scan (with any challenge it raised) ran inside the window. */
  predicate Watched(w: World, now: nat) {
    Due(w.bridge, now) ==> w.covered
  }

  predicate Diligent(cfg: Config, w: World, t: nat, es: seq<TimedStep>, end: nat)
    decreases |es|
  {
    if es == [] then t <= end && Watched(w, end)
    else t <= es[0].now && Watched(w, es[0].now)
         && Diligent(cfg, Advance(cfg, w, es[0].now, es[0].step), es[0].now, es[1..], end)
  }

  // ----- evidence -----

  ghost predicate ValidAt(cfg: Config, e: Evidence, i: nat) {
    && i < |e.approvals| && e.approvals[i].Some? && i in e.producers.slots
    && cfg.sigOk(e.info.height, e.info.nextHash, e.approvals[i].value, e.producers.slots[i].publicKey)
  }

  /** The producers whose signature in the evidence is valid. */
  ghost function ValidSigners(cfg: Config, e: Evidence): set<nat> {
    set i: nat | i < e.producers.length && ValidAt(cfg, e, i)
  }

  ghost function ValidStake(cfg: Config, e: Evidence): nat {
    Weight(e.producers.slots, ValidSigners(cfg, e), e.producers.length)
  }

  /** Valid signatures from strictly more than two thirds of the stake. */
  ghost predicate Certified(cfg: Config, e: Evidence) {
    SetOk(e.producers) && 3 * ValidStake(cfg, e) > 2 * e.producers.totalStake
  }

  /** Two certified blocks checked against the same producers share valid signers with more than a
      third of the stake. */
  lemma SharedSigners(cfg: Config, e1: Evidence, e2: Evidence)
    requires Certified(cfg, e1) && Certified(cfg, e2) && SameProducers(e1.producers, e2.producers)
    ensures 3 * Weight(e1.producers.slots, ValidSigners(cfg, e1) * ValidSigners(cfg, e2), e1.producers.length)
            > e1.producers.totalStake
  {
    var ps := e1.producers;
    WeightFrame(e2.producers.slots, ps.slots, ValidSigners(cfg, e2), ValidSigners(cfg, e2), ps.length);
    WeightOverlap(ps.slots, ValidSigners(cfg, e1), ValidSigners(cfg, e2), ps.length);
  }

  // ----- the invariant -----

  /** The evidence kept for the untrusted block is what the contract would read in a challenge. */
  ghost predicate Faithful(w: World) {
    Pending(w.bridge) ==>
      && w.pending.info == w.bridge.untrusted
      && w.pending.producers == CheckedSet(w.bridge)
      && w.pending.producers.length <= |w.pending.approvals|
      && (forall i: nat :: i < |w.pending.approvals| ==> i in w.bridge.approvals && w.bridge.approvals[i] == w.pending.approvals[i])
  }

  /** No invalid signature among the first `n`. */
  ghost predicate Clean(cfg: Config, b: Bridge, n: nat) {
    forall i: nat :: i < n ==> CheckSignature(cfg, b, i) != Some(false)
  }

  /** What the scan has established so far. */
  ghost predicate ScanOk(cfg: Config, w: World) {
    Pending(w.bridge) ==>
      && (w.covered ==> Clean(cfg, w.bridge, CheckedSet(w.bridge).length))
      && (w.undisturbed && w.scan.Checking? ==>
            w.scan.count == CheckedSet(w.bridge).length && Clean(cfg, w.bridge, w.scan.next))
      && (w.undisturbed && w.scan.Challenging? ==> CheckSignature(cfg, w.bridge, w.scan.index) == Some(false))
  }

  /** Every stored hash and root beyond the initial block has certified evidence. */
  ghost predicate Backed(cfg: Config, w: World) {
    && (forall h :: (h in w.bridge.hashes || h in w.bridge.roots) && h != w.initHeight ==>
          && h in w.committed && Certified(cfg, w.committed[h]) && w.committed[h].info.height == h
          && h in w.bridge.hashes && w.bridge.hashes[h] == w.committed[h].info.hash
          && h in w.bridge.roots && w.bridge.roots[h] == w.committed[h].info.merkleRoot)
    && (!w.bridge.initialized ==> w.bridge.hashes == map[] && w.bridge.roots == map[])
  }

  ghost predicate WorldInv(cfg: Config, w: World, t: nat) {
    Inv(cfg, w.bridge, t) && Faithful(w) && ScanOk(cfg, w) && Backed(cfg, w)
  }

  /** A clean untrusted block is certified: what `_checkBp` counted on trust is in fact valid. */
  lemma CleanIsCertified(cfg: Config, w: World, t: nat)
    requires WorldInv(cfg, w, t) && Pending(w.bridge) && Clean(cfg, w.bridge, CheckedSet(w.bridge).length)
    ensures Certified(cfg, w.pending)
  {
    var ps := CheckedSet(w.bridge);
    forall i: nat | i < ps.length ensures i in Approving(w.bridge.approvals, ps.length) <==> i in ValidSigners(cfg, w.pending) {
      assert CheckSignature(cfg, w.bridge, i) != Some(false);
    }
    WeightFrame(ps.slots, ps.slots, Approving(w.bridge.approvals, ps.length), ValidSigners(cfg, w.pending), ps.length);
  }

  lemma TransactFaithful(cfg: Config, w: World, t: nat, now: nat, call: Call)
    requires Faithful(w) && Ordered(w.bridge)
    ensures Faithful(Transact(cfg, w, now, call))
  {
  }

  lemma TransactScan(cfg: Config, w: World, now: nat, call: Call)
    requires ScanOk(cfg, w) && Ordered(w.bridge)
    ensures ScanOk(cfg, Transact(cfg, w, now, call))
  {
    var w' := Transact(cfg, w, now, call);
    if Pending(w'.bridge) && !call.AddLightClientBlock? {
      forall i: nat ensures CheckSignature(cfg, w'.bridge, i) == CheckSignature(cfg, w.bridge, i) {}
    }
  }

  /** Committing the untrusted block adds its evidence under its height. */
  lemma CommitBacked(cfg: Config, w: World, w': World)
    requires Backed(cfg, w) && Certified(cfg, w.pending) && w.pending.info == w.bridge.untrusted && w.bridge.initialized
    requires w'.bridge.hashes == w.bridge.hashes[w.bridge.untrusted.height := w.bridge.untrusted.hash]
    requires w'.bridge.roots == w.bridge.roots[w.bridge.untrusted.height := w.bridge.untrusted.merkleRoot]
    requires w'.committed == w.committed[w.bridge.untrusted.height := w.pending]
    requires w'.initHeight == w.initHeight && w'.bridge.initialized
    ensures Backed(cfg, w')
  {
  }

  /** Nothing is stored, or the initial block alone. */
  lemma SameBacked(cfg: Config, w: World, w': World)
    requires Backed(cfg, w) && w'.committed == w.committed
    requires || (w'.bridge.hashes == w.bridge.hashes && w'.bridge.roots == w.bridge.roots && w'.initHeight == w.initHeight
                 && w'.bridge.initialized == w.bridge.initialized)
             || (!w.bridge.initialized && w'.bridge.initialized && w'.bridge.hashes.Keys == w.bridge.hashes.Keys + {w'.initHeight}
                 && w'.bridge.roots.Keys == w.bridge.roots.Keys + {w'.initHeight})
    ensures Backed(cfg, w')
  {
  }

  lemma AddBacked(cfg: Config, w: World, t: nat, now: nat, sender: Address, b: LightClientBlock)
    requires WorldInv(cfg, w, t) && Watched(w, now)
    ensures Backed(cfg, Transact(cfg, w, now, AddLightClientBlock(sender, b)))
  {
    var r := ExecAdd(cfg, w.bridge, now, sender, b);
    var w' := Transact(cfg, w, now, AddLightClientBlock(sender, b));
    if r.Some? {
      AddStores(cfg, w.bridge, now, sender, b);
      if Due(w.bridge, now) {
        CleanIsCertified(cfg, w, t);
        CommitBacked(cfg, w, w');
      } else {
        SameBacked(cfg, w, w');
      }
    }
  }

  lemma AddStores(cfg: Config, s: Bridge, now: nat, sender: Address, b: LightClientBlock)
    ensures var r := ExecAdd(cfg, s, now, sender, b);
            r.Some? ==> && s.initialized && r.value.initialized
                        && r.value.hashes == Settle(s, now).hashes && r.value.roots == Settle(s, now).roots
  {
  }

  /** Other calls store nothing, except that the first block is stored once. */
  lemma OtherBacked(cfg: Config, w: World, now: nat, call: Call)
    requires Backed(cfg, w) && !call.AddLightClientBlock?
    ensures Backed(cfg, Transact(cfg, w, now, call))
  {
    if call.InitWithBlock? {
      SameBacked(cfg, w, Transact(cfg, w, now, call));
    }
  }

  lemma TransactBacked(cfg: Config, w: World, t: nat, now: nat, call: Call)
    requires WorldInv(cfg, w, t) && Watched(w, now)
    ensures Backed(cfg, Transact(cfg, w, now, call))
  {
    if call.AddLightClientBlock? {
      AddBacked(cfg, w, t, now, call.sender, call.block);
    } else {
      OtherBacked(cfg, w, now, call);
    }
  }

  /** Steps of the scan leave the bridge and its evidence alone. */
  lemma ScanWorld(cfg: Config, w: World, t: nat, now: nat, w': World)
    requires WorldInv(cfg, w, t) && t <= now
    requires w' == w.(scan := w'.scan, undisturbed := w'.undisturbed, covered := w'.covered) && ScanOk(cfg, w')
    ensures WorldInv(cfg, w', now)
  {
  }

  lemma CheckScan(cfg: Config, w: World, now: nat, step: Step)
    requires ScanOk(cfg, w) && (step.Begin? || step.Check? || step.GiveUp?)
    ensures ScanOk(cfg, Advance(cfg, w, now, step))
  {
  }

  lemma StepWorld(cfg: Config, w: World, t: nat, now: nat, step: Step)
    requires WorldInv(cfg, w, t) && t <= now && Watched(w, now)
    ensures WorldInv(cfg, Advance(cfg, w, now, step), now)
  {
    var w' := Advance(cfg, w, now, step);
    match step
    case Tx(call) =>
      TransactWorld(cfg, w, t, now, call);
    case Accuse(receiver, accepts) =>
      if w.scan.Challenging? {
        TransactWorld(cfg, w, t, now, Challenge(receiver, w.scan.index, accepts));
        ScanWorld(cfg, Transact(cfg, w, now, Challenge(receiver, w.scan.index, accepts)), now, now, w');
      } else {
        ScanWorld(cfg, w, t, now, w);
      }
    case _ =>
      CheckScan(cfg, w, now, step);
      ScanWorld(cfg, w, t, now, w');
  }

  lemma TransactWorld(cfg: Config, w: World, t: nat, now: nat, call: Call)
    requires WorldInv(cfg, w, t) && t <= now && Watched(w, now)
    ensures WorldInv(cfg, Transact(cfg, w, now, call), now)
  {
    StepInv(cfg, w.bridge, t, now, call);
    TransactFaithful(cfg, w, t, now, call);
    TransactScan(cfg, w, now, call);
    TransactBacked(cfg, w, t, now, call);
  }

  lemma {:induction false} TraceWorld(cfg: Config, w: World, t: nat, es: seq<TimedStep>, end: nat)
    requires WorldInv(cfg, w, t) && Diligent(cfg, w, t, es, end)
    ensures WorldInv(cfg, Trace(cfg, w, es), end) && Watched(Trace(cfg, w, es), end)
    decreases |es|
  {
    if es != [] {
      StepWorld(cfg, w, t, es[0].now, es[0].step);
      TraceWorld(cfg, Advance(cfg, w, es[0].now, es[0].step), es[0].now, es[1..], end);
    }
  }

  /** The evidence behind what the views report at height `h`. */
  function EvidenceFor(w: World, now: nat, h: U64): Option<Evidence> {
    if Due(w.bridge, now) && h == w.bridge.untrusted.height then Some(w.pending)
    else if h in w.committed then Some(w.committed[h])
    else None
  }

  lemma ReportedInWorld(cfg: Config, w: World, now: nat, h: U64)
    requires WorldInv(cfg, w, now) && Watched(w, now) && h != w.initHeight
    requires BlockHashes(w.bridge, now, h) != ZERO32 || BlockMerkleRoots(w.bridge, now, h) != ZERO32
    ensures var e := EvidenceFor(w, now, h);
            && e.Some? && Certified(cfg, e.value) && e.value.info.height == h
            && e.value.info.hash == BlockHashes(w.bridge, now, h)
            && e.value.info.merkleRoot == BlockMerkleRoots(w.bridge, now, h)
  {
    if Due(w.bridge, now) {
      CleanIsCertified(cfg, w, now);
    }
  }

  /** If a full scan completes inside every challenge window, every block the bridge ever reports
      beyond the initial one carries valid signatures from more than two thirds of the stake of
      the set it was checked against. */
  lemma ReportedIsCertified(cfg: Config, es: seq<TimedStep>, w: World, now: nat, h: U64)
    requires Diligent(cfg, START, 0, es, now) && w == Trace(cfg, START, es) && h != w.initHeight
    requires BlockHashes(w.bridge, now, h) != ZERO32 || BlockMerkleRoots(w.bridge, now, h) != ZERO32
    ensures var e := EvidenceFor(w, now, h);
            && e.Some? && Certified(cfg, e.value) && e.value.info.height == h
            && e.value.info.hash == BlockHashes(w.bridge, now, h)
            && e.value.info.merkleRoot == BlockMerkleRoots(w.bridge, now, h)
  {
    TraceWorld(cfg, START, 0, es, now);
    ReportedInWorld(cfg, w, now, h);
  }

  // ----- one full scan -----

  /** Whatever happens while a scan runs, from time `t` on and before `end`: checks, calls by anyone, and challenges
      whose receiver takes the reward, but no submission that is accepted. */
  predicate Quiet(cfg: Config, w: World, t: nat, es: seq<TimedStep>, end: nat)
    decreases |es|
  {
    es != [] ==>
      && t <= es[0].now < end
      && QuietStep(cfg, w, es[0].now, es[0].step)
      && Quiet(cfg, Advance(cfg, w, es[0].now, es[0].step), es[0].now, es[1..], end)
  }

  predicate QuietStep(cfg: Config, w: World, now: nat, step: Step) {
    match step
    case Tx(call) => call.AddLightClientBlock? ==> Exec(cfg, w.bridge, now, call).None?
    case Check => true
    case Accuse(_, accepts) => accepts
    case _ => false
  }

  function Checks(es: seq<TimedStep>): nat {
    if es == [] then 0 else (if es[0].step.Check? then 1 else 0) + Checks(es[1..])
  }

  function LastStep(t: nat, es: seq<TimedStep>): nat {
    if es == [] then t else es[|es| - 1].now
  }

  /** The block is gone, or a full scan found nothing wrong with it. */
  predicate Decided(w: World) {
    w.covered || !Pending(w.bridge)
  }

  /** The scan is through, or about to challenge, or has at most `n` checks to make. */
  predicate Within(w: World, n: nat) {
    || Decided(w)
    || (w.undisturbed && w.scan.Challenging?)
    || (w.undisturbed && w.scan.Checking? && w.scan.next <= w.scan.count < w.scan.next + n)
  }

  /** The window of the block the scan looks at ends at `end`. */
  predicate Until(w: World, end: nat) {
    Pending(w.bridge) ==> w.bridge.lastValidAt == end
  }

  /** Calls other than submissions leave the scan alone, and the window unless they end it. */
  lemma CallWithin(cfg: Config, w: World, t: nat, now: nat, call: Call, end: nat, n: nat)
    requires WorldInv(cfg, w, t) && Until(w, end) && Within(w, n) && QuietStep(cfg, w, now, Tx(call))
    ensures var w' := Transact(cfg, w, now, call); Until(w', end) && Within(w', n)
  {
  }

  lemma AccuseDecides(cfg: Config, w: World, t: nat, now: nat, receiver: Address, end: nat)
    requires WorldInv(cfg, w, t) && t <= now < end && Until(w, end) && w.undisturbed && w.scan.Challenging?
    ensures Decided(Advance(cfg, w, now, Accuse(receiver, true)))
  {
    if Pending(w.bridge) {
      ChallengeIsPaid(cfg, w.bridge, now, receiver, w.scan.index, true);
    }
  }

  lemma QuietWithin(cfg: Config, w: World, t: nat, now: nat, step: Step, end: nat, n: nat)
    requires WorldInv(cfg, w, t) && t <= now < end && Until(w, end) && Within(w, n) && QuietStep(cfg, w, now, step)
    ensures var w' := Advance(cfg, w, now, step);
            Until(w', end) && Within(w', if step.Check? && n > 0 then n - 1 else n)
  {
    match step
    case Tx(call) =>
      CallWithin(cfg, w, t, now, call, end, n);
    case Accuse(receiver, _) =>
      if w.scan.Challenging? {
        CallWithin(cfg, w, t, now, Challenge(receiver, w.scan.index, true), end, n);
        if w.undisturbed {
          AccuseDecides(cfg, w, t, now, receiver, end);
        }
      }
    case _ =>
  }

  /** Through every interleaving a scan makes its checks in turn. */
  lemma {:induction false} QuietTrace(cfg: Config, w: World, t: nat, es: seq<TimedStep>, end: nat, n: nat)
    requires WorldInv(cfg, w, t) && Until(w, end) && Within(w, n) && Quiet(cfg, w, t, es, end) && Checks(es) >= n
    ensures var w' := Trace(cfg, w, es); WorldInv(cfg, w', LastStep(t, es)) && Until(w', end) && Within(w', 0)
    decreases |es|
  {
    if es != [] {
      var now, step := es[0].now, es[0].step;
      StepWorld(cfg, w, t, now, step);
      QuietWithin(cfg, w, t, now, step, end, n);
      QuietTrace(cfg, Advance(cfg, w, now, step), now, es[1..], end, if step.Check? && n > 0 then n - 1 else n);
    }
  }

  /** A scan that begins inside the window of a block and, before the window ends, makes one check more than there are
      producers and then challenges if it found something, decides about the block, whatever calls come between. */
  lemma FullScan(cfg: Config, w: World, t: nat, es: seq<TimedStep>, now: nat, receiver: Address)
    requires WorldInv(cfg, w, t) && t < w.bridge.lastValidAt
    requires Quiet(cfg, Advance(cfg, w, t, Begin), t, es, w.bridge.lastValidAt)
    requires Checks(es) > StateView(w.bridge, t).numBlockProducers
    requires LastStep(t, es) <= now < w.bridge.lastValidAt
    ensures var w' := Trace(cfg, Advance(cfg, w, t, Begin), es);
            Decided(Advance(cfg, w', now, Accuse(receiver, true)))
  {
    var w1, end := Advance(cfg, w, t, Begin), w.bridge.lastValidAt;
    StepWorld(cfg, w, t, t, Begin);
    QuietTrace(cfg, w1, t, es, end, StateView(w.bridge, t).numBlockProducers + 1);
    var w' := Trace(cfg, w1, es);
    QuietWithin(cfg, w', LastStep(t, es), now, Accuse(receiver, true), end, 0);
  }

  // ----- from scans to diligence -----

  predicate Submits(cfg: Config, w: World, now: nat, step: Step) {
    step.Tx? && step.call.AddLightClientBlock? && Exec(cfg, w.bridge, now, step.call).Some?
  }

  /** No submission is accepted, and the clock goes forward from `t`. */
  predicate Unchanged(cfg: Config, w: World, t: nat, es: seq<TimedStep>)
    decreases |es|
  {
    es != [] ==>
      && t <= es[0].now && !Submits(cfg, w, es[0].now, es[0].step)
      && Unchanged(cfg, Advance(cfg, w, es[0].now, es[0].step), es[0].now, es[1..])
  }

  /** What is decided stays so until the next accepted submission. */
  lemma StaysDecided(cfg: Config, w: World, now: nat, step: Step)
    requires Decided(w) && !Submits(cfg, w, now, step)
    ensures Decided(Advance(cfg, w, now, step))
  {
  }

  lemma {:induction false} DecidedDiligent(cfg: Config, w: World, t: nat, es: seq<TimedStep>, end: nat)
    requires Decided(w) && Unchanged(cfg, w, t, es) && LastStep(t, es) <= end
    ensures Diligent(cfg, w, t, es, end)
    decreases |es|
  {
    if es != [] {
      StaysDecided(cfg, w, es[0].now, es[0].step);
      DecidedDiligent(cfg, Advance(cfg, w, es[0].now, es[0].step), es[0].now, es[1..], end);
    }
  }

  lemma {:induction false} QuietDiligent(cfg: Config, w: World, t: nat, es: seq<TimedStep>, now: nat, end: nat, n: nat)
    requires WorldInv(cfg, w, t) && Until(w, end) && Within(w, n) && Quiet(cfg, w, t, es, end) && LastStep(t, es) <= now < end
    ensures Diligent(cfg, w, t, es, now)
    decreases |es|
  {
    if es != [] {
      var at, step := es[0].now, es[0].step;
      StepWorld(cfg, w, t, at, step);
      QuietWithin(cfg, w, t, at, step, end, n);
      QuietDiligent(cfg, Advance(cfg, w, at, step), at, es[1..], now, end, if step.Check? && n > 0 then n - 1 else n);
    }
  }

  lemma {:induction false} DiligentConcat(cfg: Config, w: World, t: nat, a: seq<TimedStep>, b: seq<TimedStep>, now: nat, end: nat)
    requires Diligent(cfg, w, t, a, now) && Diligent(cfg, Trace(cfg, w, a), now, b, end)
    ensures Diligent(cfg, w, t, a + b, end)
    decreases |a|
  {
    if a == [] {
      assert a + b == b;
      EarlierDiligent(cfg, w, t, now, b, end);
    } else {
      var w1 := Advance(cfg, w, a[0].now, a[0].step);
      TraceCons(cfg, w, a);
      DiligentCons(cfg, w, t, a, now);
      DiligentConcat(cfg, w1, a[0].now, a[1..], b, now, end);
      assert (a + b)[1..] == a[1..] + b && (a + b)[0] == a[0];
      DiligentCons(cfg, w, t, a + b, end);
    }
  }

  lemma TraceCons(cfg: Config, w: World, es: seq<TimedStep>)
    requires es != []
    ensures Trace(cfg, w, es) == Trace(cfg, Advance(cfg, w, es[0].now, es[0].step), es[1..])
  {
  }

  lemma DiligentCons(cfg: Config, w: World, t: nat, es: seq<TimedStep>, end: nat)
    requires es != []
    ensures Diligent(cfg, w, t, es, end) <==>
              t <= es[0].now && Watched(w, es[0].now)
              && Diligent(cfg, Advance(cfg, w, es[0].now, es[0].step), es[0].now, es[1..], end)
  {
  }

  lemma EarlierDiligent(cfg: Config, w: World, t: nat, now: nat, b: seq<TimedStep>, end: nat)
    requires t <= now && Diligent(cfg, w, now, b, end)
    ensures Diligent(cfg, w, t, b, end)
  {
  }

  /** A completed scan makes the watchdog diligent for its block: with a scan in the window, and anything but an
      accepted submission between and after, the assumption of `ReportedIsCertified` holds. */
  lemma ScanIsDiligent(cfg: Config, w: World, t: nat, es: seq<TimedStep>, now: nat, receiver: Address,
                       rest: seq<TimedStep>, end: nat)
    requires WorldInv(cfg, w, t) && t < w.bridge.lastValidAt
    requires Quiet(cfg, Advance(cfg, w, t, Begin), t, es, w.bridge.lastValidAt)
    requires Checks(es) > StateView(w.bridge, t).numBlockProducers
    requires LastStep(t, es) <= now < w.bridge.lastValidAt
    requires Unchanged(cfg, Advance(cfg, Trace(cfg, Advance(cfg, w, t, Begin), es), now, Accuse(receiver, true)), now, rest)
    requires LastStep(now, rest) <= end
    ensures Diligent(cfg, w, t, [TimedStep(t, Begin)] + (es + ([TimedStep(now, Accuse(receiver, true))] + rest)), end)
  {
    var w1, close := Advance(cfg, w, t, Begin), w.bridge.lastValidAt;
    var n := StateView(w.bridge, t).numBlockProducers + 1;
    FullScan(cfg, w, t, es, now, receiver);
    StepWorld(cfg, w, t, t, Begin);
    QuietDiligent(cfg, w1, t, es, now, close, n);
    QuietTrace(cfg, w1, t, es, close, n);
    var w2 := Trace(cfg, w1, es);
    var last := [TimedStep(now, Accuse(receiver, true))] + rest;
    assert last[1..] == rest;
    DecidedDiligent(cfg, Advance(cfg, w2, now, Accuse(receiver, true)), now, rest, end);
    assert Diligent(cfg, w2, now, last, end);
    DiligentConcat(cfg, w1, t, es, last, now, end);
    assert ([TimedStep(t, Begin)] + (es + last))[1..] == es + last;
  }
}
