/** Whole-run results about the NEAR light client on Ethereum: bonds, finality of what the views
    report, and lazy commit as a refinement of committing on time. */
module NearBridgeTheorems {
  import opened Prelude
  import opened NearTypes
  import opened NearBridgeSpec
  import opened NearBridgeProofs

  datatype Event = Event(now: nat, call: Call)

  /** The clock never goes back, and never before `t`. */
  predicate Timed(t: nat, es: seq<Event>) {
    && (forall i :: 0 <= i < |es| ==> t <= es[i].now)
    && (forall i, j :: 0 <= i < j < |es| ==> es[i].now <= es[j].now)
  }

  function Run(cfg: Config, s: Bridge, es: seq<Event>): Bridge
    decreases |es|
  {
    if es == [] then s else Run(cfg, Next(cfg, s, es[0].now, es[0].call), es[1..])
  }

  function LastTime(t: nat, es: seq<Event>): nat {
    if es == [] then t else es[|es| - 1].now
  }

  ghost predicate Inv(cfg: Config, s: Bridge, now: nat) {
    Solvent(cfg, s) && Bonded(cfg, s, now) && SetsOk(s) && Ordered(s) && Approved(s)
  }

  lemma StepInv(cfg: Config, s: Bridge, t: nat, now: nat, call: Call)
    requires Inv(cfg, s, t) && t <= now
    ensures Inv(cfg, Next(cfg, s, now, call), now)
  {
    StepSolvent(cfg, s, now, call);
    StepBonded(cfg, s, now, call);
    StepSets(cfg, s, now, call);
    StepOrdered(cfg, s, now, call);
    StepApproved(cfg, s, now, call);
  }

  lemma TimedTail(t: nat, es: seq<Event>)
    requires Timed(t, es) && es != []
    ensures t <= es[0].now && Timed(es[0].now, es[1..]) && LastTime(t, es) == LastTime(es[0].now, es[1..])
  {
  }

  lemma {:induction false} RunInv(cfg: Config, s: Bridge, t: nat, es: seq<Event>)
    requires Inv(cfg, s, t) && Timed(t, es)
    ensures Inv(cfg, Run(cfg, s, es), LastTime(t, es))
    decreases |es|
  {
    if es != [] {
      TimedTail(t, es);
      StepInv(cfg, s, t, es[0].now, es[0].call);
      RunInv(cfg, Next(cfg, s, es[0].now, es[0].call), es[0].now, es[1..]);
    }
  }

  /** The deployed contract satisfies the invariant, so every reachable state does. */
  lemma ReachableInv(cfg: Config, es: seq<Event>)
    requires Timed(0, es)
    ensures Inv(cfg, Run(cfg, DEPLOYED, es), LastTime(0, es))
  {
    RunInv(cfg, DEPLOYED, 0, es);
  }

  // ----- overflow -----

  predicate AllCountable(es: seq<Event>) {
    forall i :: 0 <= i < |es| ==> Countable(es[i].call)
  }

  lemma {:induction false} RunFits(cfg: Config, s: Bridge, es: seq<Event>)
    requires SetsFit(s) && AllCountable(es)
    ensures SetsFit(Run(cfg, s, es))
    decreases |es|
  {
    if es != [] {
      StepFits(cfg, s, es[0].now, es[0].call);
      RunFits(cfg, Next(cfg, s, es[0].now, es[0].call), es[1..]);
    }
  }

  /** Across every sequence of setting, copying and rotation the quorum test of each of the three sets is
      strictly more than two thirds of its stake: none of its overflow checks ever fires. */
  lemma QuorumNeverOverflows(cfg: Config, es: seq<Event>, ps: ProducerSet, approvals: seq<Option<Signature>>)
    requires Timed(0, es) && AllCountable(es)
    requires var s := Run(cfg, DEPLOYED, es); ps == s.current || ps == s.next || ps == s.untrustedNext
    ensures Fits(ps)
    ensures HasQuorum(ps, approvals)
            <==> ps.length <= |approvals| && 3 * Voted(ps, approvals, ps.length) > 2 * ps.totalStake
  {
    ReachableInv(cfg, es);
    RunFits(cfg, DEPLOYED, es);
    QuorumExactly(ps, approvals);
  }

  // ----- finality -----

  /** What a call at `now` leaves of the stored hashes and roots, and of the block that waits. */
  ghost predicate Extends(s: Bridge, s': Bridge, now: nat) {
    || (s'.hashes == s.hashes && s'.roots == s.roots && s'.untrusted == s.untrusted
        && (s'.lastValidAt == s.lastValidAt || (s'.lastValidAt == 0 && now < s.lastValidAt)))
    || (s'.hashes == Settle(s, now).hashes && s'.roots == Settle(s, now).roots
        && s'.untrusted.height > Settle(s, now).head.height)
    || (!s.initialized && s'.lastValidAt == s.lastValidAt)
  }

  lemma StepExtends(cfg: Config, s: Bridge, now: nat, call: Call)
    ensures Extends(s, Next(cfg, s, now, call), now)
  {
  }

  lemma ExtendsFinal(s: Bridge, s': Bridge, t: nat, now: nat, t': nat, h: U64)
    requires Ordered(s) && Extends(s, s', now) && t <= now <= t'
    ensures BlockHashes(s, t, h) != ZERO32 ==> BlockHashes(s', t', h) == BlockHashes(s, t, h)
    ensures BlockMerkleRoots(s, t, h) != ZERO32 ==> BlockMerkleRoots(s', t', h) == BlockMerkleRoots(s, t, h)
  {
  }

  /** One call, made at or after the time `t` of a first look, changes nothing a second look at `t'` sees. */
  lemma StepFinal(cfg: Config, s: Bridge, t: nat, now: nat, t': nat, call: Call, h: U64)
    requires Ordered(s) && t <= now <= t'
    ensures BlockHashes(s, t, h) != ZERO32 ==> BlockHashes(Next(cfg, s, now, call), t', h) == BlockHashes(s, t, h)
    ensures BlockMerkleRoots(s, t, h) != ZERO32 ==> BlockMerkleRoots(Next(cfg, s, now, call), t', h) == BlockMerkleRoots(s, t, h)
  {
    StepExtends(cfg, s, now, call);
    ExtendsFinal(s, Next(cfg, s, now, call), t, now, t', h);
  }

  /** Once a view returns a nonzero value it returns that value forever. */
  lemma {:induction false} Finality(cfg: Config, s: Bridge, t: nat, es: seq<Event>, t': nat, h: U64)
    requires Ordered(s) && Timed(t, es) && LastTime(t, es) <= t'
    ensures var s' := Run(cfg, s, es);
            && (BlockHashes(s, t, h) != ZERO32 ==> BlockHashes(s', t', h) == BlockHashes(s, t, h))
            && (BlockMerkleRoots(s, t, h) != ZERO32 ==> BlockMerkleRoots(s', t', h) == BlockMerkleRoots(s, t, h))
    decreases |es|
  {
    if es != [] {
      var s1 := Next(cfg, s, es[0].now, es[0].call);
      StepFinal(cfg, s, t, es[0].now, es[0].now, es[0].call, h);
      StepOrdered(cfg, s, es[0].now, es[0].call);
      Finality(cfg, s1, es[0].now, es[1..], t', h);
    }
  }

  // ----- lazy commit -----

  /** The contract that commits the moment the challenge period ends: every call finds the
      storage settled. */
  function EagerRun(cfg: Config, s: Bridge, es: seq<Event>): Bridge
    decreases |es|
  {
    if es == [] then s
    else EagerRun(cfg, Next(cfg, Settle(s, es[0].now), es[0].now, es[0].call), es[1..])
  }

  /** The views of a contract that has nothing left to commit read storage alone. */
  lemma ViewsSettle(s: Bridge, now: nat, h: U64)
    requires Ordered(s)
    ensures BlockHashes(s, now, h) == Lookup(Settle(s, now).hashes, h) == BlockHashes(Settle(s, now), now, h)
    ensures BlockMerkleRoots(s, now, h) == Lookup(Settle(s, now).roots, h) == BlockMerkleRoots(Settle(s, now), now, h)
    ensures StateView(s, now) == StateView(Settle(s, now), now)
    ensures StateView(s, now).currentHeight == Settle(s, now).head.height
  {
  }

  lemma StepSettles(cfg: Config, s: Bridge, now: nat, call: Call, t: nat)
    requires Ordered(s) && now <= t
    ensures Settle(Next(cfg, s, now, call), t) == Settle(Next(cfg, Settle(s, now), now, call), t)
  {
    if Due(s, now) {
      match call
      case AddLightClientBlock(sender, b) =>
        AddSettles(cfg, s, now, sender, b);
      case Deposit(_, _) =>
        DepositSettles(cfg, s, now, call);
      case Withdraw(_, _) =>
        WithdrawSettles(cfg, s, now, call);
      case _ =>
    }
  }

  /** Money moves without touching what a commit reads or writes. */
  lemma DepositSettles(cfg: Config, s: Bridge, now: nat, call: Call)
    requires call.Deposit?
    ensures Commit(Next(cfg, s, now, call)) == Next(cfg, Commit(s), now, call)
  {
  }

  lemma WithdrawSettles(cfg: Config, s: Bridge, now: nat, call: Call)
    requires call.Withdraw? && Due(s, now)
    ensures Commit(Next(cfg, s, now, call)) == Next(cfg, Commit(s), now, call)
  {
  }

  /** Submission commits what is due before anything else. */
  lemma AddSettles(cfg: Config, s: Bridge, now: nat, sender: Address, b: LightClientBlock)
    ensures ExecAdd(cfg, s, now, sender, b) == ExecAdd(cfg, Settle(s, now), now, sender, b)
  {
  }

  /** Lazy and eager commit agree, whenever both are looked at, on everything but what is still
      uncommitted: settling either gives the same storage. */
  lemma {:induction false} LazyRefinesEager(cfg: Config, s: Bridge, e: Bridge, t: nat, es: seq<Event>, t': nat)
    requires Ordered(s) && Ordered(e) && Timed(t, es) && LastTime(t, es) <= t'
    requires forall u :: t <= u ==> Settle(s, u) == Settle(e, u)
    ensures Settle(Run(cfg, s, es), t') == Settle(EagerRun(cfg, e, es), t')
    decreases |es|
  {
    if es == [] {
      assert Settle(s, t') == Settle(e, t');
    } else {
      var now, call := es[0].now, es[0].call;
      var s1, e1 := Next(cfg, s, now, call), Next(cfg, Settle(e, now), now, call);
      assert Settle(s, now) == Settle(e, now);
      forall u | now <= u ensures Settle(s1, u) == Settle(e1, u) {
        StepSettles(cfg, s, now, call, u);
      }
      StepOrdered(cfg, s, now, call);
      SettleOrdered(e, now);
      StepOrdered(cfg, Settle(e, now), now, call);
      LazyRefinesEager(cfg, s1, e1, now, es[1..], t');
    }
  }

  lemma SettleOrdered(s: Bridge, now: nat)
    requires Ordered(s)
    ensures Ordered(Settle(s, now))
  {
  }

  lemma {:induction false} EagerOrdered(cfg: Config, s: Bridge, es: seq<Event>)
    requires Ordered(s)
    ensures Ordered(EagerRun(cfg, s, es))
    decreases |es|
  {
    if es != [] {
      SettleOrdered(s, es[0].now);
      StepOrdered(cfg, Settle(s, es[0].now), es[0].now, es[0].call);
      EagerOrdered(cfg, Next(cfg, Settle(s, es[0].now), es[0].now, es[0].call), es[1..]);
    }
  }

  /** In every reachable state and at every time the views return what they would return had
      every block been committed on time. */
  lemma ViewsAgree(cfg: Config, es: seq<Event>, now: nat, h: U64)
    requires Timed(0, es) && LastTime(0, es) <= now
    ensures var lazy, eager := Run(cfg, DEPLOYED, es), Settle(EagerRun(cfg, DEPLOYED, es), now);
            && BlockHashes(lazy, now, h) == Lookup(eager.hashes, h)
            && BlockMerkleRoots(lazy, now, h) == Lookup(eager.roots, h)
            && StateView(lazy, now) == StateView(eager, now)
  {
    var lazy, eager := Run(cfg, DEPLOYED, es), EagerRun(cfg, DEPLOYED, es);
    LazyRefinesEager(cfg, DEPLOYED, DEPLOYED, 0, es, now);
    ReachableInv(cfg, es);
    EagerOrdered(cfg, DEPLOYED, es);
    ViewsSettle(lazy, now, h);
    ViewsSettle(eager, now, h);
  }
}
