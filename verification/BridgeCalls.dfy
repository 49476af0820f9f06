/** The bridge's calls as they arrive, with Borsh data in place of decoded values. */
module BridgeCalls {
  import opened Prelude
  import opened NearTypes
  import opened Borsh
  import opened BorshData
  import opened NearFormat
  import opened NearDecoder
  import Contract = NearBridge
  import opened NearBridgeSpec
  import opened NearBridgeProofs
  import opened NearBridgeTheorems

  /** A whole buffer as a validator list, and as a block. */
  function WholeStakes(raw: Bytes): Option<seq<ValidatorStake>> {
    match StakesCodec().decode(raw, 0)
    case None => None
    case Some(d) => if d.1 == |raw| then Some(d.0) else None
  }

  function WholeBlock(sha: Sha, raw: Bytes): Option<LightClientBlock> {
    match ParseLightClientBlock(sha, raw, 0)
    case None => None
    case Some(d) => if d.1 == |raw| then Some(d.0) else None
  }

  /** Data are a validator list exactly when they are its encoding, with nothing after it. */
  lemma WholeStakesExactly(raw: Bytes, vs: seq<ValidatorStake>)
    ensures WholeStakes(raw) == Some(vs) <==> StakesCodec().ok(vs) && raw == StakesCodec().encode(vs)
  {
    StakesExact();
    WholeBuffer(StakesCodec(), raw, vs);
  }

  /** A block leaves nothing over. */
  lemma WholeBlockExactly(sha: Sha, raw: Bytes, b: LightClientBlock)
    ensures WholeBlock(sha, raw) == Some(b) <==> ParseLightClientBlock(sha, raw, 0) == Some((b, |raw|))
  {
  }

  /** Deposits, withdrawals and challenges carry no data. */
  datatype DataCall =
    | Money(call: Call)
    | InitValidatorsData(raw: Bytes)
    | InitBlockData(raw: Bytes)
    | AddBlockData(sender: Address, raw: Bytes)

  /** The call with its data decoded; `None` reverts. */
  function Decoded(sha: Sha, call: DataCall): Option<Call> {
    match call
    case Money(c) => if c.Deposit? || c.Withdraw? || c.Challenge? then Some(c) else None
    case InitValidatorsData(raw) => var vs :- WholeStakes(raw); Some(Call.InitWithValidators(vs))
    case InitBlockData(raw) => var b :- WholeBlock(sha, raw); Some(Call.InitWithBlock(b))
    case AddBlockData(sender, raw) => var b :- WholeBlock(sha, raw); Some(Call.AddLightClientBlock(sender, b))
  }

  /** What a call does once its data are decoded, or fail to be. */
  function ExecDecoded(cfg: Config, s: Bridge, now: nat, call: Option<Call>): Option<Bridge> {
    match call
    case None => None
    case Some(c) => Exec(cfg, s, now, c)
  }

  function NextData(sha: Sha, cfg: Config, s: Bridge, now: nat, call: DataCall): Bridge {
    match Decoded(sha, call)
    case None => s
    case Some(c) => Next(cfg, s, now, c)
  }

  ghost predicate Outcome(r: Option<Bridge>, before: Bridge, ok: bool, after: Bridge) {
    ok == r.Some? && after == if ok then r.value else before
  }

  // ----- the three calls -----

  /** Decoding with the demand that nothing is left over. */
  method ReadBlock(sha: Sha, raw: Bytes) returns (b: Option<LightClientBlock>)
    ensures b == WholeBlock(sha, raw)
  {
    var data := new Data(raw);
    b := DecodeLightClientBlock(sha, data);
    if b.Some? && !data.Finished() {
      b := None;
    }
  }

  method ReadStakes(raw: Bytes) returns (vs: Option<seq<ValidatorStake>>)
    ensures vs == WholeStakes(raw)
  {
    var data := new Data(raw);
    vs := DecodeStakes(data);
    if vs.Some? && !data.Finished() {
      vs := None;
    }
  }

  method InitWithValidators(sha: Sha, bridge: Contract.NearBridge, now: nat, raw: Bytes) returns (ok: bool)
    modifies bridge
    ensures Outcome(ExecDecoded(bridge.cfg, old(bridge.Storage()), now, Decoded(sha, InitValidatorsData(raw))),
                    old(bridge.Storage()), ok, bridge.Storage())
  {
    var stakes := ReadStakes(raw);
    if stakes.None? {
      return false;
    }
    ok := bridge.InitWithValidators(stakes.value);
  }

  method InitWithBlock(sha: Sha, bridge: Contract.NearBridge, now: nat, raw: Bytes) returns (ok: bool)
    modifies bridge
    ensures Outcome(ExecDecoded(bridge.cfg, old(bridge.Storage()), now, Decoded(sha, InitBlockData(raw))),
                    old(bridge.Storage()), ok, bridge.Storage())
  {
    var b := ReadBlock(sha, raw);
    if b.None? {
      return false;
    }
    ok := bridge.InitWithBlock(b.value);
  }

  method AddLightClientBlock(sha: Sha, bridge: Contract.NearBridge, now: nat, sender: Address, raw: Bytes) returns (ok: bool)
    requires SetsOk(bridge.Storage())
    modifies bridge
    ensures Outcome(ExecDecoded(bridge.cfg, old(bridge.Storage()), now, Decoded(sha, AddBlockData(sender, raw))),
                    old(bridge.Storage()), ok, bridge.Storage())
  {
    var b := ReadBlock(sha, raw);
    if b.None? {
      return false;
    }
    ok := bridge.AddLightClientBlock(now, sender, b.value);
  }

  // ----- runs on data -----

  datatype DataEvent = DataEvent(now: nat, call: DataCall)

  function RunData(sha: Sha, cfg: Config, s: Bridge, es: seq<DataEvent>): Bridge
    decreases |es|
  {
    if es == [] then s else RunData(sha, cfg, NextData(sha, cfg, s, es[0].now, es[0].call), es[1..])
  }

  /** The calls of a run whose data decode. */
  function DecodedRun(sha: Sha, es: seq<DataEvent>): seq<Event> {
    if es == [] then [] else
      var c := Decoded(sha, es[0].call);
      (if c.None? then [] else [Event(es[0].now, c.value)]) + DecodedRun(sha, es[1..])
  }

  predicate Clocked(t: nat, es: seq<DataEvent>) {
    && (forall i :: 0 <= i < |es| ==> t <= es[i].now)
    && (forall i, j :: 0 <= i < j < |es| ==> es[i].now <= es[j].now)
  }

  /** Decoded lists are as short as their count of four bytes says. */
  lemma DecodedCountable(sha: Sha, call: DataCall)
    ensures var c := Decoded(sha, call); c.Some? ==> Countable(c.value)
  {
    StakesExact();
    match call
    case Money(_) =>
    case InitValidatorsData(raw) =>
      ListCountable(raw, 0);
    case InitBlockData(raw) =>
      BlockCountable(sha, raw);
    case AddBlockData(_, raw) =>
      BlockCountable(sha, raw);
  }

  lemma ListCountable(raw: Bytes, o: nat)
    ensures var p := StakesCodec().decode(raw, o); p.Some? ==> |p.value.0| <= MAX_U32
  {
    StakesExact();
    var p := StakesCodec().decode(raw, o);
    if p.Some? {
      assert ExactAt(StakesCodec(), raw, o, p.value.0);
    }
  }

  lemma BlockCountable(sha: Sha, raw: Bytes)
    ensures var p := ParseLightClientBlock(sha, raw, 0);
            p.Some? && p.value.0.nextBps.Some? ==> |p.value.0.nextBps.value.stakes| <= MAX_U32
  {
    var head := ParseHead(sha, raw, 0);
    if head.Some? {
      OptionCountable(sha, raw, head.value.1);
    }
  }

  lemma OptionCountable(sha: Sha, raw: Bytes, o: nat)
    ensures var p := ParseOptionalStakes(sha, raw, o);
            p.Some? && p.value.0.Some? ==> |p.value.0.value.stakes| <= MAX_U32
  {
    ListCountable(raw, o + 1);
  }

  lemma ConsTimed(t: nat, e: Event, es: seq<Event>)
    requires t <= e.now && Timed(e.now, es) && Countable(e.call) && AllCountable(es)
    ensures Timed(t, [e] + es) && AllCountable([e] + es)
  {
  }

  lemma ConsNone(t: nat, now: nat, es: seq<Event>)
    requires t <= now && Timed(now, es) && AllCountable(es)
    ensures Timed(t, [] + es) && AllCountable([] + es)
  {
    assert [] + es == es;
  }

  lemma {:induction false} DecodedRunIs(sha: Sha, t: nat, es: seq<DataEvent>)
    requires Clocked(t, es)
    ensures Timed(t, DecodedRun(sha, es)) && AllCountable(DecodedRun(sha, es))
    decreases |es|
  {
    if es != [] {
      var now, c := es[0].now, Decoded(sha, es[0].call);
      DecodedRunIs(sha, now, es[1..]);
      DecodedCountable(sha, es[0].call);
      if c.Some? {
        ConsTimed(t, Event(now, c.value), DecodedRun(sha, es[1..]));
      } else {
        ConsNone(t, now, DecodedRun(sha, es[1..]));
      }
    }
  }

  /** A run on data is the run of the calls that decode. */
  lemma {:induction false} DataRunIs(sha: Sha, cfg: Config, s: Bridge, es: seq<DataEvent>)
    ensures RunData(sha, cfg, s, es) == Run(cfg, s, DecodedRun(sha, es))
    decreases |es|
  {
    if es != [] {
      var e, c := es[0], Decoded(sha, es[0].call);
      DataRunIs(sha, cfg, NextData(sha, cfg, s, e.now, e.call), es[1..]);
      ConsRun(cfg, s, e.now, c, DecodedRun(sha, es[1..]));
    }
  }

  lemma ConsRun(cfg: Config, s: Bridge, now: nat, c: Option<Call>, es: seq<Event>)
    ensures Run(cfg, s, (if c.None? then [] else [Event(now, c.value)]) + es)
            == Run(cfg, match c case None => s case Some(call) => Next(cfg, s, now, call), es)
  {
    if c.None? {
      assert [] + es == es;
    } else {
      assert ([Event(now, c.value)] + es)[1..] == es;
    }
  }

  /** In every state that calls with data can reach, the quorum test never overflows and is strictly more than two
      thirds of the stake. */
  lemma DataQuorum(sha: Sha, cfg: Config, es: seq<DataEvent>, ps: ProducerSet, approvals: seq<Option<Signature>>)
    requires Clocked(0, es)
    requires var s := RunData(sha, cfg, DEPLOYED, es); ps == s.current || ps == s.next || ps == s.untrustedNext
    ensures Fits(ps)
    ensures HasQuorum(ps, approvals)
            <==> ps.length <= |approvals| && 3 * Voted(ps, approvals, ps.length) > 2 * ps.totalStake
  {
    DataRunIs(sha, cfg, DEPLOYED, es);
    DecodedRunIs(sha, 0, es);
    QuorumNeverOverflows(cfg, DecodedRun(sha, es), ps, approvals);
  }
}
