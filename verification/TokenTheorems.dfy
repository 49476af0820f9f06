/** Conservation over every interleaving of token calls and verification callbacks. */
module TokenTheorems {
  import opened Prelude
  import opened Borsh
  import opened MapSum
  import opened TokenSpec

  // ----- the invariant of the state -----

  ghost function Balances(s: State): map<Key, nat> {
    map k | k in s.accounts :: s.accounts[k].balance as nat
  }

  /** The supply is the sum of the balances, exactly the accounts that have something are stored, and no stored
      allowance is zero. */
  ghost predicate Inv(s: State) {
    && s.totalSupply == Sum(Balances(s))
    && (forall k {:trigger s.accounts[k]} :: k in s.accounts ==> s.accounts[k].balance > 0 || s.accounts[k].allowances != map[])
    && (forall k {:trigger s.accounts[k]} :: k in s.accounts ==> Positive(s.accounts[k]))
  }

  ghost predicate Positive(a: Account) {
    forall e :: e in a.allowances ==> a.allowances[e] > 0
  }

  lemma SetAccountSum(h: Host, s: State, id: Id, a: Account)
    ensures Sum(Balances(SetAccount(h, s, id, a))) + Get(Balances(s), h.hash(id)) == Sum(Balances(s)) + a.balance
  {
    var k, b := h.hash(id), Balances(s);
    var s' := SetAccount(h, s, id, a);
    if a.balance > 0 || a.allowances != map[] {
      assert Balances(s') == b[k := a.balance as nat];
      SumUpdate(b, k, a.balance);
    } else {
      assert Balances(s') == b - {k};
      SumDelete(b, k);
    }
  }

  /** What an account holds is what its entry in the balances says, and no more than the supply. */
  lemma AccountBalance(h: Host, s: State, id: Id)
    requires GetAccount(h, s, id).Some?
    ensures GetAccount(h, s, id).value.balance == Get(Balances(s), h.hash(id)) <= Sum(Balances(s))
  {
    SumAtLeast(Balances(s), h.hash(id));
  }

  lemma SetAccountKeeps(h: Host, s: State, id: Id, a: Account)
    requires Inv(s) && Positive(a)
    ensures var s' := SetAccount(h, s, id, a);
      && (forall k {:trigger s'.accounts[k]} :: k in s'.accounts ==> s'.accounts[k].balance > 0 || s'.accounts[k].allowances != map[])
      && (forall k {:trigger s'.accounts[k]} :: k in s'.accounts ==> Positive(s'.accounts[k]))
      && s'.totalSupply == s.totalSupply && s'.used == s.used
  {
  }

  lemma GetPositive(h: Host, s: State, id: Id)
    requires Inv(s) && GetAccount(h, s, id).Some?
    ensures Positive(GetAccount(h, s, id).value)
  {
  }

  /** Moving a balance with the supply, or one account within it, keeps the invariant. */
  lemma Adjust(h: Host, s: State, id: Id, a: Account, supply: U128)
    requires Inv(s) && Positive(a)
    requires supply + Get(Balances(s), h.hash(id)) == s.totalSupply + a.balance
    ensures Inv(SetAccount(h, s.(totalSupply := supply), id, a))
  {
    var t := s.(totalSupply := supply);
    assert Balances(t) == Balances(s);
    SetAccountSum(h, t, id, a);
    var s' := SetAccount(h, t, id, a);
    assert SetAccount(h, s, id, a).accounts == s'.accounts;
    SetAccountKeeps(h, s, id, a);
  }

  lemma AllowanceInv(h: Host, s: State, caller: Id, escrow: Id, f: U128 -> U128, paid: bool)
    requires Inv(s) && ExecAllowance(h, s, caller, escrow, f, paid).Some?
    ensures Inv(ExecAllowance(h, s, caller, escrow, f, paid).value)
  {
    var a := GetAccount(h, s, caller).value;
    GetPositive(h, s, caller);
    AccountBalance(h, s, caller);
    var b := SetAllowance(h, a, escrow, f(GetAllowance(h, a, escrow)));
    assert s.(totalSupply := s.totalSupply) == s;
    Adjust(h, s, caller, b, s.totalSupply);
  }

  /** The first half of a transfer leaves the supply too high by the amount. */
  lemma DebitHalf(h: Host, s: State, owner: Id, c: Account, amount: U128)
    requires Inv(s) && Positive(c) && c.balance + amount == Get(Balances(s), h.hash(owner)) && amount <= s.totalSupply
    ensures Inv(SetAccount(h, s, owner, c).(totalSupply := s.totalSupply - amount))
  {
    Adjust(h, s, owner, c, s.totalSupply - amount);
    assert SetAccount(h, s.(totalSupply := s.totalSupply - amount), owner, c) ==
           SetAccount(h, s, owner, c).(totalSupply := s.totalSupply - amount);
  }

  /** The second half sets it right, and cannot overflow. */
  lemma CreditHalf(h: Host, s: State, id: Id, amount: U128, paid: bool)
    requires h.valid(id) && amount <= s.totalSupply && Inv(s.(totalSupply := s.totalSupply - amount))
    ensures Credit(h, s, id, amount, paid).Some? <==> paid
    ensures paid ==> Inv(Credit(h, s, id, amount, paid).value)
  {
    var low := s.(totalSupply := s.totalSupply - amount);
    var n := GetAccount(h, s, id).value;
    assert GetAccount(h, low, id).value == n;
    GetPositive(h, low, id);
    AccountBalance(h, low, id);
    var m := n.(balance := n.balance + amount);
    Adjust(h, low, id, m, s.totalSupply);
    assert low.(totalSupply := s.totalSupply) == s;
  }

  lemma DebitedIs(h: Host, s: State, caller: Id, owner: Id, amount: U128)
    requires Inv(s) && GetAccount(h, s, owner).Some? && Covers(h, GetAccount(h, s, owner).value, caller, owner, amount)
    ensures var c := Debited(h, GetAccount(h, s, owner).value, caller, owner, amount);
      Positive(c) && c.balance + amount == Get(Balances(s), h.hash(owner)) && amount <= s.totalSupply
  {
    GetPositive(h, s, owner);
    AccountBalance(h, s, owner);
  }

  /** A transfer goes through exactly when the ids are valid and differ, the amount is positive, balance and
      allowance cover it and the storage is paid for: crediting the recipient is never what stops it. */
  lemma TransferExactly(h: Host, s: State, caller: Id, owner: Id, newOwner: Id, amount: U128, paid: bool)
    requires Inv(s)
    ensures ExecTransfer(h, s, caller, owner, newOwner, amount, paid).Some? <==>
      && h.valid(newOwner) && h.valid(owner) && amount > 0 && owner != newOwner && paid
      && Covers(h, GetAccount(h, s, owner).value, caller, owner, amount)
    ensures ExecTransfer(h, s, caller, owner, newOwner, amount, paid).Some? ==>
      Inv(ExecTransfer(h, s, caller, owner, newOwner, amount, paid).value)
  {
    var a := GetAccount(h, s, owner);
    if h.valid(newOwner) && a.Some? && Covers(h, a.value, caller, owner, amount) {
      var c := Debited(h, a.value, caller, owner, amount);
      DebitedIs(h, s, caller, owner, amount);
      DebitHalf(h, s, owner, c, amount);
      CreditHalf(h, SetAccount(h, s, owner, c), newOwner, amount, paid);
    }
  }

  /** A mint finishes exactly when it is the contract's own call about a verified proof for a valid account, the
      supply can grow by the amount and the storage is paid for. */
  lemma FinishExactly(h: Host, s: State, caller: Id, ok: bool, id: Id, amount: U128, paid: bool)
    requires Inv(s)
    ensures ExecFinish(h, s, caller, ok, id, amount, paid).Some? <==>
      caller == h.self && ok && h.valid(id) && s.totalSupply + amount <= MAX_U128 && paid
    ensures ExecFinish(h, s, caller, ok, id, amount, paid).Some? ==>
      Inv(ExecFinish(h, s, caller, ok, id, amount, paid).value)
  {
    if h.valid(id) && s.totalSupply + amount <= MAX_U128 {
      MintKeeps(h, s, id, amount, GetAccount(h, s, id).value);
    }
  }

  lemma MintKeeps(h: Host, s: State, id: Id, amount: U128, a: Account)
    requires Inv(s) && GetAccount(h, s, id) == Some(a) && s.totalSupply + amount <= MAX_U128
    ensures a.balance + amount <= MAX_U128
    ensures Inv(SetAccount(h, s.(totalSupply := s.totalSupply + amount), id, a.(balance := a.balance + amount)))
  {
    AccountBalance(h, s, id);
    GetPositive(h, s, id);
    Adjust(h, s, id, a.(balance := a.balance + amount), s.totalSupply + amount);
  }

  /** A burn goes through exactly when the balance covers it and the recipient is an address: the supply is never
      too small. */
  lemma BurnExactly(h: Host, s: State, caller: Id, amount: U128, ok: bool)
    requires Inv(s)
    ensures ExecBurn(h, s, caller, amount, ok).Some? <==>
      h.valid(caller) && GetAccount(h, s, caller).value.balance >= amount && ok
    ensures ExecBurn(h, s, caller, amount, ok).Some? ==> Inv(ExecBurn(h, s, caller, amount, ok).value)
  {
    if h.valid(caller) {
      AccountBalance(h, s, caller);
      GetPositive(h, s, caller);
      var a := GetAccount(h, s, caller).value;
      if a.balance >= amount {
        Adjust(h, s, caller, a.(balance := a.balance - amount), s.totalSupply - amount);
      }
    }
  }

  lemma ExecInv(h: Host, s: State, caller: Id, call: Call, paid: bool)
    requires Inv(s) && Exec(h, s, caller, call, paid).Some?
    ensures Inv(Exec(h, s, caller, call, paid).value)
  {
    match call
    case IncAllowance(e, n) => AllowanceInv(h, s, caller, e, cur => if cur + n > MAX_U128 then MAX_U128 else cur + n, paid);
    case DecAllowance(e, n) => AllowanceInv(h, s, caller, e, cur => if cur < n then 0 else cur - n, paid);
    case TransferFrom(o, w, n) => TransferExactly(h, s, caller, o, w, n, paid);
    case Mint(p) => assert Balances(Exec(h, s, caller, call, paid).value) == Balances(s);
    case FinishMint(ok, r, n) => FinishExactly(h, s, caller, ok, r, n, paid);
    case Burn(n, ok) => BurnExactly(h, s, caller, n, ok);
  }

  // ----- whole runs -----

  /** A mint that waits for its proof to be verified. */
  datatype Pending = Pending(event: EventId, recipient: Id, amount: U128)

  /** The token with its pending callbacks and three history variables: what was minted and burnt in all, and the
      events that were minted for. */
  datatype World = World(state: State, pending: seq<Pending>, minted: nat, burnt: nat, done: multiset<EventId>)

  const START: World := World(EMPTY, [], 0, 0, multiset{})

  /** A call by anyone but the contract itself, or the callback of the pending mint `i`: its promise failed, or
      the prover said yes or no. */
  datatype Step =
    | By(caller: Id, call: Call, paid: bool)
    | Callback(i: nat, verdict: Option<bool>, paid: bool)

  function Next(h: Host, w: World, step: Step): World {
    match step
    case By(caller, call, paid) => if caller == h.self then w else Called(h, w, caller, call, paid)
    case Callback(i, verdict, paid) => if i < |w.pending| then CalledBack(h, w, i, verdict, paid) else w
  }

  function Called(h: Host, w: World, caller: Id, call: Call, paid: bool): World {
    match Exec(h, w.state, caller, call, paid)
    case None => w
    case Some(s) =>
      if call.Mint? then
        var e := h.parse(call.proof.logEntry).value;
        w.(state := s, pending := w.pending + [Pending(call.proof.event, e.recipient, e.amount)])
      else if call.Burn? then w.(state := s, burnt := w.burnt + call.amount)
      else w.(state := s)
  }

  /** The promise is used up, whatever becomes of the mint. */
  function CalledBack(h: Host, w: World, i: nat, verdict: Option<bool>, paid: bool): World
    requires i < |w.pending|
  {
    var p := w.pending[i];
    var w' := w.(pending := w.pending[..i] + w.pending[i + 1..]);
    if verdict.None? then w' else
      match Exec(h, w.state, h.self, FinishMint(verdict.value, p.recipient, p.amount), paid)
      case None => w'
      case Some(s) => w'.(state := s, minted := w.minted + p.amount, done := w.done + multiset{p.event})
  }

  function Run(h: Host, w: World, steps: seq<Step>): World
    decreases |steps|
  {
    if steps == [] then w else Run(h, Next(h, w, steps[0]), steps[1..])
  }

  /** How many pending mints are for an event. */
  ghost function Waiting(ps: seq<Pending>, e: EventId): nat {
    if ps == [] then 0 else Waiting(ps[..|ps| - 1], e) + if ps[|ps| - 1].event == e then 1 else 0
  }

  /** How often an event was or may yet be minted for. */
  ghost function Claims(w: World, e: EventId): nat {
    w.done[e] + Waiting(w.pending, e)
  }

  /** At most once, and then its key is used. */
  ghost predicate Claimed(h: Host, w: World, e: EventId) {
    Claims(w, e) <= 1 && (Claims(w, e) == 1 ==> h.digest(EventData(e)) in w.state.used)
  }

  ghost predicate ClaimedOnce(h: Host, w: World) {
    forall e {:trigger Claimed(h, w, e)} :: Claimed(h, w, e)
  }

  ghost predicate WorldInv(h: Host, w: World) {
    Inv(w.state) && w.state.totalSupply + w.burnt == w.minted && ClaimedOnce(h, w)
  }

  lemma {:induction false} WaitingSplit(ps: seq<Pending>, i: nat, e: EventId)
    requires i < |ps|
    ensures Waiting(ps, e) == Waiting(ps[..i] + ps[i + 1..], e) + if ps[i].event == e then 1 else 0
    decreases |ps|
  {
    var qs := ps[..i] + ps[i + 1..];
    if i < |ps| - 1 {
      var init := ps[..|ps| - 1];
      WaitingSplit(init, i, e);
      assert qs[..|qs| - 1] == init[..i] + init[i + 1..];
      assert qs[|qs| - 1] == ps[|ps| - 1];
    } else {
      assert qs == ps[..i];
    }
  }

  /** What a call by a user does to the supply. */
  lemma CallSupply(h: Host, s: State, caller: Id, call: Call, paid: bool)
    requires caller != h.self && Exec(h, s, caller, call, paid).Some?
    ensures var s' := Exec(h, s, caller, call, paid).value;
      && s'.totalSupply + (if call.Burn? then call.amount else 0) == s.totalSupply
      && (!call.Mint? ==> s'.used == s.used)
      && !call.FinishMint?
  {
  }

  lemma CalledInv(h: Host, w: World, caller: Id, call: Call, paid: bool)
    requires WorldInv(h, w) && caller != h.self
    ensures WorldInv(h, Called(h, w, caller, call, paid))
  {
    var r := Exec(h, w.state, caller, call, paid);
    if r.Some? {
      ExecInv(h, w.state, caller, call, paid);
      CallSupply(h, w.state, caller, call, paid);
      if call.Mint? {
        MintClaims(h, w, caller, call.proof, paid);
      } else {
        FewerClaims(h, w, Called(h, w, caller, call, paid));
      }
    }
  }

  /** Claims that do not grow stay single. */
  lemma FewerClaims(h: Host, w: World, w': World)
    requires ClaimedOnce(h, w) && w'.state.used == w.state.used
    requires forall e {:trigger Claims(w', e)} :: Claims(w', e) <= Claims(w, e)
    ensures ClaimedOnce(h, w')
  {
    forall e {:trigger Claimed(h, w', e)}
      ensures Claimed(h, w', e)
    {
      assert Claimed(h, w, e) && Claims(w', e) <= Claims(w, e);
    }
  }

  lemma MintClaims(h: Host, w: World, caller: Id, p: Proof, paid: bool)
    requires ClaimedOnce(h, w) && ExecMint(h, w.state, p, paid).Some?
    ensures ClaimedOnce(h, Called(h, w, caller, Mint(p), paid))
  {
    var w' := Called(h, w, caller, Mint(p), paid);
    assert w'.pending[..|w'.pending| - 1] == w.pending;
    forall e {:trigger Claimed(h, w', e)}
      ensures Claimed(h, w', e)
    {
      assert Claimed(h, w, e);
    }
  }

  lemma CallbackInv(h: Host, w: World, i: nat, verdict: Option<bool>, paid: bool)
    requires WorldInv(h, w) && i < |w.pending|
    ensures WorldInv(h, CalledBack(h, w, i, verdict, paid))
  {
    var p := w.pending[i];
    if verdict.Some? {
      FinishExactly(h, w.state, h.self, verdict.value, p.recipient, p.amount, paid);
      FinishSupply(h, w.state, h.self, verdict.value, p.recipient, p.amount, paid);
    }
    var w' := CalledBack(h, w, i, verdict, paid);
    forall e {:trigger Claims(w', e)}
      ensures Claims(w', e) <= Claims(w, e)
    {
      WaitingSplit(w.pending, i, e);
    }
    FewerClaims(h, w, w');
  }

  lemma FinishSupply(h: Host, s: State, caller: Id, ok: bool, id: Id, amount: U128, paid: bool)
    ensures var r := ExecFinish(h, s, caller, ok, id, amount, paid);
      r.Some? ==> r.value.totalSupply == s.totalSupply + amount && r.value.used == s.used
  {
  }

  lemma {:induction false} RunInv(h: Host, w: World, steps: seq<Step>)
    requires WorldInv(h, w)
    ensures WorldInv(h, Run(h, w, steps))
    decreases |steps|
  {
    if steps != [] {
      match steps[0]
      case By(caller, call, paid) =>
        if caller != h.self {
          CalledInv(h, w, caller, call, paid);
        }
        RunInv(h, Next(h, w, steps[0]), steps[1..]);
      case Callback(i, verdict, paid) =>
        if i < |w.pending| {
          CallbackInv(h, w, i, verdict, paid);
        }
        RunInv(h, Next(h, w, steps[0]), steps[1..]);
    }
  }

  lemma StartInv(h: Host)
    ensures WorldInv(h, START)
  {
    assert Balances(EMPTY) == map[];
    forall e {:trigger Claimed(h, START, e)}
      ensures Claimed(h, START, e)
    {
      assert Claims(START, e) == 0;
    }
  }

  /** Over all interleavings from deployment: the supply is the sum of the balances and what was minted less what
      was burnt, every event is minted for at most once, and exactly the accounts with something are stored. */
  lemma Conservation(h: Host, steps: seq<Step>)
    ensures var w := Run(h, START, steps);
      && w.state.totalSupply == Sum(Balances(w.state)) == w.minted - w.burnt
      && (forall e :: w.done[e] <= 1)
      && (forall k :: k in w.state.accounts ==> w.state.accounts[k].balance > 0 || w.state.accounts[k].allowances != map[])
  {
    StartInv(h);
    RunInv(h, START, steps);
    var w := Run(h, START, steps);
    forall e
      ensures w.done[e] <= 1
    {
      assert Claimed(h, w, e);
    }
  }
}
