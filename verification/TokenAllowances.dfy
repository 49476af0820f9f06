/** Allowances and mints of the bridged token: what each call leaves of every allowance, that an escrow never moves more than
    it was allowed, and that every mint pays what an event of the locker says to whom it says. */
module TokenAllowances {
  import opened Prelude
  import opened Borsh
  import opened MapSum
  import opened TokenSpec
  import opened TokenTheorems

  /** What the account stored under `k` allows the escrow stored under `e`. */
  function Allowed(s: State, k: Key, e: Key): nat {
    if k in s.accounts && e in s.accounts[k].allowances then s.accounts[k].allowances[e] else 0
  }

  function In(a: Account, e: Key): nat {
    if e in a.allowances then a.allowances[e] else 0
  }

  /** No allowance changes but that of `e` on `k`, which becomes `n`. */
  ghost predicate Becomes(s: State, s': State, k: Key, e: Key, n: nat) {
    forall k', e' {:trigger Allowed(s', k', e')} :: Allowed(s', k', e') == if k' == k && e' == e then n else Allowed(s, k', e')
  }

  ghost predicate SameAllowances(s: State, s': State) {
    forall k, e {:trigger Allowed(s', k, e)} :: Allowed(s', k, e) == Allowed(s, k, e)
  }

  lemma SetAllowed(h: Host, s: State, id: Id, a: Account, k: Key, e: Key)
    ensures Allowed(SetAccount(h, s, id, a), k, e) == if k == h.hash(id) then In(a, e) else Allowed(s, k, e)
  {
  }

  lemma GetAllowed(h: Host, s: State, id: Id, e: Key)
    requires GetAccount(h, s, id).Some?
    ensures In(GetAccount(h, s, id).value, e) == Allowed(s, h.hash(id), e)
  {
  }

  lemma InSet(h: Host, a: Account, escrow: Id, n: U128, e: Key)
    ensures In(SetAllowance(h, a, escrow, n), e) == if e == h.hash(escrow) then n else In(a, e)
  {
  }

  // ----- each call -----

  lemma AllowanceSet(h: Host, s: State, caller: Id, escrow: Id, f: U128 -> U128, paid: bool)
    ensures var r := ExecAllowance(h, s, caller, escrow, f, paid);
            && (r.Some? <==> h.valid(escrow) && h.valid(caller) && escrow != caller && paid)
            && (r.Some? ==> && Becomes(s, r.value, h.hash(caller), h.hash(escrow), f(Allowed(s, h.hash(caller), h.hash(escrow))))
                            && Moved(s, r.value, map[], map[])
                            && r.value.totalSupply == s.totalSupply && r.value.used == s.used)
  {
    var r := ExecAllowance(h, s, caller, escrow, f, paid);
    if r.Some? {
      var a := GetAccount(h, s, caller).value;
      var n := f(GetAllowance(h, a, escrow));
      var b := SetAllowance(h, a, escrow, n);
      forall k, e {:trigger Allowed(r.value, k, e)}
        ensures Allowed(r.value, k, e) == if k == h.hash(caller) && e == h.hash(escrow) then n else Allowed(s, k, e)
      {
        SetAllowed(h, s, caller, b, k, e);
        InSet(h, a, escrow, n, e);
        GetAllowed(h, s, caller, e);
      }
      forall k {:trigger Held(r.value, k)} ensures Held(r.value, k) == Held(s, k) {
        SetHeld(h, s, caller, b, k);
      }
    }
  }

  /** An increase adds the amount, up to the largest number; nothing else changes. */
  lemma IncreaseExactly(h: Host, s: State, caller: Id, escrow: Id, n: U128, paid: bool)
    ensures var r := Exec(h, s, caller, IncAllowance(escrow, n), paid);
            && (r.Some? <==> h.valid(escrow) && h.valid(caller) && escrow != caller && paid)
            && (r.Some? ==> && Becomes(s, r.value, h.hash(caller), h.hash(escrow),
                                       Min(Allowed(s, h.hash(caller), h.hash(escrow)) + n, MAX_U128))
                            && Moved(s, r.value, map[], map[])
                            && r.value.totalSupply == s.totalSupply && r.value.used == s.used)
  {
    AllowanceSet(h, s, caller, escrow, cur => if cur + n > MAX_U128 then MAX_U128 else cur + n, paid);
  }

  /** A decrease takes the amount away, down to zero; nothing else changes. */
  lemma DecreaseExactly(h: Host, s: State, caller: Id, escrow: Id, n: U128, paid: bool)
    ensures var r := Exec(h, s, caller, DecAllowance(escrow, n), paid);
            && (r.Some? <==> h.valid(escrow) && h.valid(caller) && escrow != caller && paid)
            && (r.Some? ==> && Becomes(s, r.value, h.hash(caller), h.hash(escrow),
                                       Max(Allowed(s, h.hash(caller), h.hash(escrow)) - n, 0))
                            && Moved(s, r.value, map[], map[])
                            && r.value.totalSupply == s.totalSupply && r.value.used == s.used)
  {
    AllowanceSet(h, s, caller, escrow, cur => if cur < n then 0 else cur - n, paid);
  }

  /** A transfer by an escrow spends exactly the amount of its allowance; one by the owner spends none. */
  lemma TransferSpends(h: Host, s: State, caller: Id, owner: Id, newOwner: Id, amount: U128, paid: bool)
    ensures var r := Exec(h, s, caller, TransferFrom(owner, newOwner, amount), paid);
            r.Some? ==>
              && (caller == owner ==> SameAllowances(s, r.value))
              && (caller != owner ==>
                    && Allowed(s, h.hash(owner), h.hash(caller)) >= amount
                    && Becomes(s, r.value, h.hash(owner), h.hash(caller), Allowed(s, h.hash(owner), h.hash(caller)) - amount))
  {
    var r := ExecTransfer(h, s, caller, owner, newOwner, amount, paid);
    if r.Some? {
      var a := GetAccount(h, s, owner).value;
      var d := Debited(h, a, caller, owner, amount);
      var mid := SetAccount(h, s, owner, d);
      var n := GetAccount(h, mid, newOwner).value;
      GetAllowed(h, s, owner, h.hash(caller));
      forall k, e {:trigger Allowed(r.value, k, e)}
        ensures Allowed(r.value, k, e) ==
                if caller != owner && k == h.hash(owner) && e == h.hash(caller) then Allowed(s, k, e) - amount else Allowed(s, k, e)
      {
        CreditKeeps(h, mid, newOwner, n.(balance := n.balance + amount), k, e);
        SetAllowed(h, s, owner, d, k, e);
        GetAllowed(h, s, owner, e);
        DebitedIn(h, a, caller, owner, amount, e);
      }
    }
  }

  lemma DebitedIn(h: Host, a: Account, caller: Id, owner: Id, amount: U128, e: Key)
    requires Covers(h, a, caller, owner, amount)
    ensures In(Debited(h, a, caller, owner, amount), e) ==
            if caller != owner && e == h.hash(caller) then In(a, e) - amount else In(a, e)
  {
  }

  /** Writing an account with another balance keeps every allowance. */
  lemma CreditKeeps(h: Host, s: State, id: Id, a: Account, k: Key, e: Key)
    requires GetAccount(h, s, id).Some? && a.allowances == GetAccount(h, s, id).value.allowances
    ensures Allowed(SetAccount(h, s, id, a), k, e) == Allowed(s, k, e)
  {
    SetAllowed(h, s, id, a, k, e);
    GetAllowed(h, s, id, e);
  }

  /** No other call touches an allowance. */
  lemma OthersKeep(h: Host, s: State, caller: Id, call: Call, paid: bool)
    requires call.Mint? || call.FinishMint? || call.Burn?
    ensures var r := Exec(h, s, caller, call, paid); r.Some? ==> SameAllowances(s, r.value)
  {
    var r := Exec(h, s, caller, call, paid);
    if r.Some? {
      forall k, e {:trigger Allowed(r.value, k, e)} ensures Allowed(r.value, k, e) == Allowed(s, k, e) {
        match call
        case Mint(_) =>
        case FinishMint(_, id, n) =>
          var a := GetAccount(h, s, id).value;
          CreditKeeps(h, s.(totalSupply := s.totalSupply + n), id, a.(balance := a.balance + n), k, e);
        case Burn(n, _) =>
          var a := GetAccount(h, s, caller).value;
          CreditKeeps(h, s.(totalSupply := s.totalSupply - n), caller, a.(balance := a.balance - n), k, e);
      }
    }
  }

  // ----- whole runs -----

  /** What an accepted step grants the escrow `e` on the account `k`, and what the escrow moves by it. */
  ghost function Grants(h: Host, w: World, step: Step, k: Key, e: Key): nat {
    match step
    case By(caller, IncAllowance(escrow, n), paid) =>
      if caller != h.self && Exec(h, w.state, caller, step.call, paid).Some? && h.hash(caller) == k && h.hash(escrow) == e then n else 0
    case _ => 0
  }

  ghost function Moves(h: Host, w: World, step: Step, k: Key, e: Key): nat {
    match step
    case By(caller, TransferFrom(owner, _, n), paid) =>
      if caller != h.self && caller != owner && Exec(h, w.state, caller, step.call, paid).Some?
         && h.hash(owner) == k && h.hash(caller) == e then n else 0
    case _ => 0
  }

  ghost function GrantedOver(h: Host, w: World, steps: seq<Step>, k: Key, e: Key): nat
    decreases |steps|
  {
    if steps == [] then 0 else Grants(h, w, steps[0], k, e) + GrantedOver(h, Next(h, w, steps[0]), steps[1..], k, e)
  }

  ghost function MovedOver(h: Host, w: World, steps: seq<Step>, k: Key, e: Key): nat
    decreases |steps|
  {
    if steps == [] then 0 else Moves(h, w, steps[0], k, e) + MovedOver(h, Next(h, w, steps[0]), steps[1..], k, e)
  }

  lemma CallSpends(h: Host, w: World, caller: Id, call: Call, paid: bool, k: Key, e: Key)
    requires caller != h.self && Exec(h, w.state, caller, call, paid).Some?
    ensures Allowed(Exec(h, w.state, caller, call, paid).value, k, e) + Moves(h, w, By(caller, call, paid), k, e)
            <= Allowed(w.state, k, e) + Grants(h, w, By(caller, call, paid), k, e)
  {
    match call
    case IncAllowance(escrow, n) => IncreaseExactly(h, w.state, caller, escrow, n, paid);
    case DecAllowance(escrow, n) => DecreaseExactly(h, w.state, caller, escrow, n, paid);
    case TransferFrom(owner, newOwner, n) => TransferSpends(h, w.state, caller, owner, newOwner, n, paid);
    case _ => OthersKeep(h, w.state, caller, call, paid);
  }

  lemma StepSpends(h: Host, w: World, step: Step, k: Key, e: Key)
    ensures Allowed(Next(h, w, step).state, k, e) + Moves(h, w, step, k, e) <= Allowed(w.state, k, e) + Grants(h, w, step, k, e)
  {
    match step
    case By(caller, call, paid) =>
      if caller != h.self && Exec(h, w.state, caller, call, paid).Some? {
        CallSpends(h, w, caller, call, paid, k, e);
      }
    case Callback(i, verdict, paid) =>
      if i < |w.pending| && verdict.Some? {
        OthersKeep(h, w.state, h.self, FinishMint(verdict.value, w.pending[i].recipient, w.pending[i].amount), paid);
      }
  }

  lemma {:induction false} RunSpends(h: Host, w: World, steps: seq<Step>, k: Key, e: Key)
    ensures Allowed(Run(h, w, steps).state, k, e) + MovedOver(h, w, steps, k, e)
            <= Allowed(w.state, k, e) + GrantedOver(h, w, steps, k, e)
    decreases |steps|
  {
    if steps != [] {
      StepSpends(h, w, steps[0], k, e);
      RunSpends(h, Next(h, w, steps[0]), steps[1..], k, e);
    }
  }

  /** Over every run from deployment an escrow moves no more from an account than that account ever allowed it. */
  lemma NeverOverspent(h: Host, steps: seq<Step>, k: Key, e: Key)
    ensures MovedOver(h, START, steps, k, e) <= GrantedOver(h, START, steps, k, e)
  {
    RunSpends(h, START, steps, k, e);
  }

  // ----- mints -----

  /** A mint is recorded exactly for an event that was not used, whose log entry is one of the configured locker. */
  lemma MintExactly(h: Host, s: State, caller: Id, p: Proof, paid: bool)
    ensures var r := Exec(h, s, caller, Mint(p), paid);
            && (r.Some? <==> && h.digest(EventData(p.event)) !in s.used && paid
                             && h.parse(p.logEntry).Some? && h.parse(p.logEntry).value.locker == h.locker)
            && (r.Some? ==> r.value == s.(used := s.used + {h.digest(EventData(p.event))}))
  {
  }

  /** Different events have different identifying bytes. */
  lemma EventDataInjective(e: EventId, f: EventId)
    requires EventData(e) == EventData(f)
    ensures e == f
  {
    var a, b := LeBytes(8, e.logIndex), LeBytes(8, e.receiptIndex);
    var c, d := LeBytes(8, f.logIndex), LeBytes(8, f.receiptIndex);
    assert EventData(e)[..8] == a && EventData(f)[..8] == c;
    assert EventData(e)[8..16] == b && EventData(f)[8..16] == d;
    assert EventData(e)[16..] == e.header && EventData(f)[16..] == f.header;
    Fits8(e.logIndex);
    Fits8(f.logIndex);
    Fits8(e.receiptIndex);
    Fits8(f.receiptIndex);
    LeReads(a, e.logIndex);
    LeReads(a, f.logIndex);
    LeReads(b, e.receiptIndex);
    LeReads(b, f.receiptIndex);
  }

  /** Some log entry of the configured locker names this recipient and this amount. */
  ghost predicate Backed(h: Host, p: Pending) {
    exists d: Bytes :: h.parse(d) == Some(Event(h.locker, p.recipient, p.amount))
  }

  ghost predicate AllBacked(h: Host, w: World) {
    forall i :: 0 <= i < |w.pending| ==> Backed(h, w.pending[i])
  }

  lemma StepBacked(h: Host, w: World, step: Step)
    requires AllBacked(h, w)
    ensures AllBacked(h, Next(h, w, step))
  {
    match step
    case By(caller, call, paid) =>
      if call.Mint? && caller != h.self {
        MintExactly(h, w.state, caller, call.proof, paid);
        var r := h.parse(call.proof.logEntry);
        if r.Some? && r.value.locker == h.locker {
          assert Backed(h, Pending(call.proof.event, r.value.recipient, r.value.amount));
        }
      }
    case Callback(_, _, _) =>
  }

  lemma {:induction false} RunBacked(h: Host, w: World, steps: seq<Step>)
    requires AllBacked(h, w)
    ensures AllBacked(h, Run(h, w, steps))
    decreases |steps|
  {
    if steps != [] {
      StepBacked(h, w, steps[0]);
      RunBacked(h, Next(h, w, steps[0]), steps[1..]);
    }
  }

  lemma FinishMoves(h: Host, s: State, ok: bool, id: Id, n: U128, paid: bool)
    ensures var r := Exec(h, s, h.self, FinishMint(ok, id, n), paid);
            r.Some? ==> ok && Moved(s, r.value, map[], map[h.hash(id) := n]) && r.value.totalSupply == s.totalSupply + n
  {
    var r := ExecFinish(h, s, h.self, ok, id, n, paid);
    if r.Some? {
      var a := GetAccount(h, s, id).value;
      forall k {:trigger Held(r.value, k)}
        ensures Held(r.value, k) == Held(s, k) + Get(map[h.hash(id) := n], k)
      {
        SetHeld(h, s.(totalSupply := s.totalSupply + n), id, a.(balance := a.balance + n), k);
      }
    }
  }

  /** In every reachable state a step that mints is the callback of a mint whose proof was found good: it pays the recipient
      that an event of the locker names the amount that it names, and changes no other balance. */
  lemma MintPaysEvent(h: Host, steps: seq<Step>, w: World, step: Step)
    requires w == Run(h, START, steps) && Next(h, w, step).minted != w.minted
    ensures && step.Callback? && step.verdict == Some(true) && step.i < |w.pending| && Backed(h, w.pending[step.i])
            && Moved(w.state, Next(h, w, step).state, map[], map[h.hash(w.pending[step.i].recipient) := w.pending[step.i].amount as nat])
            && Next(h, w, step).minted == w.minted + w.pending[step.i].amount
  {
    RunBacked(h, START, steps);
    if step.Callback? && step.i < |w.pending| && step.verdict.Some? {
      var p := w.pending[step.i];
      FinishMoves(h, w.state, step.verdict.value, p.recipient, p.amount, step.paid);
    }
  }
}
