/** The bridged token on NEAR: its state and its calls as functions. `None` is a panic, which undoes the call.
    Whether the attached deposit covers the storage that a call adds is its parameter `paid`. */
module TokenSpec {
  import opened Prelude
  import opened Borsh
  import opened MapSum

  type Id = string
  type Key = Bytes

  datatype Account = Account(balance: U128, allowances: map<Key, U128>)

  datatype State = State(accounts: map<Key, Account>, totalSupply: U128, used: set<Key>)

  /** What an Ethereum log entry says. */
  datatype Event = Event(locker: Bytes, recipient: Id, amount: U128)

  /** The identity of an event: where it is in which block. */
  datatype EventId = EventId(logIndex: U64, receiptIndex: U64, header: Bytes)

  datatype Proof = Proof(event: EventId, logEntry: Bytes)

  /** The host: validity and hash of account ids, the hash of event data, and the parser of log entries. */
  datatype Host = Host(self: Id, locker: Bytes, valid: Id -> bool, hash: Id -> Key, digest: Bytes -> Key,
                       parse: Bytes -> Option<Event>)

  const EMPTY: State := State(map[], 0, {})

  // ----- accounts -----

  function GetAccount(h: Host, s: State, id: Id): Option<Account> {
    if !h.valid(id) then None
    else if h.hash(id) in s.accounts then Some(s.accounts[h.hash(id)])
    else Some(Account(0, map[]))
  }

  /** An account with neither balance nor allowances is not stored. */
  function SetAccount(h: Host, s: State, id: Id, a: Account): State {
    if a.balance > 0 || a.allowances != map[] then s.(accounts := s.accounts[h.hash(id) := a])
    else s.(accounts := s.accounts - {h.hash(id)})
  }

  function GetAllowance(h: Host, a: Account, escrow: Id): U128 {
    if h.hash(escrow) in a.allowances then a.allowances[h.hash(escrow)] else 0
  }

  function SetAllowance(h: Host, a: Account, escrow: Id, amount: U128): Account {
    a.(allowances := if amount > 0 then a.allowances[h.hash(escrow) := amount] else a.allowances - {h.hash(escrow)})
  }

  // ----- addresses -----

  function HexDigit(c: char): (r: Option<Byte>)
    ensures r.Some? ==> r.value < 16
  {
    if '0' <= c <= '9' then Some((c - '0') as nat)
    else if 'a' <= c <= 'f' then Some(10 + (c - 'a') as nat)
    else if 'A' <= c <= 'F' then Some(10 + (c - 'A') as nat)
    else None
  }

  /** The bytes that pairs of hex digits stand for; `None` for an odd digit or a foreign character. */
  function HexDecode(s: string): (r: Option<Bytes>)
    ensures r.Some? ==> 2 * |r.value| == |s|
  {
    if s == [] then Some([])
    else if |s| == 1 then None
    else
      var high :- HexDigit(s[0]);
      var low :- HexDigit(s[1]);
      var rest :- HexDecode(s[2..]);
      Some([16 * high + low] + rest)
  }

  /** An Ethereum address: twenty bytes. */
  function EthAddress(s: string): Option<Bytes> {
    var a :- HexDecode(s);
    if |a| == 20 then Some(a) else None
  }

  // ----- calls -----

  datatype Call =
    | IncAllowance(escrow: Id, amount: U128)
    | DecAllowance(escrow: Id, amount: U128)
    | TransferFrom(owner: Id, newOwner: Id, amount: U128)
    | Mint(proof: Proof)
    | FinishMint(success: bool, recipient: Id, amount: U128)
    | Burn(amount: U128, recipientOk: bool)

  function Exec(h: Host, s: State, caller: Id, call: Call, paid: bool): Option<State> {
    match call
    case IncAllowance(e, n) => ExecAllowance(h, s, caller, e, cur => if cur + n > MAX_U128 then MAX_U128 else cur + n, paid)
    case DecAllowance(e, n) => ExecAllowance(h, s, caller, e, cur => if cur < n then 0 else cur - n, paid)
    case TransferFrom(o, w, n) => ExecTransfer(h, s, caller, o, w, n, paid)
    case Mint(p) => ExecMint(h, s, p, paid)
    case FinishMint(ok, r, n) => ExecFinish(h, s, caller, ok, r, n, paid)
    case Burn(n, ok) => ExecBurn(h, s, caller, n, ok)
  }

  function ExecAllowance(h: Host, s: State, caller: Id, escrow: Id, f: U128 -> U128, paid: bool): Option<State> {
    if !h.valid(escrow) || escrow == caller then None else
      var a :- GetAccount(h, s, caller);
      var b := SetAllowance(h, a, escrow, f(GetAllowance(h, a, escrow)));
      if paid then Some(SetAccount(h, s, caller, b)) else None
  }

  function ExecTransfer(h: Host, s: State, caller: Id, owner: Id, newOwner: Id, amount: U128, paid: bool): Option<State> {
    if !h.valid(newOwner) || amount == 0 || owner == newOwner then None else
      var a :- GetAccount(h, s, owner);
      if Covers(h, a, caller, owner, amount) then
        Credit(h, SetAccount(h, s, owner, Debited(h, a, caller, owner, amount)), newOwner, amount, paid)
      else None
  }

  /** The balance covers the amount and, for an escrow, so does the allowance. */
  predicate Covers(h: Host, a: Account, caller: Id, owner: Id, amount: U128) {
    a.balance >= amount && (caller != owner ==> GetAllowance(h, a, caller) >= amount)
  }

  function Debited(h: Host, a: Account, caller: Id, owner: Id, amount: U128): Account
    requires Covers(h, a, caller, owner, amount)
  {
    var b := a.(balance := a.balance - amount);
    if caller == owner then b else SetAllowance(h, b, caller, GetAllowance(h, b, caller) - amount)
  }

  /** The addition panics when it overflows. */
  function Credit(h: Host, s: State, id: Id, amount: U128, paid: bool): Option<State> {
    var a :- GetAccount(h, s, id);
    if a.balance + amount > MAX_U128 || !paid then None
    else Some(SetAccount(h, s, id, a.(balance := a.balance + amount)))
  }

  /** The bytes that identify an event. */
  function EventData(e: EventId): Bytes {
    LeBytes(8, e.logIndex) + LeBytes(8, e.receiptIndex) + e.header
  }

  function ExecMint(h: Host, s: State, p: Proof, paid: bool): Option<State> {
    var key := h.digest(EventData(p.event));
    var event := h.parse(p.logEntry);
    if key in s.used || !paid || event.None? || event.value.locker != h.locker then None
    else Some(s.(used := s.used + {key}))
  }

  function ExecFinish(h: Host, s: State, caller: Id, success: bool, recipient: Id, amount: U128, paid: bool): Option<State> {
    if caller != h.self || !success then None else
      var a :- GetAccount(h, s, recipient);
      if a.balance + amount > MAX_U128 || s.totalSupply + amount > MAX_U128 || !paid then None
      else
        Some(SetAccount(h, s.(totalSupply := s.totalSupply + amount), recipient, a.(balance := a.balance + amount)))
  }

  function ExecBurn(h: Host, s: State, caller: Id, amount: U128, recipientOk: bool): Option<State> {
    var a :- GetAccount(h, s, caller);
    if a.balance < amount || s.totalSupply < amount || !recipientOk then None
    else Some(SetAccount(h, s.(totalSupply := s.totalSupply - amount), caller, a.(balance := a.balance - amount)))
  }

  // ----- balances -----

  /** What the account stored under a key holds. */
  function Held(s: State, k: Key): nat {
    if k in s.accounts then s.accounts[k].balance else 0
  }

  /** Every balance shrinks by what `take` says and grows by what `add` says. */
  ghost predicate Moved(s: State, s': State, take: map<Key, nat>, add: map<Key, nat>) {
    forall k {:trigger Held(s', k)} :: Held(s', k) + Get(take, k) == Held(s, k) + Get(add, k)
  }

  lemma SetHeld(h: Host, s: State, id: Id, a: Account, k: Key)
    ensures Held(SetAccount(h, s, id, a), k) == if k == h.hash(id) then a.balance else Held(s, k)
  {
  }

  /** A transfer moves the amount and nothing else, even where two ids share a key. */
  lemma TransferMoves(h: Host, s: State, caller: Id, owner: Id, newOwner: Id, amount: U128, paid: bool)
    ensures var r := ExecTransfer(h, s, caller, owner, newOwner, amount, paid);
            r.Some? ==> Moved(s, r.value, map[h.hash(owner) := amount], map[h.hash(newOwner) := amount])
                        && r.value.totalSupply == s.totalSupply && r.value.used == s.used
  {
    var r := ExecTransfer(h, s, caller, owner, newOwner, amount, paid);
    if r.Some? {
      var a := Debited(h, GetAccount(h, s, owner).value, caller, owner, amount);
      var mid := SetAccount(h, s, owner, a);
      var n := GetAccount(h, mid, newOwner).value;
      forall k ensures Held(r.value, k) + Get(map[h.hash(owner) := amount], k) == Held(s, k) + Get(map[h.hash(newOwner) := amount], k) {
        SetHeld(h, s, owner, a, k);
        SetHeld(h, mid, newOwner, n.(balance := n.balance + amount), k);
      }
    }
  }
}
