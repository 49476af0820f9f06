/** The token contract of mintable-fungible-token: methods that update the accounts, the supply and the used
    events. A method that returns false panicked and left everything as it was. */
module Token {
  import opened Prelude
  import opened Borsh
  import opened TokenSpec

  class MintableFungibleToken {
    const host: Host
    var accounts: map<Key, Account>
    var totalSupply: U128
    var usedEvents: set<Key>

    constructor (host: Host)
      ensures this.host == host && Contents() == EMPTY
    {
      this.host := host;
      accounts, totalSupply, usedEvents := map[], 0, {};
    }

    /** `new`: the locker's address must be twenty bytes in hex. `null` is a panic. */
    static method Deploy(host: Host, locker: string, initialized: bool) returns (token: MintableFungibleToken?)
      ensures token == null <==> initialized || EthAddress(locker).None?
      ensures token != null ==> fresh(token) && token.Contents() == EMPTY
      ensures token != null ==> token.host == host.(locker := HexDecode(locker).value) && |token.host.locker| == 20
    {
      var data := HexDecode(locker);
      if data.None? || |data.value| != 20 || initialized {
        return null;
      }
      token := new MintableFungibleToken(host.(locker := data.value));
    }

    ghost function Contents(): State
      reads this
    {
      State(accounts, totalSupply, usedEvents)
    }

    /** The call ended as the specification says: a panic changes nothing. */
    twostate predicate Did(r: Option<State>, ok: bool)
      reads this
    {
      (ok <==> r.Some?) && Contents() == if ok then r.value else old(Contents())
    }

    method Read(id: Id) returns (a: Option<Account>)
      ensures a == GetAccount(host, Contents(), id)
    {
      if !host.valid(id) {
        return None;
      }
      var k := host.hash(id);
      a := Some(if k in accounts then accounts[k] else Account(0, map[]));
    }

    /** `set_account`. */
    method Write(id: Id, a: Account)
      modifies this`accounts
      ensures Contents() == SetAccount(host, old(Contents()), id, a)
    {
      if a.balance > 0 || a.allowances != map[] {
        accounts := accounts[host.hash(id) := a];
      } else {
        accounts := accounts - {host.hash(id)};
      }
    }

    method IncAllowance(caller: Id, escrow: Id, amount: U128, paid: bool) returns (ok: bool)
      modifies this`accounts
      ensures Did(Exec(host, old(Contents()), caller, TokenSpec.IncAllowance(escrow, amount), paid), ok)
    {
      if !host.valid(escrow) || escrow == caller {
        return false;
      }
      var a := Read(caller);
      if a.None? || !paid {
        return false;
      }
      var current := GetAllowance(host, a.value, escrow);
      var sum := if current + amount > MAX_U128 then MAX_U128 else current + amount;
      Write(caller, SetAllowance(host, a.value, escrow, sum));
      ok := true;
    }

    method DecAllowance(caller: Id, escrow: Id, amount: U128, paid: bool) returns (ok: bool)
      modifies this`accounts
      ensures Did(Exec(host, old(Contents()), caller, TokenSpec.DecAllowance(escrow, amount), paid), ok)
    {
      if !host.valid(escrow) || escrow == caller {
        return false;
      }
      var a := Read(caller);
      if a.None? || !paid {
        return false;
      }
      var current := GetAllowance(host, a.value, escrow);
      var difference := if current < amount then 0 else current - amount;
      Write(caller, SetAllowance(host, a.value, escrow, difference));
      ok := true;
    }

    /** The owner's account is written before the recipient's is read; a later panic undoes the write. */
    method TransferFrom(caller: Id, owner: Id, newOwner: Id, amount: U128, paid: bool) returns (ok: bool)
      modifies this`accounts
      ensures Did(Exec(host, old(Contents()), caller, TokenSpec.TransferFrom(owner, newOwner, amount), paid), ok)
      ensures ok ==> Moved(old(Contents()), Contents(), map[host.hash(owner) := amount], map[host.hash(newOwner) := amount])
    {
      if !host.valid(newOwner) || amount == 0 || owner == newOwner {
        return false;
      }
      var a := Read(owner);
      if a.None? || a.value.balance < amount {
        return false;
      }
      var account := a.value.(balance := a.value.balance - amount);
      if caller != owner {
        var allowance := GetAllowance(host, account, caller);
        if allowance < amount {
          return false;
        }
        account := SetAllowance(host, account, caller, allowance - amount);
      }
      var before := accounts;
      Write(owner, account);
      var n := Read(newOwner);
      if n.None? || n.value.balance + amount > MAX_U128 || !paid {
        accounts := before;
        return false;
      }
      Write(newOwner, n.value.(balance := n.value.balance + amount));
      ok := true;
      TransferMoves(host, old(Contents()), caller, owner, newOwner, amount, paid);
    }

    /** `mint`: the proof is recorded at once; the rest waits for the prover. Returns what `finish_mint` is to be called
        with. */
    method Mint(caller: Id, proof: Proof, paid: bool) returns (ok: bool, promise: Option<(Id, U128)>)
      modifies this`usedEvents
      ensures Did(Exec(host, old(Contents()), caller, TokenSpec.Mint(proof), paid), ok)
      ensures promise.Some? == ok
      ensures ok ==> host.parse(proof.logEntry) == Some(Event(host.locker, promise.value.0, promise.value.1))
    {
      var key := host.digest(EventData(proof.event));
      var event := host.parse(proof.logEntry);
      if key in usedEvents || !paid || event.None? || event.value.locker != host.locker {
        return false, None;
      }
      usedEvents := usedEvents + {key};
      ok, promise := true, Some((event.value.recipient, event.value.amount));
    }

    method FinishMint(caller: Id, success: bool, recipient: Id, amount: U128, paid: bool) returns (ok: bool)
      modifies this`accounts, this`totalSupply
      ensures Did(Exec(host, old(Contents()), caller, TokenSpec.FinishMint(success, recipient, amount), paid), ok)
      ensures ok ==> Moved(old(Contents()), Contents(), map[], map[host.hash(recipient) := amount])
      ensures ok ==> totalSupply == old(totalSupply) + amount
    {
      if caller != host.self || !success {
        return false;
      }
      var a := Read(recipient);
      if a.None? || a.value.balance + amount > MAX_U128 || totalSupply + amount > MAX_U128 || !paid {
        return false;
      }
      totalSupply := totalSupply + amount;
      Write(recipient, a.value.(balance := a.value.balance + amount));
      ok := true;
    }

    /** Returns the amount and the address that Ethereum is to pay. */
    method Burn(caller: Id, amount: U128, recipient: string, paid: bool) returns (ok: bool, claim: Option<(U128, Bytes)>)
      modifies this`accounts, this`totalSupply
      ensures Did(Exec(host, old(Contents()), caller, TokenSpec.Burn(amount, EthAddress(recipient).Some?), paid), ok)
      ensures claim.Some? == ok
      ensures ok ==> |claim.value.1| == 20 && claim == Some((amount, HexDecode(recipient).value))
      ensures ok ==> Moved(old(Contents()), Contents(), map[host.hash(caller) := amount], map[])
      ensures ok ==> totalSupply + amount == old(totalSupply)
    {
      var a := Read(caller);
      if a.None? || a.value.balance < amount || totalSupply < amount {
        return false, None;
      }
      var bytes := HexDecode(recipient);
      if bytes.None? || |bytes.value| != 20 {
        return false, None;
      }
      totalSupply := totalSupply - amount;
      Write(caller, a.value.(balance := a.value.balance - amount));
      ok, claim := true, Some((amount, bytes.value));
    }
  }
}
