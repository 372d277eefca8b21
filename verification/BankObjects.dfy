/** The account store and the banking service as mutable objects, one call at a time. What each
    method does to the store is the value-level Bank.Apply. */
module BankObjects {
  import opened Bytes
  import Bank

  class AccountObject {
    var number: u32
    const holder: bytes
    const password: Bank.Password
    const currency: byte
    var balance: real

    constructor (holder: bytes, password: Bank.Password, currency: byte, balance: real)
      ensures this.holder == holder && this.password == password && this.currency == currency && this.balance == balance
    {
      this.number := 0;
      this.holder, this.password, this.currency, this.balance := holder, password, currency, balance;
    }

    function Value(): Bank.Account
      reads this
    {
      Bank.Account(number, holder, password, currency, balance)
    }
  }

  class MemoryStore {
    var accounts: map<u32, AccountObject>
    var nextId: u32

    ghost predicate Valid()
      reads this, accounts.Values
    {
      forall id <- accounts :: accounts[id].number == id
    }

    ghost function Contents(): Bank.Bank
      reads this, accounts.Values
    {
      Bank.Bank(map id <- accounts :: accounts[id].Value(), nextId)
    }

    constructor ()
      ensures Valid() && Contents() == Bank.NEW_BANK && accounts == map[]
    {
      accounts, nextId := map[], Bank.FIRST_ID;
    }

    method CreateAccount(acc: AccountObject) returns (id: u32)
      requires Valid() && acc !in accounts.Values
      modifies this, acc`number
      ensures Valid() && id == old(nextId) && nextId == (id + 1) % Bank.ID_SPACE && accounts == old(accounts)[id := acc]
      ensures acc.number == id
    {
      id := nextId;
      acc.number := id;
      accounts := accounts[id := acc];
      nextId := (nextId + 1) % Bank.ID_SPACE;
    }

    method GetAccount(id: u32) returns (r: Option<AccountObject>)
      ensures r == if id in accounts then Some(accounts[id]) else None
    {
      r := if id in accounts then Some(accounts[id]) else None;
    }

    method UpdateAccount(acc: AccountObject) returns (error: Option<Bank.Error>)
      modifies this`accounts
      ensures acc.number in old(accounts) ==> error == None && accounts == old(accounts)[acc.number := acc]
      ensures acc.number !in old(accounts) ==> error == Some(Bank.StoreNotFound) && accounts == old(accounts)
    {
      if acc.number !in accounts {
        return Some(Bank.StoreNotFound);
      }
      accounts := accounts[acc.number := acc];
      return None;
    }

    method DeleteAccount(id: u32) returns (error: Option<Bank.Error>)
      modifies this`accounts
      ensures id in old(accounts) ==> error == None && accounts == old(accounts) - {id}
      ensures id !in old(accounts) ==> error == Some(Bank.StoreNotFound) && accounts == old(accounts)
    {
      if id !in accounts {
        return Some(Bank.StoreNotFound);
      }
      accounts := accounts - {id};
      return None;
    }
  }

  lemma SetBoth(b: Bank.Bank, b': Bank.Bank, f: u32, x: real, t: u32, y: real)
    requires f != t && f in b.accounts && t in b.accounts
    requires b'.nextId == b.nextId && b'.accounts.Keys == b.accounts.Keys
    requires b'.accounts[f] == b.accounts[f].(balance := x) && b'.accounts[t] == b.accounts[t].(balance := y)
    requires forall id <- b.accounts | id != f && id != t :: b'.accounts[id] == b.accounts[id]
    ensures b' == Bank.SetBalance(Bank.SetBalance(b, f, x), t, y)
  {
  }

  /** Each method's result and new store are those of the same call made on the old contents. The
      store's not-found errors are unreachable here: each branch that would see one is refuted. */
  class Service {
    const store: MemoryStore

    constructor (store: MemoryStore)
      ensures this.store == store
    {
      this.store := store;
    }

    method OpenAccount(name: bytes, pw: Bank.Password, currency: byte, balance: real) returns (r: Bank.Return)
      requires store.Valid()
      modifies store
      ensures store.Valid() && fresh(store.accounts.Values - old(store.accounts.Values))
      ensures (store.Contents(), r) == Bank.Apply(old(store.Contents()), Bank.Open(name, pw, currency, balance))
      ensures r == Bank.Opened(old(store.nextId))
    {
      var acc := new AccountObject(name, pw, currency, balance);
      var id := store.CreateAccount(acc);
      r := Bank.Opened(id);
      assert store.Contents().accounts == old(store.Contents().accounts)[id := acc.Value()];
    }

    method CloseAccount(name: bytes, id: u32, pw: Bank.Password) returns (r: Bank.Return)
      requires store.Valid()
      modifies store
      ensures store.Valid() && store.accounts.Values <= old(store.accounts.Values)
      ensures (store.Contents(), r) == Bank.Apply(old(store.Contents()), Bank.Close(name, id, pw))
      ensures r.Failed? || r.Closed?
    {
      var acc := store.GetAccount(id);
      if acc.None? {
        return Bank.Failed(Bank.InvalidCredentials);
      }
      var denied := Bank.CheckAuth(acc.value.Value(), name, pw);
      if denied.Some? {
        return Bank.Failed(denied.value);
      }
      var error := store.DeleteAccount(id);
      if error.Some? {
        assert false;
      }
      assert store.Contents().accounts == old(store.Contents().accounts) - {id};
      return Bank.Closed;
    }

    method Deposit(name: bytes, id: u32, pw: Bank.Password, currency: byte, amount: real) returns (r: Bank.Return)
      requires store.Valid()
      modifies store, store.accounts.Values
      ensures store.Valid() && store.accounts == old(store.accounts)
      ensures (store.Contents(), r) == Bank.Apply(old(store.Contents()), Bank.Deposit(name, id, pw, currency, amount))
      ensures r.Failed? || r.Balance?
    {
      ghost var before := store.Contents();
      if amount <= 0.0 {
        return Bank.Failed(Bank.NonPositiveAmount);
      }
      var acc := store.GetAccount(id);
      if acc.None? {
        return Bank.Failed(Bank.InvalidCredentials);
      }
      var denied := Bank.CheckAuth(acc.value.Value(), name, pw);
      if denied.Some? {
        return Bank.Failed(denied.value);
      }
      if acc.value.currency != currency {
        return Bank.Failed(Bank.CurrencyMismatch);
      }
      acc.value.balance := acc.value.balance + amount;
      var error := store.UpdateAccount(acc.value);
      if error.Some? {
        assert false;
      }
      assert store.Contents().accounts == Bank.SetBalance(before, id, acc.value.balance).accounts;
      return Bank.Balance(acc.value.balance);
    }

    method Withdraw(name: bytes, id: u32, pw: Bank.Password, currency: byte, amount: real) returns (r: Bank.Return)
      requires store.Valid()
      modifies store, store.accounts.Values
      ensures store.Valid() && store.accounts == old(store.accounts)
      ensures (store.Contents(), r) == Bank.Apply(old(store.Contents()), Bank.Withdraw(name, id, pw, currency, amount))
      ensures r.Failed? || r.Balance?
    {
      ghost var before := store.Contents();
      if amount <= 0.0 {
        return Bank.Failed(Bank.NonPositiveAmount);
      }
      var acc := store.GetAccount(id);
      if acc.None? {
        return Bank.Failed(Bank.InvalidCredentials);
      }
      var denied := Bank.CheckAuth(acc.value.Value(), name, pw);
      if denied.Some? {
        return Bank.Failed(denied.value);
      }
      if acc.value.currency != currency {
        return Bank.Failed(Bank.CurrencyMismatch);
      }
      if acc.value.balance < amount {
        return Bank.Failed(Bank.InsufficientFunds);
      }
      acc.value.balance := acc.value.balance - amount;
      var error := store.UpdateAccount(acc.value);
      if error.Some? {
        assert false;
      }
      assert store.Contents().accounts == Bank.SetBalance(before, id, acc.value.balance).accounts;
      return Bank.Balance(acc.value.balance);
    }

    method CheckBalance(name: bytes, id: u32, pw: Bank.Password) returns (r: Bank.Return)
      requires store.Valid()
      ensures (store.Contents(), r) == Bank.Apply(store.Contents(), Bank.CheckBalance(name, id, pw))
      ensures r.Failed? || r.Balance?
    {
      var acc := store.GetAccount(id);
      if acc.None? {
        return Bank.Failed(Bank.InvalidCredentials);
      }
      var denied := Bank.CheckAuth(acc.value.Value(), name, pw);
      if denied.Some? {
        return Bank.Failed(denied.value);
      }
      return Bank.Balance(acc.value.balance);
    }

    method Transfer(name: bytes, id: u32, pw: Bank.Password, to: u32, currency: byte, amount: real)
      returns (r: Bank.Return)
      requires store.Valid()
      modifies store, store.accounts.Values
      ensures store.Valid() && store.accounts == old(store.accounts)
      ensures (store.Contents(), r) == Bank.Apply(old(store.Contents()),
                                                  Bank.Transfer(name, id, pw, to, currency, amount))
      ensures r.Failed? || r.Balances?
    {
      hide Bank.SetBalance;
      if amount <= 0.0 {
        return Bank.Failed(Bank.NonPositiveAmount);
      }
      if id == to {
        return Bank.Failed(Bank.TransferSameAccount);
      }
      var from := store.GetAccount(id);
      if from.None? {
        return Bank.Failed(Bank.InvalidCredentials);
      }
      var target := store.GetAccount(to);
      if target.None? {
        return Bank.Failed(Bank.AccountNotFound);
      }
      var denied := Bank.CheckAuth(from.value.Value(), name, pw);
      if denied.Some? {
        return Bank.Failed(denied.value);
      }
      if from.value.currency != currency || from.value.currency != target.value.currency {
        return Bank.Failed(Bank.CurrencyMismatch);
      }
      r := MoveFunds(from.value, target.value, amount);
    }

    /** The part of a transfer made under both mutexes. */
    method MoveFunds(from: AccountObject, target: AccountObject, amount: real) returns (r: Bank.Return)
      requires store.Valid() && from.number != target.number
      requires from.number in store.accounts && store.accounts[from.number] == from
      requires target.number in store.accounts && store.accounts[target.number] == target
      modifies store, from`balance, target`balance
      ensures store.Valid() && store.accounts == old(store.accounts)
      ensures old(from.balance) < amount ==>
                r == Bank.Failed(Bank.InsufficientFunds) && store.Contents() == old(store.Contents())
      ensures old(from.balance) >= amount ==> r == Bank.Balances(from.balance, target.balance)
      ensures old(from.balance) >= amount ==>
                from.balance == old(from.balance) - amount && target.balance == old(target.balance) + amount
      ensures old(from.balance) >= amount ==>
                store.Contents() == Bank.SetBalance(Bank.SetBalance(old(store.Contents()), from.number, from.balance),
                                                    target.number, target.balance)
    {
      ghost var before := store.Contents();
      if from.balance < amount {
        return Bank.Failed(Bank.InsufficientFunds);
      }
      from.balance := from.balance - amount;
      target.balance := target.balance + amount;
      var ignored := store.UpdateAccount(from);
      assert ignored == None;
      ignored := store.UpdateAccount(target);
      assert ignored == None && store.accounts == old(store.accounts);
      SetBoth(before, store.Contents(), from.number, from.balance, target.number, target.balance);
      return Bank.Balances(from.balance, target.balance);
    }
  }
}
