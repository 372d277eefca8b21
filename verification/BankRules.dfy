/** What each banking call does, told from the accounts' own fields: who may act on an account, what every
    refusal means, and exactly what a call that goes through changes. */
module BankRules {
  import opened Bytes
  import opened Bank

  /** The amount, if there is one, is positive, and a transfer has two sides. */
  predicate Sane(c: Call) {
    (c.Deposit? || c.Withdraw? || c.Transfer? ==> c.amount > 0.0) && (c.Transfer? ==> c.id != c.to)
  }

  /** Every account the call names exists. */
  predicate Exists(b: Bank, c: Call) {
    !c.Open? && c.id in b.accounts && (c.Transfer? ==> c.to in b.accounts)
  }

  /** The caller gave the account's password and its holder's name. */
  predicate Authentic(b: Bank, c: Call)
    requires Exists(b, c)
  {
    b.accounts[c.id].password == c.pw && b.accounts[c.id].holder == c.name
  }

  /** The currency of the call, if it has one, is that of every account it names. */
  predicate RightCurrency(b: Bank, c: Call)
    requires Exists(b, c)
  {
    (c.Deposit? || c.Withdraw? || c.Transfer? ==> b.accounts[c.id].currency == c.currency)
    && (c.Transfer? ==> b.accounts[c.to].currency == c.currency)
  }

  predicate Covered(b: Bank, c: Call)
    requires Exists(b, c)
  {
    c.Withdraw? || c.Transfer? ==> b.accounts[c.id].balance >= c.amount
  }

  /** Nobody but its holder, under its password, gets anything from an account: in every other case
      the call fails and nothing changes. */
  lemma OnlyTheHolderActs(b: Bank, c: Call)
    requires !c.Open?
    ensures !Apply(b, c).1.Failed? ==>
              c.id in b.accounts && b.accounts[c.id].password == c.pw && b.accounts[c.id].holder == c.name
    ensures c.id !in b.accounts || b.accounts[c.id].password != c.pw || b.accounts[c.id].holder != c.name ==>
              Apply(b, c).1.Failed? && Apply(b, c).0 == b
  {
    RefusedExactly(b, c);
  }

  /** Every error, and success, exactly when: the checks come in this order. */
  lemma RefusedExactly(b: Bank, c: Call)
    ensures var r := Apply(b, c).1;
            (r == Failed(NonPositiveAmount) <==> (c.Deposit? || c.Withdraw? || c.Transfer?) && c.amount <= 0.0)
            && (r == Failed(TransferSameAccount) <==> c.Transfer? && c.amount > 0.0 && c.id == c.to)
            && (r == Failed(AccountNotFound) <==>
                c.Transfer? && Sane(c) && c.id in b.accounts && c.to !in b.accounts)
            && (r == Failed(InvalidCredentials) <==>
                !c.Open? && Sane(c)
                && (c.id !in b.accounts || (Exists(b, c) && b.accounts[c.id].password != c.pw)))
            && (r == Failed(AccountMismatch) <==>
                Sane(c) && Exists(b, c) && b.accounts[c.id].password == c.pw && b.accounts[c.id].holder != c.name)
            && (r == Failed(CurrencyMismatch) <==>
                Sane(c) && Exists(b, c) && Authentic(b, c) && !RightCurrency(b, c))
            && (r == Failed(InsufficientFunds) <==>
                Sane(c) && Exists(b, c) && Authentic(b, c) && RightCurrency(b, c) && !Covered(b, c))
    ensures !Apply(b, c).1.Failed? <==>
            c.Open? || (Sane(c) && Exists(b, c) && Authentic(b, c) && RightCurrency(b, c) && Covered(b, c))
    ensures Apply(b, c).1.Failed? ==> Apply(b, c).0 == b
  {
  }

  /** Nothing but these balances changed. */
  ghost predicate OnlyBalances(b: Bank, b': Bank, changed: map<u32, real>) {
    b'.nextId == b.nextId && b'.accounts.Keys == b.accounts.Keys
    && forall n <- b.accounts ::
         b'.accounts[n] == b.accounts[n].(balance := if n in changed then changed[n] else b.accounts[n].balance)
  }

  /** What a call that goes through changes and returns. */
  lemma ChangesExactly(b: Bank, c: Call)
    requires !Apply(b, c).1.Failed?
    ensures var (b', r) := Apply(b, c);
            match c
            case Open(name, pw, currency, initial) =>
              r == Opened(b.nextId) && b'.nextId == (b.nextId + 1) % 0x1_0000_0000
              && b'.accounts == b.accounts[b.nextId := Account(b.nextId, name, pw, currency, initial)]
            case Close(_, id, _) =>
              r == Closed && b'.nextId == b.nextId && b'.accounts == map n <- b.accounts | n != id :: b.accounts[n]
            case Deposit(_, id, _, _, amount) =>
              id in b.accounts && OnlyBalances(b, b', map[id := b.accounts[id].balance + amount])
              && r == Balance(b.accounts[id].balance + amount)
            case Withdraw(_, id, _, _, amount) =>
              id in b.accounts && OnlyBalances(b, b', map[id := b.accounts[id].balance - amount])
              && r == Balance(b.accounts[id].balance - amount)
            case CheckBalance(_, id, _) =>
              id in b.accounts && b' == b && r == Balance(b.accounts[id].balance)
            case Transfer(_, id, _, to, _, amount) =>
              id in b.accounts && to in b.accounts && id != to
              && var from', to' := b.accounts[id].balance - amount, b.accounts[to].balance + amount;
                 OnlyBalances(b, b', map[id := from', to := to']) && r == Balances(from', to')
  {
  }

  /** Numbers are given out from 10000 upwards, one per opening, closed ones not again, until 32 bits wrap. */
  lemma {:induction false} NumbersAreIssuedInTurn(cs: seq<Call>)
    ensures After(cs).nextId == (10000 + Opens(cs)) % 0x1_0000_0000
  {
    if cs != [] {
      hide Refusal;
      var init, c := cs[..|cs| - 1], cs[|cs| - 1];
      NumbersAreIssuedInTurn(init);
      if Apply(After(init), c).1.Failed? {
        RefusedExactly(After(init), c);
      } else {
        ChangesExactly(After(init), c);
      }
    }
  }
}
