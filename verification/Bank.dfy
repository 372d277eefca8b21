/** The bank as one call at a time sees it: accounts by number, and what each service call does.
    Money is exact: the floating-point rounding of the program is not modelled. */
module Bank {
  import opened Bytes

  const FIRST_ID: u32 := 10000
  const ID_SPACE: nat := 0x1_0000_0000

  type Password = s: bytes | |s| == 8 witness [0, 0, 0, 0, 0, 0, 0, 0]

  datatype Account = Account(number: u32, holder: bytes, password: Password, currency: byte, balance: real)

  datatype Bank = Bank(accounts: map<u32, Account>, nextId: u32)

  const NEW_BANK: Bank := Bank(map[], FIRST_ID)

  datatype Error =
    | InvalidCredentials
    | AccountMismatch
    | CurrencyMismatch
    | InsufficientFunds
    | TransferSameAccount
    | AccountNotFound
    | NonPositiveAmount
    | StoreNotFound // the store's own not-found error, from Update or Delete

  datatype Call =
    | Open(name: bytes, pw: Password, currency: byte, initial: real)
    | Close(name: bytes, id: u32, pw: Password)
    | Deposit(name: bytes, id: u32, pw: Password, currency: byte, amount: real)
    | Withdraw(name: bytes, id: u32, pw: Password, currency: byte, amount: real)
    | CheckBalance(name: bytes, id: u32, pw: Password)
    | Transfer(name: bytes, id: u32, pw: Password, to: u32, currency: byte, amount: real)

  datatype Return =
    | Opened(number: u32)
    | Closed
    | Balance(balance: real)
    | Balances(from: real, to: real)
    | Failed(error: Error)

  /** The password is compared before the name. */
  function CheckAuth(a: Account, name: bytes, pw: Password): Option<Error> {
    if a.password != pw then Some(InvalidCredentials)
    else if a.holder != name then Some(AccountMismatch)
    else None
  }

  function SetBalance(b: Bank, id: u32, balance: real): Bank
    requires id in b.accounts
  {
    b.(accounts := b.accounts[id := b.accounts[id].(balance := balance)])
  }

  /** What the call returns when it is refused before any account is locked; None when it goes on. */
  function Refusal(b: Bank, c: Call): Option<Error> {
    if c.Open? then None
    else if !c.Close? && !c.CheckBalance? && c.amount <= 0.0 then Some(NonPositiveAmount)
    else if c.Transfer? && c.id == c.to then Some(TransferSameAccount)
    else if c.id !in b.accounts then Some(InvalidCredentials)
    else if c.Transfer? && c.to !in b.accounts then Some(AccountNotFound)
    else if CheckAuth(b.accounts[c.id], c.name, c.pw).Some? then CheckAuth(b.accounts[c.id], c.name, c.pw)
    else if c.Transfer? && (b.accounts[c.id].currency != c.currency
                            || b.accounts[c.id].currency != b.accounts[c.to].currency) then Some(CurrencyMismatch)
    else None
  }

  /** One call, start to end, with nothing running beside it. */
  function Apply(b: Bank, c: Call): (Bank, Return) {
    if Refusal(b, c).Some? then (b, Failed(Refusal(b, c).value))
    else
      match c
      case Open(name, pw, currency, initial) =>
        (Bank(b.accounts[b.nextId := Account(b.nextId, name, pw, currency, initial)], (b.nextId + 1) % ID_SPACE),
         Opened(b.nextId))
      case Close(_, id, _) =>
        (b.(accounts := b.accounts - {id}), Closed)
      case Deposit(_, id, _, currency, amount) =>
        if b.accounts[id].currency != currency then (b, Failed(CurrencyMismatch))
        else (SetBalance(b, id, b.accounts[id].balance + amount), Balance(b.accounts[id].balance + amount))
      case Withdraw(_, id, _, currency, amount) =>
        if b.accounts[id].currency != currency then (b, Failed(CurrencyMismatch))
        else if b.accounts[id].balance < amount then (b, Failed(InsufficientFunds))
        else (SetBalance(b, id, b.accounts[id].balance - amount), Balance(b.accounts[id].balance - amount))
      case CheckBalance(_, id, _) =>
        (b, Balance(b.accounts[id].balance))
      case Transfer(_, id, _, to, _, amount) =>
        if b.accounts[id].balance < amount then (b, Failed(InsufficientFunds))
        else
          var from', to' := b.accounts[id].balance - amount, b.accounts[to].balance + amount;
          (SetBalance(SetBalance(b, id, from'), to, to'), Balances(from', to'))
  }

  /** No call made alone ever returns the store's own not-found error. */
  lemma NeverStoreNotFoundAlone(b: Bank, c: Call)
    ensures Apply(b, c).1 != Failed(StoreNotFound)
  {
  }

  // ----- sequences of calls -----

  function After(cs: seq<Call>): Bank {
    if cs == [] then NEW_BANK else Apply(After(cs[..|cs| - 1]), cs[|cs| - 1]).0
  }

  function Opens(cs: seq<Call>): nat {
    if cs == [] then 0 else Opens(cs[..|cs| - 1]) + if cs[|cs| - 1].Open? then 1 else 0
  }

  /** Numbers have not wrapped: every live account has its own number, given out before. */
  ghost predicate Numbered(b: Bank, opens: nat) {
    b.nextId == FIRST_ID + opens
    && forall id <- b.accounts :: FIRST_ID <= id < b.nextId && b.accounts[id].number == id
  }

  lemma {:induction false} NumbersDoNotWrap(cs: seq<Call>)
    requires Opens(cs) < ID_SPACE - FIRST_ID
    ensures Numbered(After(cs), Opens(cs))
  {
    if cs != [] {
      NumbersDoNotWrap(cs[..|cs| - 1]);
    }
  }

  // ----- conservation, currency by currency -----

  function Share(m: map<u32, Account>, currency: byte, id: u32): real {
    if id in m && m[id].currency == currency then m[id].balance else 0.0
  }

  /** Total balance in one currency of the accounts numbered below `hi`. */
  function Total(m: map<u32, Account>, currency: byte, hi: nat): real
    requires hi <= ID_SPACE
  {
    if hi == 0 then 0.0 else Total(m, currency, hi - 1) + Share(m, currency, hi - 1)
  }

  lemma {:induction false} TotalChange(m: map<u32, Account>, m': map<u32, Account>, currency: byte, id: u32, hi: nat)
    requires hi <= ID_SPACE
    requires forall k: u32 | k != id :: Share(m, currency, k) == Share(m', currency, k)
    ensures Total(m', currency, hi)
         == Total(m, currency, hi) + if id < hi then Share(m', currency, id) - Share(m, currency, id) else 0.0
  {
    if hi > 0 {
      TotalChange(m, m', currency, id, hi - 1);
    }
  }

  /** Money a call brings into (or, negative, takes out of) the live accounts of one currency. */
  function Inflow(b: Bank, c: Call, currency: byte): real {
    var r := Apply(b, c).1;
    if r.Failed? then 0.0
    else match c
      case Open(_, _, cur, initial) => if cur == currency then initial else 0.0
      case Close(_, id, _) => -Share(b.accounts, currency, id)
      case Deposit(_, _, _, cur, amount) => if cur == currency then amount else 0.0
      case Withdraw(_, _, _, cur, amount) => if cur == currency then -amount else 0.0
      case _ => 0.0
  }

  function Inflows(cs: seq<Call>, currency: byte): real {
    if cs == [] then 0.0
    else Inflows(cs[..|cs| - 1], currency) + Inflow(After(cs[..|cs| - 1]), cs[|cs| - 1], currency)
  }

  lemma CallConserves(b: Bank, c: Call, currency: byte, opens: nat)
    requires Numbered(b, opens)
    ensures var hi := ID_SPACE;
            Total(Apply(b, c).0.accounts, currency, hi) == Total(b.accounts, currency, hi) + Inflow(b, c, currency)
  {
    var b' := Apply(b, c).0;
    if c.Open? {
      TotalChange(b.accounts, b'.accounts, currency, b.nextId, ID_SPACE);
    } else if c.Transfer? && !Apply(b, c).1.Failed? {
      var mid := SetBalance(b, c.id, b.accounts[c.id].balance - c.amount);
      TotalChange(b.accounts, mid.accounts, currency, c.id, ID_SPACE);
      TotalChange(mid.accounts, b'.accounts, currency, c.to, ID_SPACE);
    } else {
      TotalChange(b.accounts, b'.accounts, currency, c.id, ID_SPACE);
    }
  }

  lemma {:induction false} NothingIsLiveAtFirst(currency: byte, hi: nat)
    requires hi <= ID_SPACE
    ensures Total(map[], currency, hi) == 0.0
  {
    if hi > 0 {
      NothingIsLiveAtFirst(currency, hi - 1);
    }
  }

  /** In each currency, the live balances add up to openings plus deposits, less withdrawals and
      the balances that closing removed. Transfers move nothing between currencies. */
  lemma {:induction false} Conservation(cs: seq<Call>, currency: byte)
    requires Opens(cs) < ID_SPACE - FIRST_ID
    ensures Total(After(cs).accounts, currency, ID_SPACE) == Inflows(cs, currency)
  {
    if cs == [] {
      NothingIsLiveAtFirst(currency, ID_SPACE);
    } else {
      var init := cs[..|cs| - 1];
      Conservation(init, currency);
      NumbersDoNotWrap(init);
      CallConserves(After(init), cs[|cs| - 1], currency, Opens(init));
    }
  }

  // ----- no balance is ever driven below its floor -----

  /** The opening balance of every number given out so far. */
  function Openings(cs: seq<Call>): map<u32, real> {
    if cs == [] then map[]
    else
      var before := Openings(cs[..|cs| - 1]);
      var c := cs[|cs| - 1];
      if c.Open? then before[After(cs[..|cs| - 1]).nextId := c.initial] else before
  }

  /** Only an account opened in debt is ever in debt, and never further than it was opened. */
  lemma {:induction false} Floor(cs: seq<Call>)
    ensures forall id <- After(cs).accounts ::
              id in Openings(cs)
              && After(cs).accounts[id].balance >= if Openings(cs)[id] < 0.0 then Openings(cs)[id] else 0.0
  {
    if cs != [] {
      Floor(cs[..|cs| - 1]);
    }
  }

  // ----- the same call again and again -----

  function Repeat(b: Bank, c: Call, k: nat): Bank {
    if k == 0 then b else Apply(Repeat(b, c, k - 1), c).0
  }

  function Affordable(balance: real, amount: real): nat
    requires balance >= 0.0 && amount > 0.0
  {
    (balance / amount).Floor
  }

  function Min(a: nat, b: nat): nat {
    if a < b then a else b
  }

  function Times(n: nat, amount: real): real {
    n as real * amount
  }

  lemma ScaleOrder(x: real, y: real, a: real)
    requires a > 0.0
    ensures x <= y <==> x * a <= y * a
  {
    if x <= y {
      assert (y - x) * a >= 0.0;
    } else {
      assert (x - y) * a > 0.0;
    }
  }

  lemma AffordableExactly(balance: real, amount: real, n: nat)
    requires balance >= 0.0 && amount > 0.0
    ensures n < Affordable(balance, amount) <==> balance - Times(n, amount) >= amount
    ensures Times(n + 1, amount) == Times(n, amount) + amount
  {
    var q := balance / amount;
    assert q * amount == balance;
    FloorExactly(q, amount, n);
  }

  lemma FloorExactly(q: real, amount: real, n: nat)
    requires amount > 0.0
    ensures n < q.Floor <==> q * amount - Times(n, amount) >= amount
    ensures Times(n + 1, amount) == Times(n, amount) + amount
  {
    ScaleOrder((n + 1) as real, q, amount);
    assert n < q.Floor <==> (n + 1) as real <= q;
  }

  /** A withdrawal or transfer that would be taken on its funds alone. */
  predicate Payable(b: Bank, c: Call) {
    (c.Withdraw? || c.Transfer?) && Refusal(b, c) == None && b.accounts[c.id].currency == c.currency
    && b.accounts[c.id].balance >= 0.0
  }

  /** The bank after payments of `paid` in all. */
  function Debited(b: Bank, c: Call, paid: real): Bank
    requires Payable(b, c)
  {
    var after := SetBalance(b, c.id, b.accounts[c.id].balance - paid);
    if c.Transfer? then SetBalance(after, c.to, b.accounts[c.to].balance + paid) else after
  }

  lemma PayOnce(b: Bank, c: Call, paid: real)
    requires Payable(b, c)
    ensures Apply(Debited(b, c, paid), c).0
         == Debited(b, c, if b.accounts[c.id].balance - paid >= c.amount then paid + c.amount else paid)
  {
    var d := Debited(b, c, paid);
    assert Refusal(d, c) == None;
    if d.accounts[c.id].balance >= c.amount {
      assert Apply(d, c).0.accounts == Debited(b, c, paid + c.amount).accounts;
    }
  }

  /** k deliveries of one payable request pay exactly as often as the opening balance covers. */
  lemma {:induction false} RepeatedPayment(b: Bank, c: Call, k: nat)
    requires Payable(b, c)
    ensures Repeat(b, c, k)
         == Debited(b, c, Times(Min(k, Affordable(b.accounts[c.id].balance, c.amount)), c.amount))
  {
    if k == 0 {
      assert Debited(b, c, 0.0).accounts == b.accounts;
    } else {
      hide Times;
      RepeatedPayment(b, c, k - 1);
      var times := Min(k - 1, Affordable(b.accounts[c.id].balance, c.amount));
      AffordableExactly(b.accounts[c.id].balance, c.amount, times);
      PayOnce(b, c, Times(times, c.amount));
    }
  }
}
