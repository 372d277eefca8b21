/** What one request packet does and how it is answered, told in the protocol's own numbers from the command's
    fields and the accounts: the status of every reply, and for each service the accounts, the reply's bytes and
    the updates announced. */
module RequestRules {
  import opened Bytes
  import opened Commands
  import opened Handling
  import opened BankRules
  import opened S = ServerCodec
  import Bank
  import opened Dispatching

  /** The packet has a header, and what follows decodes to the command. */
  predicate Carries(data: bytes, c: Command) {
    |data| >= 18 && Decode(data[18..]) == Ok(c)
  }

  /** The service is known and no field it needs is missing. */
  predicate Complete(c: Command) {
    c.service.Some? &&
    match c.service.value
    case 1 => c.ownerName.Some? && c.password.Some? && c.currency.Some? && c.money.Some?
    case 2 | 6 => c.ownerName.Some? && c.accountNumber.Some? && c.password.Some?
    case 3 | 4 =>
      c.ownerName.Some? && c.accountNumber.Some? && c.password.Some? && c.currency.Some? && c.money.Some?
    case 5 => c.monitorSeconds.Some?
    case 7 =>
      c.ownerName.Some? && c.accountNumber.Some? && c.password.Some? && c.currency.Some? && c.money.Some?
      && c.txAccountNumber.Some? && c.txOwnerName.Some?
    case _ => false
  }

  /** The stored password is the given one, cut to eight bytes or filled up with zeroes. */
  predicate SamePassword(stored: Bank.Password, given: bytes) {
    forall i: nat | i < 8 :: stored[i] == if i < |given| then given[i] else 0
  }

  lemma FixedPasswordIsSame(stored: Bank.Password, given: bytes)
    ensures stored == FixedPassword(given) <==> SamePassword(stored, given)
  {
    var fixed := FixedPassword(given);
    assert forall i: nat | i < 8 :: fixed[i] == if i < |given| then given[i] else 0;
    if SamePassword(stored, given) {
      assert stored == fixed;
    }
  }

  // ----- the checks, in the program's order -----

  predicate TooSmall(m: MoneyFormat, c: Command)
    requires Complete(c)
  {
    (c.service.value == 3 || c.service.value == 4 || c.service.value == 7) && m.read(c.money.value) <= 0.0
  }

  /** Everything but opening and monitoring concerns an account. */
  predicate OnAccount(m: MoneyFormat, c: Command) {
    Complete(c) && c.service.value != 1 && c.service.value != 5 && !TooSmall(m, c)
  }

  predicate ToItself(c: Command) {
    c.service == Some(7) && c.accountNumber == c.txAccountNumber
  }

  predicate Known(b: Bank.Bank, number: Option<u32>) {
    number.Some? && number.value in b.accounts
  }

  /** The accounts concerned all exist. */
  predicate Found(m: MoneyFormat, b: Bank.Bank, c: Command) {
    OnAccount(m, c) && !ToItself(c) && Known(b, c.accountNumber)
    && (c.service == Some(7) ==> Known(b, c.txAccountNumber))
  }

  predicate PasswordFits(m: MoneyFormat, b: Bank.Bank, c: Command) {
    Found(m, b, c) && SamePassword(b.accounts[c.accountNumber.value].password, c.password.value)
  }

  predicate Trusted(m: MoneyFormat, b: Bank.Bank, c: Command) {
    PasswordFits(m, b, c) && b.accounts[c.accountNumber.value].holder == c.ownerName.value
  }

  predicate CurrencyFits(m: MoneyFormat, b: Bank.Bank, c: Command) {
    Trusted(m, b, c)
    && (c.service.value != 2 && c.service.value != 6 ==>
          b.accounts[c.accountNumber.value].currency == c.currency.value)
    && (c.service.value == 7 ==> b.accounts[c.txAccountNumber.value].currency == c.currency.value)
  }

  predicate FundsSuffice(m: MoneyFormat, b: Bank.Bank, c: Command) {
    CurrencyFits(m, b, c)
    && (c.service.value == 4 || c.service.value == 7 ==>
          b.accounts[c.accountNumber.value].balance >= m.read(c.money.value))
  }

  /** When a command is answered with a status. */
  predicate Deserves(m: MoneyFormat, b: Bank.Bank, c: Command, status: byte) {
    match status
    case 0 => FundsSuffice(m, b, c) || (Complete(c) && (c.service.value == 1 || c.service.value == 5))
    case 1 => OnAccount(m, c) && !ToItself(c) && Known(b, c.accountNumber) && !Found(m, b, c)
    case 2 =>
      (OnAccount(m, c) && !ToItself(c) && !Known(b, c.accountNumber)) || (Found(m, b, c) && !PasswordFits(m, b, c))
    case 3 => PasswordFits(m, b, c) && !Trusted(m, b, c)
    case 4 => Trusted(m, b, c) && !CurrencyFits(m, b, c)
    case 5 => CurrencyFits(m, b, c) && !FundsSuffice(m, b, c)
    case 6 => OnAccount(m, c) && ToItself(c)
    case 7 => !Complete(c) || TooSmall(m, c)
    case _ => false
  }

  // ----- the reply's bytes -----

  /** The reply to `data`, sent to `a`: type 1, flag 0, the request's own id, the address, the status in
      16 bits, the content's length and the content. */
  ghost predicate Answers(reply: bytes, data: bytes, a: Address, status: byte, content: bytes)
    requires |data| >= 18
  {
    reply == [1, 0] + data[2..6] + Be32(a.ip) + Be16(a.port) + [0, status] + Be32(|content| % 0x1_0000_0000) + content
  }

  /** Where the status lies in a reply. */
  function StatusIn(reply: bytes): Option<byte> {
    if |reply| >= 18 && reply[12] == 0 then Some(reply[13]) else None
  }

  lemma PacketAnswers(data: bytes, a: Address, status: byte, content: bytes)
    requires |data| >= 18
    ensures ParseHeader(data).Ok?
    ensures var reply := ReplyPacket(ParseHeader(data).value.requestId, a, status, content);
            Answers(reply, data, a, status, content) && StatusIn(reply) == Some(status)
  {
    Be32OfLoad(data[2..6]);
    assert Be16(status) == [0, status];
    var reply := ReplyPacket(ParseHeader(data).value.requestId, a, status, content);
    assert reply[12..14] == [0, status];
  }

  // ----- the banking call of a complete command -----

  lemma IncompleteIsInternal(m: MoneyFormat, b: Bank.Bank, c: Command, id: u32, a: Address)
    requires !Complete(c)
    ensures HandleCommand(m, b, c, id, a) == Outcome(b, ReplyPacket(id, a, 7, []), [])
  {
    hide ReplyPacket, FixedPassword;
  }

  /** The call a complete command asks for, service by service. */
  lemma CallOf(m: MoneyFormat, c: Command) returns (call: Bank.Call)
    requires Complete(c) && c.service.value != 5
    ensures CallFor(m, c) == Some(call)
    ensures call == match c.service.value
                    case 1 => Bank.Open(c.ownerName.value, FixedPassword(c.password.value), c.currency.value,
                                        m.read(c.money.value))
                    case 2 => Bank.Close(c.ownerName.value, c.accountNumber.value, FixedPassword(c.password.value))
                    case 3 => Bank.Deposit(c.ownerName.value, c.accountNumber.value, FixedPassword(c.password.value),
                                           c.currency.value, m.read(c.money.value))
                    case 4 => Bank.Withdraw(c.ownerName.value, c.accountNumber.value, FixedPassword(c.password.value),
                                            c.currency.value, m.read(c.money.value))
                    case 6 => Bank.CheckBalance(c.ownerName.value, c.accountNumber.value,
                                                FixedPassword(c.password.value))
                    case _ => Bank.Transfer(c.ownerName.value, c.accountNumber.value, FixedPassword(c.password.value),
                                            c.txAccountNumber.value, c.currency.value, m.read(c.money.value))
  {
    hide FixedPassword;
    call := CallFor(m, c).value;
  }

  /** The checks of the banking call are those of the command. */
  lemma SameChecks(m: MoneyFormat, b: Bank.Bank, c: Command) returns (call: Bank.Call)
    requires Complete(c) && c.service.value != 1 && c.service.value != 5
    ensures CallFor(m, c) == Some(call) && !call.Open?
    ensures TooSmall(m, c) <==> (call.Deposit? || call.Withdraw? || call.Transfer?) && call.amount <= 0.0
    ensures ToItself(c) <==> call.Transfer? && call.id == call.to
    ensures Found(m, b, c) <==> Sane(call) && Exists(b, call)
    ensures Known(b, c.accountNumber) <==> call.id in b.accounts
    ensures c.service == Some(7) <==> call.Transfer?
    ensures c.service == Some(7) ==> (Known(b, c.txAccountNumber) <==> call.to in b.accounts)
    ensures Found(m, b, c) ==> (PasswordFits(m, b, c) <==> b.accounts[call.id].password == call.pw)
    ensures PasswordFits(m, b, c) ==> (Trusted(m, b, c) <==> Authentic(b, call))
    ensures Trusted(m, b, c) ==> (CurrencyFits(m, b, c) <==> RightCurrency(b, call))
    ensures CurrencyFits(m, b, c) ==> (FundsSuffice(m, b, c) <==> Covered(b, call))
  {
    hide FixedPassword, SamePassword;
    call := CallOf(m, c);
    if Known(b, c.accountNumber) {
      FixedPasswordIsSame(b.accounts[c.accountNumber.value].password, c.password.value);
    }
  }

  // ----- the status of every reply -----

  /** A command is answered with a status it deserves, under its own id, and nothing happens if it is not 0. */
  lemma AnsweredAsDeserved(m: MoneyFormat, b: Bank.Bank, c: Command, id: u32, a: Address) returns (status: byte)
    ensures Deserves(m, b, c, status)
    ensures status != 0 ==> HandleCommand(m, b, c, id, a) == Outcome(b, ReplyPacket(id, a, status, []), [])
    ensures status == 0 && c.service != Some(5) ==>
              CallFor(m, c).Some? && !Bank.Apply(b, CallFor(m, c).value).1.Failed?
  {
    hide CallFor, ReplyPacket, FixedPassword, SamePassword, Bank.Apply, NotesFor, ContentFor;
    if !Complete(c) {
      IncompleteIsInternal(m, b, c, id, a);
      status := 7;
    } else if c.service.value == 5 {
      status := 0;
    } else if c.service.value == 1 {
      var call := CallOf(m, c);
      RefusedExactly(b, call);
      status := 0;
    } else {
      var call := SameChecks(m, b, c);
      RefusedExactly(b, call);
      var r := Bank.Apply(b, call).1;
      status := if r.Failed? then StatusOf(r.error) else 0;
      hide Exists, Sane, Known, Found, Authentic, RightCurrency, Covered, PasswordFits, Trusted, CurrencyFits;
      Bank.NeverStoreNotFoundAlone(b, call);
    }
  }

  /** No command deserves two statuses. */
  lemma OneStatus(m: MoneyFormat, b: Bank.Bank, c: Command, j: byte, k: byte)
    requires Deserves(m, b, c, j) && Deserves(m, b, c, k)
    ensures j == k
  {
    hide SamePassword;
  }

  lemma HandlesCommand(m: MoneyFormat, b: Bank.Bank, data: bytes, a: Address, c: Command) returns (id: u32)
    requires Carries(data, c)
    ensures ParseHeader(data).Ok? && id == ParseHeader(data).value.requestId
    ensures Handle(m, b, data, a) == HandleCommand(m, b, c, id, a)
  {
    hide Decode, HandleCommand, LoadBe32, LoadBe16;
    id := ParseHeader(data).value.requestId;
  }

  /** The status in the reply to a request is exactly the one the command deserves; any other than 0 comes
      without content and means that nothing changed and nobody was told. */
  lemma StatusExactly(m: MoneyFormat, b: Bank.Bank, data: bytes, a: Address, c: Command, status: byte)
    requires Carries(data, c)
    ensures var out := Handle(m, b, data, a);
            (StatusIn(out.reply) == Some(status) <==> Deserves(m, b, c, status))
            && (Deserves(m, b, c, status) && status != 0 ==>
                  Answers(out.reply, data, a, status, []) && out.state == b && out.calls == [])
  {
    hide Deserves, StatusIn, Answers, Handle, HandleCommand, CallFor, ReplyPacket, Carries;
    var id := HandlesCommand(m, b, data, a, c);
    var k := AnsweredAsDeserved(m, b, c, id, a);
    if k == 0 {
      var content := SuccessReply(m, b, c, id, a);
      PacketAnswers(data, a, 0, content);
    } else {
      PacketAnswers(data, a, k, []);
    }
    if Deserves(m, b, c, status) {
      OneStatus(m, b, c, k, status);
    }
  }

  lemma SuccessReply(m: MoneyFormat, b: Bank.Bank, c: Command, id: u32, a: Address) returns (content: bytes)
    requires Deserves(m, b, c, 0)
    ensures HandleCommand(m, b, c, id, a).reply == ReplyPacket(id, a, 0, content)
  {
    hide ReplyPacket, CallFor, Bank.Apply, NotesFor, ContentFor;
    var k := AnsweredAsDeserved(m, b, c, id, a);
    OneStatus(m, b, c, 0, k);
    hide Deserves;
    content := if c.service == Some(5) then [] else ContentFor(m, Bank.Apply(b, CallFor(m, c).value).1);
  }

  /** A packet too short for a header, or whose fields cannot be read, is answered with status 7; without a
      header the request id is taken to be 0. */
  lemma UnreadableExactly(m: MoneyFormat, b: Bank.Bank, data: bytes, a: Address)
    requires |data| < 18 || Decode(data[18..]).Err?
    ensures var out := Handle(m, b, data, a);
            out.state == b && out.calls == []
            && (|data| < 18 ==> out.reply == [1, 0, 0, 0, 0, 0] + Be32(a.ip) + Be16(a.port) + [0, 7, 0, 0, 0, 0])
            && (|data| >= 18 ==> Answers(out.reply, data, a, 7, []))
  {
    hide Decode, ReplyPacket, LoadBe32, LoadBe16;
    if |data| < 18 {
      NoHeaderReply(a);
    } else {
      PacketAnswers(data, a, 7, []);
    }
  }

  lemma NoHeaderReply(a: Address)
    ensures ReplyPacket(0, a, 7, []) == [1, 0, 0, 0, 0, 0] + Be32(a.ip) + Be16(a.port) + [0, 7, 0, 0, 0, 0]
  {
    assert Be32(0) == [0, 0, 0, 0] && Be16(7) == [0, 7];
  }

  // ----- what a successful request does, service by service -----

  lemma Content(id: byte, v: bytes)
    requires |v| < 256
    ensures Pack([Field(id, v)]) == [id, 0, 0, 0, |v|] + v
  {
    assert Pack([Field(id, v)]) == PackField(Field(id, v)) + Pack([]);
    assert Be32(|v|) == [0, 0, 0, |v|];
  }

  /** A successful banking command: its call's outcome, its updates and a reply of status 0. */
  lemma Succeeds(m: MoneyFormat, b: Bank.Bank, data: bytes, a: Address, c: Command)
    returns (call: Bank.Call, content: bytes)
    requires Carries(data, c) && c.service != Some(5) && Deserves(m, b, c, 0)
    ensures CallFor(m, c) == Some(call)
    ensures var out, (b', r) := Handle(m, b, data, a), Bank.Apply(b, call);
            !r.Failed? && out.state == b' && out.calls == NotesFor(c, call, r)
            && content == ContentFor(m, r) && Answers(out.reply, data, a, 0, content)
  {
    hide Deserves, StatusIn, Answers, CallFor, ReplyPacket, Carries, Bank.Apply, Handle, NotesFor, ContentFor;
    var id := HandlesCommand(m, b, data, a, c);
    var k := AnsweredAsDeserved(m, b, c, id, a);
    OneStatus(m, b, c, 0, k);
    call := CallFor(m, c).value;
    content := ContentFor(m, Bank.Apply(b, call).1);
    PacketAnswers(data, a, 0, content);
  }

  /** Service 1 opens an account under the next number with the fields given, tells the number to the caller
      and the new account to the subscribers. */
  lemma OpenRequest(m: MoneyFormat, b: Bank.Bank, data: bytes, a: Address, c: Command)
    requires Carries(data, c) && c.service == Some(1) && Complete(c)
    ensures var out, n := Handle(m, b, data, a), b.nextId;
            var owner, currency, initial := c.ownerName.value, c.currency.value, m.read(c.money.value);
            n in out.state.accounts && out.state.nextId == (n + 1) % 0x1_0000_0000
            && SamePassword(out.state.accounts[n].password, c.password.value)
            && out.state.accounts
               == b.accounts[n := Bank.Account(n, owner, out.state.accounts[n].password, currency, initial)]
            && out.calls == [Notify(Update(1, n, owner, currency, initial))]
            && Answers(out.reply, data, a, 0, [2, 0, 0, 0, 4] + Be32(n))
  {
    hide FixedPassword, Handle, Carries, Answers, Bank.Apply, Be32, CallFor;
    var call, content := Succeeds(m, b, data, a, c);
    var same := CallOf(m, c);
    ChangesExactly(b, call);
    FixedPasswordIsSame(call.pw, c.password.value);
    Content(2, Be32(b.nextId));
  }

  /** Service 2 removes the account and nothing else, and announces it with currency and balance 0. */
  lemma CloseRequest(m: MoneyFormat, b: Bank.Bank, data: bytes, a: Address, c: Command)
    requires Carries(data, c) && c.service == Some(2) && FundsSuffice(m, b, c)
    ensures var out, n := Handle(m, b, data, a), c.accountNumber.value;
            out.state == b.(accounts := map k <- b.accounts | k != n :: b.accounts[k])
            && out.calls == [Notify(Update(2, n, c.ownerName.value, 0, 0.0))]
            && Answers(out.reply, data, a, 0, [])
  {
    hide FixedPassword, Handle, Carries, Answers, Bank.Apply, CallFor, SamePassword;
    var call, content := Succeeds(m, b, data, a, c);
    var same := CallOf(m, c);
    ChangesExactly(b, call);
  }

  /** Service 3 adds the amount to the account and nothing else, and tells the new balance to the caller and
      the subscribers. */
  lemma DepositRequest(m: MoneyFormat, b: Bank.Bank, data: bytes, a: Address, c: Command)
    requires Carries(data, c) && c.service == Some(3) && FundsSuffice(m, b, c)
    ensures var out, n := Handle(m, b, data, a), c.accountNumber.value;
            var balance := b.accounts[n].balance + m.read(c.money.value);
            OnlyBalances(b, out.state, map[n := balance])
            && out.calls == [Notify(Update(3, n, c.ownerName.value, c.currency.value, balance))]
            && Answers(out.reply, data, a, 0, [7, 0, 0, 0, 8] + Be64(m.write(balance)))
  {
    hide FixedPassword, Handle, Carries, Answers, Bank.Apply, CallFor, SamePassword, Be64, OnlyBalances;
    var call, content := Succeeds(m, b, data, a, c);
    var same := CallOf(m, c);
    ChangesExactly(b, call);
    Content(7, Be64(m.write(b.accounts[c.accountNumber.value].balance + m.read(c.money.value))));
  }

  /** Service 4 takes the amount from the account and nothing else, and tells the new balance to the caller
      and the subscribers. */
  lemma WithdrawRequest(m: MoneyFormat, b: Bank.Bank, data: bytes, a: Address, c: Command)
    requires Carries(data, c) && c.service == Some(4) && FundsSuffice(m, b, c)
    ensures var out, n := Handle(m, b, data, a), c.accountNumber.value;
            var balance := b.accounts[n].balance - m.read(c.money.value);
            OnlyBalances(b, out.state, map[n := balance])
            && out.calls == [Notify(Update(4, n, c.ownerName.value, c.currency.value, balance))]
            && Answers(out.reply, data, a, 0, [7, 0, 0, 0, 8] + Be64(m.write(balance)))
  {
    hide FixedPassword, Handle, Carries, Answers, Bank.Apply, CallFor, SamePassword, Be64, OnlyBalances;
    var call, content := Succeeds(m, b, data, a, c);
    var same := CallOf(m, c);
    ChangesExactly(b, call);
    Content(7, Be64(m.write(b.accounts[c.accountNumber.value].balance - m.read(c.money.value))));
  }

  /** Service 5 registers the sender with the monitor for the seconds given, and touches no account. */
  lemma MonitorRequest(m: MoneyFormat, b: Bank.Bank, data: bytes, a: Address, c: Command)
    requires Carries(data, c) && c.service == Some(5) && Complete(c)
    ensures var out := Handle(m, b, data, a);
            out.state == b && out.calls == [Register(a, c.monitorSeconds.value)] && Answers(out.reply, data, a, 0, [])
  {
    hide CallFor, ReplyPacket, Carries, Answers, Handle;
    var id := HandlesCommand(m, b, data, a, c);
    PacketAnswers(data, a, 0, []);
  }

  /** Service 6 tells the balance to the caller, changes nothing and announces nothing. */
  lemma EnquiryRequest(m: MoneyFormat, b: Bank.Bank, data: bytes, a: Address, c: Command)
    requires Carries(data, c) && c.service == Some(6) && FundsSuffice(m, b, c)
    ensures var out, balance := Handle(m, b, data, a), b.accounts[c.accountNumber.value].balance;
            out.state == b && out.calls == []
            && Answers(out.reply, data, a, 0, [7, 0, 0, 0, 8] + Be64(m.write(balance)))
  {
    hide FixedPassword, Handle, Carries, Answers, Bank.Apply, CallFor, SamePassword, Be64;
    var call, content := Succeeds(m, b, data, a, c);
    var same := CallOf(m, c);
    ChangesExactly(b, call);
    Content(7, Be64(m.write(b.accounts[c.accountNumber.value].balance)));
  }

  /** Service 7 moves the amount and changes no other balance; the caller is told the sender's new balance, the
      subscribers both, the sender's first, each under the holder's name the command gives, with currency 0. */
  lemma TransferRequest(m: MoneyFormat, b: Bank.Bank, data: bytes, a: Address, c: Command)
    requires Carries(data, c) && c.service == Some(7) && FundsSuffice(m, b, c)
    ensures var out, amount := Handle(m, b, data, a), m.read(c.money.value);
            var n, k := c.accountNumber.value, c.txAccountNumber.value;
            var from, to := b.accounts[n].balance - amount, b.accounts[k].balance + amount;
            OnlyBalances(b, out.state, map[n := from, k := to])
            && out.calls == [Notify(Update(7, n, c.ownerName.value, 0, from)),
                             Notify(Update(7, k, c.txOwnerName.value, 0, to))]
            && Answers(out.reply, data, a, 0, [7, 0, 0, 0, 8] + Be64(m.write(from)))
  {
    hide FixedPassword, Handle, Carries, Answers, Bank.Apply, CallFor, SamePassword, Be64, OnlyBalances;
    var call, content := Succeeds(m, b, data, a, c);
    var same := CallOf(m, c);
    ChangesExactly(b, call);
    Content(7, Be64(m.write(b.accounts[c.accountNumber.value].balance - m.read(c.money.value))));
  }
}
