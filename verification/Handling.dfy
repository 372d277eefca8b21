/** The request handler: from a packet to a banking call, a reply and the calls on the monitor. */
module Handling {
  import opened Bytes
  import opened Commands
  import Bank
  import S = ServerCodec
  import M = ClientMessages
  import C = ClientCodec
  import opened WireTheorems
  import opened Dispatching

  const OPEN: byte := 1
  const CLOSE: byte := 2
  const DEPOSIT: byte := 3
  const WITHDRAW: byte := 4
  const MONITOR: byte := 5
  const GET_BALANCE: byte := 6
  const TRANSFER: byte := 7

  const STATUS_SUCCESS: byte := 0
  const STATUS_INTERNAL: byte := 7

  /** How amounts relate to the 64-bit patterns on the wire. Nothing below depends on the choice. */
  datatype MoneyFormat = MoneyFormat(read: bv64 -> real, write: real -> bv64)

  datatype Update = Update(service: byte, number: u32, holder: bytes, currency: byte, balance: real)

  /** A call the handler makes on the monitor. */
  datatype MonitorCall =
    | Notify(update: Update)
    | Register(client: S.Address, seconds: u32)

  type HandlerResult = Outcome<Bank.Bank, MonitorCall>

  /** Copies at most eight bytes; a shorter password is padded with zeroes. */
  function FixedPassword(pw: bytes): Bank.Password {
    if |pw| >= 8 then pw[..8] else pw + seq(8 - |pw|, _ => 0)
  }

  function StatusOf(e: Bank.Error): byte {
    match e
    case InvalidCredentials => 2
    case AccountMismatch => 3
    case CurrencyMismatch => 4
    case InsufficientFunds => 5
    case TransferSameAccount => 6
    case AccountNotFound => 1
    case _ => STATUS_INTERNAL
  }

  /** The banking call a command asks for; None when a required field is missing. */
  function CallFor(m: MoneyFormat, c: Command): Option<Bank.Call> {
    if c.service == Some(OPEN) then
      if c.ownerName.None? || c.password.None? || c.currency.None? || c.money.None? then None
      else Some(Bank.Open(c.ownerName.value, FixedPassword(c.password.value), c.currency.value, m.read(c.money.value)))
    else if c.ownerName.None? || c.accountNumber.None? || c.password.None? then None
    else
      var name, id, pw := c.ownerName.value, c.accountNumber.value, FixedPassword(c.password.value);
      if c.service == Some(CLOSE) then Some(Bank.Close(name, id, pw))
      else if c.service == Some(GET_BALANCE) then Some(Bank.CheckBalance(name, id, pw))
      else if c.currency.None? || c.money.None? then None
      else if c.service == Some(DEPOSIT) then Some(Bank.Deposit(name, id, pw, c.currency.value, m.read(c.money.value)))
      else if c.service == Some(WITHDRAW) then Some(Bank.Withdraw(name, id, pw, c.currency.value,
                                                                  m.read(c.money.value)))
      else if c.service == Some(TRANSFER) && c.txAccountNumber.Some? && c.txOwnerName.Some? then
        Some(Bank.Transfer(name, id, pw, c.txAccountNumber.value, c.currency.value, m.read(c.money.value)))
      else None
  }

  /** The reply's content for a call that succeeded. */
  function ContentFor(m: MoneyFormat, r: Bank.Return): bytes {
    match r
    case Opened(number) => Pack([Field(ACCOUNT_NUMBER, Be32(number))])
    case Balance(balance) => Pack([Field(MONETARY_VALUE, Be64(m.write(balance)))])
    case Balances(from, _) => Pack([Field(MONETARY_VALUE, Be64(m.write(from)))])
    case _ => []
  }

  /** What is announced for a call that succeeded: a transfer announces both its sides. */
  function NotesFor(c: Command, call: Bank.Call, r: Bank.Return): seq<MonitorCall> {
    match r
    case Opened(number) =>
      if call.Open? then [Notify(Update(OPEN, number, call.name, call.currency, call.initial))] else []
    case Closed =>
      if call.Close? then [Notify(Update(CLOSE, call.id, call.name, 0, 0.0))] else []
    case Balance(balance) =>
      if call.Deposit? then [Notify(Update(DEPOSIT, call.id, call.name, call.currency, balance))]
      else if call.Withdraw? then [Notify(Update(WITHDRAW, call.id, call.name, call.currency, balance))]
      else []
    case Balances(from, to) =>
      if call.Transfer? && c.txOwnerName.Some? then
        [Notify(Update(TRANSFER, call.id, call.name, 0, from)),
         Notify(Update(TRANSFER, call.to, c.txOwnerName.value, 0, to))]
      else []
    case Failed(_) => []
  }

  /** The handler after the header and the fields have been read. */
  function HandleCommand(m: MoneyFormat, b: Bank.Bank, c: Command, requestId: u32, a: S.Address): HandlerResult {
    var internal := Outcome(b, S.ReplyPacket(requestId, a, STATUS_INTERNAL, []), []);
    if c.service == Some(MONITOR) then
      if c.monitorSeconds.None? then internal
      else Outcome(b, S.ReplyPacket(requestId, a, STATUS_SUCCESS, []), [Register(a, c.monitorSeconds.value)])
    else
      var call := CallFor(m, c);
      if call.None? then internal
      else
        var (b', r) := Bank.Apply(b, call.value);
        if r.Failed? then Outcome(b', S.ReplyPacket(requestId, a, StatusOf(r.error), []), [])
        else Outcome(b', S.ReplyPacket(requestId, a, STATUS_SUCCESS, ContentFor(m, r)), NotesFor(c, call.value, r))
  }

  function Handle(m: MoneyFormat, b: Bank.Bank, data: bytes, a: S.Address): HandlerResult {
    var header := S.ParseHeader(data);
    if header.Err? then Outcome(b, S.ReplyPacket(0, a, STATUS_INTERNAL, []), [])
    else
      var cmd := S.Decode(data[S.HEADER_SIZE..]);
      if cmd.Err? then Outcome(b, S.ReplyPacket(header.value.requestId, a, STATUS_INTERNAL, []), [])
      else HandleCommand(m, b, cmd.value, header.value.requestId, a)
  }

  function TheHandler(m: MoneyFormat): RequestHandler<Bank.Bank, MonitorCall> {
    (b, data, a) => Handle(m, b, data, a)
  }

  // ----- every reply parses on the client -----

  /** The packet decodes on the client as a reply to `requestId` with the given status, and its
      content, if any, as a command. */
  ghost predicate ParsesAs(reply: bytes, requestId: u32, a: S.Address, status: byte) {
    var r := M.Deserialized(reply);
    r.Ok? && r.value.kind == S.MSG_REPLY && r.value.requestId == requestId && r.value.ip == a.ip
    && r.value.port == a.port
    && r.value.status == status && (r.value.content != [] ==> C.Decode(r.value.content).Ok?)
  }

  lemma EmptyReplyParses(requestId: u32, a: S.Address, status: byte)
    ensures ParsesAs(S.ReplyPacket(requestId, a, status, []), requestId, a, status)
  {
    ReplyRoundTrip(requestId, a, status, []);
  }

  lemma ContentParses(m: MoneyFormat, r: Bank.Return, requestId: u32, a: S.Address)
    ensures ParsesAs(S.ReplyPacket(requestId, a, STATUS_SUCCESS, ContentFor(m, r)), requestId, a, STATUS_SUCCESS)
  {
    hide Be64, Be32, M.Deserialized, S.ReplyPacket, C.Decode, Meaning, Pack;
    match r
    case Opened(number) => FieldParses(Field(ACCOUNT_NUMBER, Be32(number)), requestId, a);
    case Balance(balance) => FieldParses(Field(MONETARY_VALUE, Be64(m.write(balance))), requestId, a);
    case Balances(from, _) => FieldParses(Field(MONETARY_VALUE, Be64(m.write(from))), requestId, a);
    case _ => EmptyReplyParses(requestId, a, STATUS_SUCCESS);
  }

  lemma FieldParses(f: Field, requestId: u32, a: S.Address)
    requires WellFormed(f) && |f.value| <= 8
    ensures ParsesAs(S.ReplyPacket(requestId, a, STATUS_SUCCESS, Pack([f])), requestId, a, STATUS_SUCCESS)
  {
    C.PackOne(f);
    ReplyFieldsRoundTrip(requestId, a, STATUS_SUCCESS, [f]);
  }

  /** Every packet with a header gets a reply that parses on the client under the packet's own
      request id; and a reply with a non-zero status means that nothing happened: the bank is
      unchanged and the monitor was not called. */
  lemma FailuresHaveNoEffect(m: MoneyFormat, b: Bank.Bank, data: bytes, a: S.Address) returns (status: byte)
    requires S.ParseHeader(data).Ok?
    ensures ParsesAs(Handle(m, b, data, a).reply, S.ParseHeader(data).value.requestId, a, status)
    ensures status != STATUS_SUCCESS ==> Handle(m, b, data, a).state == b && Handle(m, b, data, a).calls == []
  {
    hide LoadBe32, LoadBe16, S.ReplyPacket, S.Decode, ParsesAs, ContentFor, FixedPassword, NotesFor;
    var id := S.ParseHeader(data).value.requestId;
    EmptyReplyParses(id, a, STATUS_INTERNAL);
    EmptyReplyParses(id, a, STATUS_SUCCESS);
    status := STATUS_INTERNAL;
    var cmd := S.Decode(data[S.HEADER_SIZE..]);
    if cmd.Ok? {
      if cmd.value.service == Some(MONITOR) {
        if cmd.value.monitorSeconds.Some? { status := STATUS_SUCCESS; }
      } else if CallFor(m, cmd.value).Some? {
        var r := Bank.Apply(b, CallFor(m, cmd.value).value).1;
        if r.Failed? {
          status := StatusOf(r.error);
          EmptyReplyParses(id, a, status);
          FailedCallsChangeNothing(b, CallFor(m, cmd.value).value);
        } else {
          status := STATUS_SUCCESS;
          ContentParses(m, r, id, a);
        }
      }
    }
  }

  lemma FailedCallsChangeNothing(b: Bank.Bank, c: Bank.Call)
    requires Bank.Apply(b, c).1.Failed?
    ensures Bank.Apply(b, c).0 == b
  {
  }

  /** The first byte of every reply marks it as a reply, and bytes 2 to 5 echo the request id. */
  lemma RepliesEchoTheId(m: MoneyFormat, b: Bank.Bank, data: bytes, a: S.Address)
    requires S.ParseHeader(data).Ok?
    ensures var reply := Handle(m, b, data, a).reply;
            |reply| >= S.HEADER_SIZE && reply[0] == S.MSG_REPLY
            && LoadBe32(reply[2..6]) == S.ParseHeader(data).value.requestId
  {
    hide S.ParseHeader, Handle;
    var status := FailuresHaveNoEffect(m, b, data, a);
  }

  // ----- the stream of callbacks mirrors the store -----

  /** What a subscriber to every update knows: the balance of each account it has not seen closed. */
  function Watch(view: map<u32, real>, calls: seq<MonitorCall>): map<u32, real> {
    if calls == [] then view
    else
      var before := Watch(view, calls[..|calls| - 1]);
      var c := calls[|calls| - 1];
      if c.Register? then before
      else if c.update.service == CLOSE then before - {c.update.number}
      else before[c.update.number := c.update.balance]
  }

  function BalancesIn(b: Bank.Bank): map<u32, real> {
    map id <- b.accounts :: b.accounts[id].balance
  }

  lemma WatchOne(view: map<u32, real>, u: Update)
    ensures Watch(view, [Notify(u)])
         == if u.service == CLOSE then view - {u.number} else view[u.number := u.balance]
  {
    assert [Notify(u)][..0] == [];
  }

  lemma WatchTwo(view: map<u32, real>, u: Update, w: Update)
    requires u.service != CLOSE && w.service != CLOSE
    ensures Watch(view, [Notify(u), Notify(w)]) == view[u.number := u.balance][w.number := w.balance]
  {
    assert [Notify(u), Notify(w)][..1] == [Notify(u)];
    WatchOne(view, u);
  }

  lemma {:induction false} WatchAppend(view: map<u32, real>, a: seq<MonitorCall>, b: seq<MonitorCall>)
    ensures Watch(view, a + b) == Watch(Watch(view, a), b)
  {
    if b == [] {
      assert a + b == a;
    } else {
      WatchAppend(view, a, b[..|b| - 1]);
      assert (a + b)[..|a + b| - 1] == a + b[..|b| - 1];
    }
  }

  /** One request keeps the watcher's view equal to the store's balances, both sides of a transfer
      included. */
  lemma {:induction false} RequestKeepsView(m: MoneyFormat, b: Bank.Bank, data: bytes, a: S.Address)
    ensures var out := Handle(m, b, data, a); Watch(BalancesIn(b), out.calls) == BalancesIn(out.state)
  {
    hide LoadBe32, LoadBe16, S.ReplyPacket, S.Decode, ContentFor, FixedPassword;
    if |data| >= S.HEADER_SIZE {
      var cmd := S.Decode(data[S.HEADER_SIZE..]);
      if cmd.Ok? && cmd.value.service != Some(MONITOR) && CallFor(m, cmd.value).Some? {
        CallKeepsView(cmd.value, b, CallFor(m, cmd.value).value);
      } else if cmd.Ok? && cmd.value.monitorSeconds.Some? {
        assert [Register(a, cmd.value.monitorSeconds.value)][..0] == [];
      }
    }
  }

  lemma CallKeepsView(c: Command, b: Bank.Bank, call: Bank.Call)
    requires call.Transfer? ==> c.txOwnerName.Some?
    ensures var (b', r) := Bank.Apply(b, call); Watch(BalancesIn(b), NotesFor(c, call, r)) == BalancesIn(b')
  {
    var (b', r) := Bank.Apply(b, call);
    var view := BalancesIn(b);
    match r
    case Opened(number) => WatchOne(view, Update(OPEN, number, call.name, call.currency, call.initial));
    case Closed => WatchOne(view, Update(CLOSE, call.id, call.name, 0, 0.0));
    case Balance(balance) =>
      if call.Deposit? { WatchOne(view, Update(DEPOSIT, call.id, call.name, call.currency, balance)); }
      if call.Withdraw? { WatchOne(view, Update(WITHDRAW, call.id, call.name, call.currency, balance)); }
    case Balances(from, to) =>
      WatchTwo(view, Update(TRANSFER, call.id, call.name, 0, from),
               Update(TRANSFER, call.to, c.txOwnerName.value, 0, to));
    case Failed(_) => FailedCallsChangeNothing(b, call);
  }

  /** After any deliveries, in either mode, the updates announced so far describe the store exactly. */
  lemma {:induction false} CallbacksMirrorStore(m: MoneyFormat, mode: Mode, ds: seq<Delivery>)
    ensures var sv := Serve(mode, TheHandler(m), Started(Bank.NEW_BANK), ds);
            Watch(map[], sv.calls) == BalancesIn(sv.state)
  {
    if ds != [] {
      hide Handle, KeyOf, Refused;
      CallbacksMirrorStore(m, mode, ds[..|ds| - 1]);
      var sv, d := Serve(mode, TheHandler(m), Started(Bank.NEW_BANK), ds[..|ds| - 1]), ds[|ds| - 1];
      var out := Handle(m, sv.state, d.packet, d.from);
      RequestKeepsView(m, sv.state, d.packet, d.from);
      WatchAppend(map[], sv.calls, out.calls);
    }
  }

  // ----- at least once -----

  function CommandIn(d: Delivery): Option<Command> {
    if |d.packet| < S.HEADER_SIZE || S.Decode(d.packet[S.HEADER_SIZE..]).Err? then None
    else Some(S.Decode(d.packet[S.HEADER_SIZE..]).value)
  }

  predicate IsGetBalance(d: Delivery) {
    CommandIn(d).Some? && CommandIn(d).value.service == Some(GET_BALANCE)
  }

  lemma GetBalanceIsSilent(m: MoneyFormat, b: Bank.Bank, d: Delivery)
    requires IsGetBalance(d)
    ensures Handle(m, b, d.packet, d.from).state == b && Handle(m, b, d.packet, d.from).calls == []
  {
    hide S.Decode, S.ReplyPacket, ContentFor, FixedPassword;
  }

  /** Under at-least-once, balance enquiries can be repeated, lost or added freely: the final store,
      the monitor calls and every other reply are as if none had been delivered. */
  lemma {:induction false} EnquiriesAreInvisible(m: MoneyFormat, sv: Server<Bank.Bank, MonitorCall>, ds: seq<Delivery>)
    ensures Serve(AtLeastOnce, TheHandler(m), sv, ds)
         == Serve(AtLeastOnce, TheHandler(m), sv, Without(ds, IsGetBalance))
    ensures RepliesTo(TheHandler(m), sv, ds, IsGetBalance)
         == RepliesTo(TheHandler(m), sv, Without(ds, IsGetBalance), IsGetBalance)
  {
    hide Handle, IsGetBalance;
    forall b: Bank.Bank, d: Delivery | IsGetBalance(d)
      ensures TheHandler(m)(b, d.packet, d.from).state == b && TheHandler(m)(b, d.packet, d.from).calls == []
    {
      GetBalanceIsSilent(m, b, d);
    }
    DroppingIsInvisible(TheHandler(m), sv, ds, IsGetBalance);
  }

  /** The banking call a delivery carries. */
  function CallIn(m: MoneyFormat, d: Delivery): Option<Bank.Call> {
    if CommandIn(d).None? || CommandIn(d).value.service == Some(MONITOR) then None else CallFor(m, CommandIn(d).value)
  }

  lemma HandlingApplies(m: MoneyFormat, b: Bank.Bank, d: Delivery)
    requires CallIn(m, d).Some?
    ensures TheHandler(m)(b, d.packet, d.from).state == Bank.Apply(b, CallIn(m, d).value).0
  {
    hide S.Decode, S.ReplyPacket, ContentFor, FixedPassword, Bank.Apply, NotesFor, CallFor;
  }

  lemma {:induction false} HandledTimesRepeats(m: MoneyFormat, b: Bank.Bank, d: Delivery, k: nat)
    requires CallIn(m, d).Some?
    ensures HandledTimes(TheHandler(m), b, d, k) == Bank.Repeat(b, CallIn(m, d).value, k)
  {
    hide TheHandler, Bank.Apply, CallIn;
    if k > 0 {
      HandledTimesRepeats(m, b, d, k - 1);
      HandlingApplies(m, HandledTimes(TheHandler(m), b, d, k - 1), d);
    }
  }

  /** Under at-least-once, k deliveries of one payable withdrawal or transfer of a from balance b
      take effect exactly min(k, floor(b / a)) times. */
  lemma {:induction false} RetransmissionsPayAgain(m: MoneyFormat, sv: Server<Bank.Bank, MonitorCall>, d: Delivery,
      k: nat)
    requires Accepted(AtLeastOnce, d) && CallIn(m, d).Some? && Bank.Payable(sv.state, CallIn(m, d).value)
    ensures var c := CallIn(m, d).value;
            var times := Bank.Min(k, Bank.Affordable(sv.state.accounts[c.id].balance, c.amount));
            Serve(AtLeastOnce, TheHandler(m), sv, Copies(d, k)).state
            == Bank.Debited(sv.state, c, Bank.Times(times, c.amount))
  {
    hide Bank.Debited, Bank.Times, Serve, CallIn, Refused;
    CopiesRunAgain(TheHandler(m), sv, d, k);
    HandledTimesRepeats(m, sv.state, d, k);
    Bank.RepeatedPayment(sv.state, CallIn(m, d).value, k);
  }
}
