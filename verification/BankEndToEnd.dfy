/** The network theorems for the bank's own handler: what they say about money and callbacks. */
module BankEndToEnd {
  import opened Bytes
  import opened ServerCodec
  import opened Dispatching
  import opened Network
  import opened NetworkTheorems
  import opened Commands
  import Bank
  import C = ClientCodec
  import Client
  import Handling
  import L = LateReplies
  import M = ClientMessages
  import W = WireTheorems

  lemma TheHandlerEchoes(m: Handling.MoneyFormat)
    ensures Echoes(Handling.TheHandler(m))
  {
    hide Handling.Handle, LoadBe32, LoadBe16;
    forall b: Bank.Bank, data: bytes, a: Address | |data| >= HEADER_SIZE
      ensures MarkedReply(Handling.TheHandler(m)(b, data, a).reply, ParseHeader(data).value.requestId)
    {
      Handling.RepliesEchoTheId(m, b, data, a);
    }
  }

  /** The banking calls that deliveries carry, in order. */
  function CallsIn(m: Handling.MoneyFormat, ds: seq<Delivery>): seq<Bank.Call> {
    if ds == [] then []
    else
      var before, call := CallsIn(m, ds[..|ds| - 1]), Handling.CallIn(m, ds[|ds| - 1]);
      if call.None? then before else before + [call.value]
  }

  lemma NoCallNoEffect(m: Handling.MoneyFormat, b: Bank.Bank, d: Delivery)
    requires |d.packet| >= HEADER_SIZE && Handling.CallIn(m, d).None?
    ensures Handling.Handle(m, b, d.packet, d.from).state == b
  {
    hide Decode, ReplyPacket, Handling.ContentFor, Handling.FixedPassword, Bank.Apply, Handling.NotesFor;
    hide Handling.CallFor;
  }

  lemma {:induction false} HandledCalls(m: Handling.MoneyFormat, ds: seq<Delivery>)
    requires forall d <- ds :: |d.packet| >= HEADER_SIZE
    ensures HandleEach(Handling.TheHandler(m), Started(Bank.NEW_BANK), ds).state == Bank.After(CallsIn(m, ds))
  {
    if ds != [] {
      hide Handling.Handle, Handling.CallIn, KeyOf, Bank.Apply;
      var init, d := ds[..|ds| - 1], ds[|ds| - 1];
      HandledCalls(m, init);
      var b := Bank.After(CallsIn(m, init));
      if Handling.CallIn(m, d).None? {
        NoCallNoEffect(m, b, d);
      } else {
        Handling.HandlingApplies(m, b, d);
        assert CallsIn(m, ds)[..|CallsIn(m, ds)| - 1] == CallsIn(m, init);
      }
    }
  }

  /** In every run of the whole system, with loss, duplication, reordering and retries, the money in
      each currency is what the distinct requests that ran brought in, each counted once; and a
      subscriber that saw every callback knows exactly the store's balances. */
  lemma {:induction false} MoneyIsConservedEndToEnd(m: Handling.MoneyFormat, addresses: set<Address>, steps: seq<Step>,
      currency: byte)
    requires CanRun(Handling.TheHandler(m), Start(Bank.NEW_BANK, addresses), steps)
    requires var s := Exec(Handling.TheHandler(m), Start(Bank.NEW_BANK, addresses), steps);
             Bank.Opens(CallsIn(m, Ran(s))) < Bank.ID_SPACE - Bank.FIRST_ID
    ensures var s := Exec(Handling.TheHandler(m), Start(Bank.NEW_BANK, addresses), steps);
            DistinctKeys(Ran(s))
            && s.server.state == Bank.After(CallsIn(m, Ran(s)))
            && Bank.Total(s.server.state.accounts, currency, Bank.ID_SPACE)
               == Bank.Inflows(CallsIn(m, Ran(s)), currency)
            && Handling.Watch(map[], s.server.calls) == Handling.BalancesIn(s.server.state)
  {
    hide Handling.TheHandler, CanRun, Exec, Ran, HandleEach, Serve, Bank.After, Bank.Total, Handling.Watch;
    hide DistinctKeys;
    var h := Handling.TheHandler(m);
    TheHandlerEchoes(m);
    AtMostOnceEndToEnd(h, Bank.NEW_BANK, addresses, steps);
    RunKeepsInv(h, Bank.NEW_BANK, addresses, steps);
    var s := Exec(h, Start(Bank.NEW_BANK, addresses), steps);
    HandledCalls(m, Ran(s));
    Bank.Conservation(CallsIn(m, Ran(s)), currency);
    Handling.CallbacksMirrorStore(m, AtMostOnce, s.served);
  }

  // ----- one request, from the command the client encodes to the result it reads -----

  /** The status that stands for an error on the wire. */
  ghost predicate Signals(status: u16, e: Bank.Error) {
    match e
    case AccountNotFound => status == 1
    case InvalidCredentials => status == 2
    case AccountMismatch => status == 3
    case CurrencyMismatch => status == 4
    case InsufficientFunds => status == 5
    case TransferSameAccount => status == 6
    case NonPositiveAmount => status == 7
    case StoreNotFound => status == 7
  }

  /** What the client reads in a reply is the result of the call. */
  ghost predicate Understood(m: Handling.MoneyFormat, id: u32, raw: bytes, r: Bank.Return) {
    var got := Client.Interpreted(Ok(raw));
    match r
    case Failed(e) =>
      got == Err(Client.BadStatus) && M.Deserialized(raw).Ok? && Signals(M.Deserialized(raw).value.status, e)
    case Opened(number) => Reads(got, id, EMPTY.(accountNumber := Some(number)))
    case Balance(balance) => Reads(got, id, EMPTY.(money := Some(m.write(balance))))
    case Balances(from, _) => Reads(got, id, EMPTY.(money := Some(m.write(from))))
    case Closed => got.Ok? && got.value.requestId == id && got.value.content == []
  }

  ghost predicate Reads(got: Result<M.Message, Client.Error>, id: u32, shown: Command) {
    got.Ok? && got.value.requestId == id && got.value.content != [] && C.Decode(got.value.content) == Ok(shown)
  }

  lemma FieldIsRead(f: Field, id: u32, a: Address)
    requires WellFormed(f) && |f.value| <= 8
    ensures Reads(Client.Interpreted(Ok(ReplyPacket(id, a, Handling.STATUS_SUCCESS, Pack([f])))), id, Meaning([f]))
  {
    C.PackOne(f);
    W.ReplyFieldsRoundTrip(id, a, Handling.STATUS_SUCCESS, [f]);
    hide ReplyPacket, M.Deserialized, C.Decode, Meaning, Pack;
  }

  lemma MeaningOfOne(f: Field)
    ensures f.id == ACCOUNT_NUMBER && |f.value| == 4 ==>
              Meaning([f]) == EMPTY.(accountNumber := Some(LoadBe32(f.value)))
    ensures f.id == MONETARY_VALUE && |f.value| == 8 ==> Meaning([f]) == EMPTY.(money := Some(LoadBe64(f.value)))
  {
    hide LoadBe32, LoadBe64;
    assert forall id: byte :: Last([f], id) == if f.id == id then Some(f.value) else None;
  }

  lemma MoneyIsRead(w: bv64, id: u32, a: Address)
    ensures var content := Pack([Field(MONETARY_VALUE, Be64(w))]);
            Reads(Client.Interpreted(Ok(ReplyPacket(id, a, Handling.STATUS_SUCCESS, content))), id,
                  EMPTY.(money := Some(w)))
  {
    hide Be64, LoadBe64, Reads, Client.Interpreted, ReplyPacket, Pack;
    var f := Field(MONETARY_VALUE, Be64(w));
    FieldIsRead(f, id, a);
    MeaningOfOne(f);
    Be64RoundTrip(w);
  }

  lemma NumberIsRead(n: u32, id: u32, a: Address)
    ensures var content := Pack([Field(ACCOUNT_NUMBER, Be32(n))]);
            Reads(Client.Interpreted(Ok(ReplyPacket(id, a, Handling.STATUS_SUCCESS, content))), id,
                  EMPTY.(accountNumber := Some(n)))
  {
    hide Be32, LoadBe32, Reads, Client.Interpreted, ReplyPacket, Pack;
    var f := Field(ACCOUNT_NUMBER, Be32(n));
    FieldIsRead(f, id, a);
    MeaningOfOne(f);
    Be32RoundTrip(n);
  }

  lemma ReplyIsUnderstood(m: Handling.MoneyFormat, b: Bank.Bank, c: Command, call: Bank.Call, id: u32, a: Address)
    requires c.service != Some(Handling.MONITOR) && Handling.CallFor(m, c) == Some(call)
    ensures Handling.HandleCommand(m, b, c, id, a).state == Bank.Apply(b, call).0
    ensures Understood(m, id, Handling.HandleCommand(m, b, c, id, a).reply, Bank.Apply(b, call).1)
  {
    hide Handling.CallFor, Bank.Apply, Be64, Be32, Pack, ReplyPacket, Reads, M.Deserialized, Handling.NotesFor;
    match Bank.Apply(b, call).1
    case Failed(e) => W.ReplyRoundTrip(id, a, Handling.StatusOf(e), []);
    case Opened(number) => NumberIsRead(number, id, a);
    case Balance(balance) => MoneyIsRead(m.write(balance), id, a);
    case Balances(from, _) => MoneyIsRead(m.write(from), id, a);
    case Closed => W.ReplyRoundTrip(id, a, Handling.STATUS_SUCCESS, []);
  }

  lemma RequestIsHandled(m: Handling.MoneyFormat, b: Bank.Bank, c: Command, flag: byte, id: u32, local: Address,
                         a: Address)
    requires c != EMPTY && W.Bounded(c, W.MAX_U32)
    ensures C.Encode(c).Ok?
    ensures Handling.Handle(m, b, Client.Request(flag, id, local.ip, local.port, C.Encode(c).value), a)
         == Handling.HandleCommand(m, b, c, id, a)
  {
    W.EncodeSucceeds(c);
    W.RequestRoundTrip(c, flag, id, local.ip, local.port);
    hide M.Serialized, Decode, C.Encode, Handling.HandleCommand, ReplyPacket, LoadBe32, LoadBe16;
  }

  /** A banking command that fits a datagram does to the bank what its call does, and the client reads
      the call's own result in the reply: encoder, serialiser, both decoders, handler, bank, reply
      builder and deserialiser composed. */
  lemma ClientReadsItsResult(m: Handling.MoneyFormat, b: Bank.Bank, c: Command, flag: byte, id: u32, local: Address,
                             a: Address)
    requires c != EMPTY && W.Bounded(c, W.MAX_U32) && C.Encode(c).Ok?
    requires c.service != Some(Handling.MONITOR) && Handling.CallFor(m, c).Some?
    requires |Client.Request(flag, id, local.ip, local.port, C.Encode(c).value)| <= MAX_PACKET_SIZE
    ensures var packet := Cut(Client.Request(flag, id, local.ip, local.port, C.Encode(c).value));
            var out, call := Handling.Handle(m, b, packet, a), Handling.CallFor(m, c).value;
            out.state == Bank.Apply(b, call).0 && Understood(m, id, out.reply, Bank.Apply(b, call).1)
  {
    hide Handling.Handle, Handling.HandleCommand, Handling.CallFor, Bank.Apply, Client.Request, C.Encode, Understood;
    RequestIsHandled(m, b, c, flag, id, local, a);
    ReplyIsUnderstood(m, b, c, Handling.CallFor(m, c).value, id, a);
  }

  /** Every datagram a client serialises with flag 1 is run by an at-least-once server, whatever it carries. */
  lemma AtLeastOnceRunsRequests<S, C>(h: RequestHandler<S, C>, sv: Server<S, C>, id: u32, local: Address, a: Address,
                                      content: bytes)
    ensures var packet := Cut(Client.Request(1, id, local.ip, local.port, content));
            var out := h(sv.state, packet, a);
            Dispatch(AtLeastOnce, h, sv, Delivery(a, packet))
            == (Server(out.state, sv.history, sv.calls + out.calls), Ok(out.reply))
  {
    AlwaysRuns(h, sv, Delivery(a, Cut(Client.Request(1, id, local.ip, local.port, content))));
  }

  /** ... so each delivery of a banking command in such a datagram makes its call once more, and the client reads
      that call's own result in the reply. */
  lemma AtLeastOnceReadsItsResult(m: Handling.MoneyFormat, sv: Server<Bank.Bank, Handling.MonitorCall>, c: Command,
                                  id: u32, local: Address, a: Address)
    requires c != EMPTY && W.Bounded(c, W.MAX_U32) && C.Encode(c).Ok?
    requires c.service != Some(Handling.MONITOR) && Handling.CallFor(m, c).Some?
    requires |Client.Request(1, id, local.ip, local.port, C.Encode(c).value)| <= MAX_PACKET_SIZE
    ensures var d := Delivery(a, Cut(Client.Request(1, id, local.ip, local.port, C.Encode(c).value)));
            var (sv', r), call := Dispatch(AtLeastOnce, Handling.TheHandler(m), sv, d), Handling.CallFor(m, c).value;
            sv'.state == Bank.Apply(sv.state, call).0 && r.Ok?
            && Understood(m, id, r.value, Bank.Apply(sv.state, call).1)
  {
    hide Handling.Handle, Handling.CallFor, Bank.Apply, Client.Request, C.Encode, Understood, Dispatch, W.Bounded;
    AtLeastOnceRunsRequests(Handling.TheHandler(m), sv, id, local, a, C.Encode(c).value);
    ClientReadsItsResult(m, sv.state, c, 1, id, local, a);
  }

  /** The client's request number n carries a banking command that fits a datagram. */
  ghost predicate Carries(m: Handling.MoneyFormat, s: Net<Bank.Bank, Handling.MonitorCall>, a: Address, n: nat,
      c: Command, local: Address) {
    a in s.clients && 1 <= n <= |s.clients[a].packets| && |s.clients[a].packets[n - 1]| <= MAX_PACKET_SIZE
    && c != EMPTY && W.Bounded(c, W.MAX_U32) && c.service != Some(Handling.MONITOR) && Handling.CallFor(m, c).Some?
    && C.Encode(c).Ok?
    && s.clients[a].packets[n - 1]
       == Client.Request(Client.AT_MOST_ONCE, Client.RequestId(n), local.ip, local.port, C.Encode(c).value)
  }

  /** The client reads in the reply the result of the call its request carried, made when that request ran: on
      the bank that the requests before it left. */
  ghost predicate ReadsItsResult(m: Handling.MoneyFormat, s: Net<Bank.Bank, Handling.MonitorCall>, a: Address, t: Taken,
      call: Bank.Call)
    requires a in s.clients && 1 <= t.request <= |s.clients[a].packets|
  {
    exists i: nat :: i < |Ran(s)| && Ran(s)[i] == Delivery(a, s.clients[a].packets[t.request - 1])
      && Understood(m, Client.RequestId(t.request), t.reply, Bank.Apply(Bank.After(CallsIn(m, Ran(s)[..i])), call).1)
  }

  lemma OwnReplyIsUnderstood(m: Handling.MoneyFormat, s: Net<Bank.Bank, Handling.MonitorCall>, a: Address, t: Taken,
                             c: Command, local: Address)
    requires Carries(m, s, a, t.request, c, local) && L.OwnReply(Handling.TheHandler(m), Bank.NEW_BANK, s, a, t)
    ensures ReadsItsResult(m, s, a, t, Handling.CallFor(m, c).value)
  {
    hide Handling.Handle, Handling.CallFor, Bank.Apply, Bank.After, Client.Request, C.Encode, Understood, CallsIn;
    hide HandleEach, Ran, W.Bounded;
    var ran := Ran(s);
    var i: nat :| i < |ran| && ran[i] == Delivery(a, Cut(s.clients[a].packets[t.request - 1]))
                  && t.reply == ReplyAt(Handling.TheHandler(m), Bank.NEW_BANK, ran, i);
    HandledCalls(m, ran[..i]);
    var before, id := Bank.After(CallsIn(m, ran[..i])), Client.RequestId(t.request);
    ClientReadsItsResult(m, before, c, Client.AT_MOST_ONCE, id, local, a);
  }

  /** In every run of the whole system, a client reads its own call's result in every reply it took whose header
      carries its request's id. */
  lemma {:induction false} ClientsReadTheirResults(m: Handling.MoneyFormat, addresses: set<Address>, steps: seq<Step>,
    a: Address, t: Taken, c: Command, local: Address)
    requires CanRun(Handling.TheHandler(m), Start(Bank.NEW_BANK, addresses), steps)
    requires var s := Exec(Handling.TheHandler(m), Start(Bank.NEW_BANK, addresses), steps);
             Carries(m, s, a, t.request, c, local) && t in s.clients[a].taken
             && IdIn(t.reply) == Client.RequestId(t.request)
    ensures var s := Exec(Handling.TheHandler(m), Start(Bank.NEW_BANK, addresses), steps);
            ReadsItsResult(m, s, a, t, Handling.CallFor(m, c).value)
  {
    hide CanRun, Exec, Start, Ran, IdIn, ReadsItsResult, Client.RequestId, Client.Request, C.Encode, Handling.CallFor;
    hide W.Bounded;
    hide Handling.TheHandler, L.OwnReply;
    var h := Handling.TheHandler(m);
    TheHandlerEchoes(m);
    L.IdsTellOwnReplies(h, Bank.NEW_BANK, addresses, steps, a, t);
    OwnReplyIsUnderstood(m, Exec(h, Start(Bank.NEW_BANK, addresses), steps), a, t, c, local);
  }

  /** ... and in every reply it took, if nothing of its own was left behind whenever it issued a request. */
  lemma {:induction false} PromptClientsReadTheirResults(m: Handling.MoneyFormat, addresses: set<Address>,
      steps: seq<Step>,
    a: Address, t: Taken, c: Command, local: Address)
    requires CanRun(Handling.TheHandler(m), Start(Bank.NEW_BANK, addresses), steps)
    requires L.IssuesQuietly(Handling.TheHandler(m), Start(Bank.NEW_BANK, addresses), steps, a)
    requires var s := Exec(Handling.TheHandler(m), Start(Bank.NEW_BANK, addresses), steps);
             Carries(m, s, a, t.request, c, local) && t in s.clients[a].taken
    ensures var s := Exec(Handling.TheHandler(m), Start(Bank.NEW_BANK, addresses), steps);
            ReadsItsResult(m, s, a, t, Handling.CallFor(m, c).value)
  {
    hide CanRun, Exec, Start, Ran, IdIn, ReadsItsResult, Client.RequestId, Client.Request, C.Encode, Handling.CallFor;
    hide W.Bounded;
    hide Handling.TheHandler, L.OwnReply, L.IssuesQuietly;
    var h := Handling.TheHandler(m);
    TheHandlerEchoes(m);
    L.PromptRepliesMatch(h, Bank.NEW_BANK, addresses, steps, a, t);
    OwnReplyIsUnderstood(m, Exec(h, Start(Bank.NEW_BANK, addresses), steps), a, t, c, local);
  }
}
