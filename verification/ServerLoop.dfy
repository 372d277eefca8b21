/** The dispatcher object and the server's request loop over a finite run of datagrams. */
module ServerLoop {
  import opened Bytes
  import opened ServerCodec
  import opened Dispatching
  import opened Monitoring
  import opened History
  import opened HandlerObject
  import Bank
  import BankObjects
  import Handling

  /** The server as the value-level theorems see it. */
  type BankServer = Server<Bank.Bank, Handling.MonitorCall>

  class Dispatcher {
    const mode: Mode
    const handler: Handler
    const history: ReplyHistory? // none under at-least-once

    ghost predicate Valid(now: Time)
      reads handler.monitor, handler.service.store, handler.service.store.accounts.Values, history
      reads if history == null then {} else history.Repr()
    {
      handler.Valid(now) && (mode.AtMostOnce? <==> history != null) && (history != null ==> history.Valid())
    }

    ghost function View(): BankServer
      reads handler.monitor, handler.service.store, handler.service.store.accounts.Values, history
    {
      Server(handler.State(), if history == null then map[] else history.Contents(), handler.Calls())
    }

    constructor (mode: Mode, handler: Handler, ghost now: Time)
      requires handler.Valid(now)
      ensures Valid(now) && this.mode == mode && this.handler == handler && (history == null || fresh(history))
      ensures View() == Server(handler.State(), map[], handler.Calls())
    {
      this.mode, this.handler := mode, handler;
      if mode.AtMostOnce? {
        var h := new ReplyHistory();
        this.history := h;
      } else {
        this.history := null;
      }
    }

    /** Waiting changes nothing. */
    lemma Waits(now: Time, later: Time)
      requires Valid(now) && now <= later
      ensures Valid(later)
    {
      ClockAdvances(handler.monitor.ops, now, later);
    }

    /** The reply is the handler's own buffer, or the remembered one when the request had already run. */
    method Dispatch(data: bytes, a: Address, now: Time, later: Time) returns (r: Result<Buffer, DispatchError>)
      requires Valid(now) && now <= later
      modifies handler.monitor, handler.service.store, handler.service.store.accounts.Values, history
      ensures Valid(later) && fresh(handler.service.store.accounts.Values - old(handler.service.store.accounts.Values))
      ensures (View(), Sent(r))
           == Dispatching.Dispatch(mode, Handling.TheHandler(handler.monitor.format), old(View()), Delivery(a, data))
      ensures r.Ok? ==> (fresh(r.value) && (history != null ==> r.value !in history.Repr()))
                        || (history != null && r.value in old(history.Repr()) && unchanged(history))
    {
      hide Handling.Handle, LoadBe32, LoadBe16, BankObjects.MemoryStore.Contents, BankObjects.MemoryStore.Valid;
      hide CallsOf, Kept, ClockRuns, LatestEnd, Flat, Buffers;
      ClockAdvances(handler.monitor.ops, now, later);
      var header := ParseHeader(data);
      if header.Err? {
        return Err(BadHeader);
      }
      if header.value.flag != FlagOf(mode) {
        return Err(FlagMismatch);
      }
      if mode == AtLeastOnce {
        var buffer := Run(data, a, now, later);
        return Ok(buffer);
      }
      var cached := history.Lookup(a, header.value.requestId);
      if cached.Some? {
        return Ok(cached.value);
      }
      var buffer := RunAndRemember(data, a, now, later);
      return Ok(buffer);
    }

    /** The handler's reply, in a buffer of its own. */
    method Run(data: bytes, a: Address, now: Time, later: Time) returns (buffer: Buffer)
      requires Valid(now) && now <= later && |data| >= HEADER_SIZE
      modifies handler.monitor, handler.service.store, handler.service.store.accounts.Values
      ensures Valid(later) && fresh(handler.service.store.accounts.Values - old(handler.service.store.accounts.Values))
      ensures View() == Execute(Handling.TheHandler(handler.monitor.format), old(View()), Delivery(a, data))
      ensures buffer[..] == Handling.Handle(handler.monitor.format, old(View()).state, data, a).reply && fresh(buffer)
      ensures history != null ==> buffer !in history.Repr() && history.Repr() == old(history.Repr())
    {
      hide Handling.Handle, LoadBe32, LoadBe16, BankObjects.MemoryStore.Contents, BankObjects.MemoryStore.Valid;
      hide CallsOf, Kept, ClockRuns, LatestEnd, Flat;
      var reply := handler.Handle(data, a, now, later);
      buffer := ToBuffer(reply);
    }

    /** The first time a request is seen. */
    method RunAndRemember(data: bytes, a: Address, now: Time, later: Time) returns (buffer: Buffer)
      requires Valid(now) && now <= later && history != null && |data| >= HEADER_SIZE
      modifies handler.monitor, handler.service.store, handler.service.store.accounts.Values, history
      ensures Valid(later) && fresh(handler.service.store.accounts.Values - old(handler.service.store.accounts.Values))
      ensures View() == ExecuteAndStore(Handling.TheHandler(handler.monitor.format), old(View()), Delivery(a, data))
      ensures buffer[..] == Handling.Handle(handler.monitor.format, old(View()).state, data, a).reply
      ensures fresh(buffer) && buffer !in history.Repr()
    {
      hide Handling.Handle, LoadBe32, LoadBe16, BankObjects.MemoryStore.Contents, BankObjects.MemoryStore.Valid;
      hide CallsOf, Kept, ClockRuns, LatestEnd, Flat;
      hide Buffers, Matches;
      buffer := Run(data, a, now, later);
      history.Store(a, ParseHeader(data).value.requestId, buffer);
    }
  }

  /** The bytes that would be sent. */
  ghost function Sent(r: Result<Buffer, DispatchError>): Result<bytes, DispatchError>
    reads if r.Ok? then {r.value} else {}
  {
    if r.Err? then Err(r.error) else Ok(r.value[..])
  }

  method ToBuffer(reply: bytes) returns (b: Buffer)
    ensures fresh(b) && b[..] == reply
  {
    b := new byte[|reply|](i requires 0 <= i < |reply| => reply[i]);
  }

  /** The wiring of a fresh server: an empty store, no subscriber, no reply remembered. */
  method StartServer(mode: Mode, m: Handling.MoneyFormat, ghost now: Time) returns (d: Dispatcher)
    ensures d.Valid(now) && d.mode == mode && d.handler.monitor.format == m && d.View() == Started(Bank.NEW_BANK)
    ensures fresh(d.handler.monitor) && fresh(d.handler.service.store) && (d.history == null || fresh(d.history))
  {
    var store := new BankObjects.MemoryStore();
    var service := new BankObjects.Service(store);
    var monitor := new Manager(m);
    var handler := new Handler(service, monitor);
    d := new Dispatcher(mode, handler, now);
  }

  /** One turn of the loop: what arrives, what the clock reads meanwhile, and whether the loss
      simulator drops the reply. */
  datatype Turn = Turn(from: Address, datagram: bytes, now: Time, later: Time, drop: bool)

  function Received(t: Turn): Delivery {
    Delivery(t.from, Cut(t.datagram))
  }

  function Deliveries(ts: seq<Turn>): seq<Delivery> {
    seq(|ts|, i requires 0 <= i < |ts| => Received(ts[i]))
  }

  ghost predicate InOrder(ts: seq<Turn>, start: Time) {
    (forall t <- ts :: start <= t.now <= t.later) && forall i: nat, j: nat | i < j < |ts| :: ts[i].later <= ts[j].now
  }

  datatype Outgoing = Outgoing(to: Address, reply: bytes)

  /** The replies that go out: one for each turn that is neither refused nor dropped. */
  function RepliesSent(mode: Mode, m: Handling.MoneyFormat, sv: BankServer, ts: seq<Turn>): seq<Outgoing> {
    if ts == [] then []
    else
      var before, t := RepliesSent(mode, m, sv, ts[..|ts| - 1]), ts[|ts| - 1];
      var r := ReplyToLast(mode, Handling.TheHandler(m), sv, Deliveries(ts));
      if r.Err? || t.drop then before else before + [Outgoing(t.from, r.value)]
  }

  lemma NoTurns(mode: Mode, m: Handling.MoneyFormat, sv: BankServer)
    ensures Serve(mode, Handling.TheHandler(m), sv, Deliveries([])) == sv && RepliesSent(mode, m, sv, []) == []
  {
  }

  lemma OneMoreTurn(mode: Mode, m: Handling.MoneyFormat, sv: BankServer, ts: seq<Turn>, i: nat)
    requires i < |ts|
    ensures var h, ds := Handling.TheHandler(m), Deliveries(ts[..i]);
            var (after, r) := Dispatching.Dispatch(mode, h, Serve(mode, h, sv, ds), Received(ts[i]));
            Serve(mode, h, sv, Deliveries(ts[..i + 1])) == after
            && RepliesSent(mode, m, sv, ts[..i + 1])
               == RepliesSent(mode, m, sv, ts[..i])
                  + if r.Err? || ts[i].drop then [] else [Outgoing(ts[i].from, r.value)]
  {
    hide Dispatching.Dispatch, Received, Handling.Handle;
    var some, ds := ts[..i + 1], Deliveries(ts[..i + 1]);
    assert some[..|some| - 1] == ts[..i];
    assert ds[..|ds| - 1] == Deliveries(ts[..i]);
  }

  /** Turn i is answered with this datagram: its first 4096 bytes are dispatched on what the turns before left, the
      result is a reply, and the reply is not dropped. */
  ghost predicate SentAt(mode: Mode, m: Handling.MoneyFormat, sv: BankServer, ts: seq<Turn>, i: nat, o: Outgoing) {
    i < |ts| && !ts[i].drop && o.to == ts[i].from
    && var packet := if |ts[i].datagram| > 4096 then ts[i].datagram[..4096] else ts[i].datagram;
       var h := Handling.TheHandler(m);
       Dispatching.Dispatch(mode, h, Serve(mode, h, sv, Deliveries(ts[..i])), Delivery(ts[i].from, packet)).1
       == Ok(o.reply)
  }

  ghost predicate Answered(mode: Mode, m: Handling.MoneyFormat, sv: BankServer, ts: seq<Turn>, i: nat) {
    exists o: Outgoing :: SentAt(mode, m, sv, ts, i, o)
  }

  lemma SentBefore(mode: Mode, m: Handling.MoneyFormat, sv: BankServer, ts: seq<Turn>, i: nat, o: Outgoing)
    requires i < |ts| - 1
    ensures SentAt(mode, m, sv, ts, i, o) <==> SentAt(mode, m, sv, ts[..|ts| - 1], i, o)
  {
    hide Dispatching.Dispatch, Serve, Deliveries, Handling.TheHandler;
    assert ts[..|ts| - 1][..i] == ts[..i];
  }

  /** What the last turn adds to the replies sent. */
  lemma SentLast(mode: Mode, m: Handling.MoneyFormat, sv: BankServer, ts: seq<Turn>) returns (more: seq<Outgoing>)
    requires ts != []
    ensures RepliesSent(mode, m, sv, ts) == RepliesSent(mode, m, sv, ts[..|ts| - 1]) + more && |more| <= 1
    ensures forall o: Outgoing :: SentAt(mode, m, sv, ts, |ts| - 1, o) <==> more == [o]
    ensures Answered(mode, m, sv, ts, |ts| - 1) ==> more != []
  {
    hide Dispatching.Dispatch, Serve, RepliesSent, Deliveries, Handling.TheHandler;
    var last := |ts| - 1;
    assert ts[..last + 1] == ts;
    OneMoreTurn(mode, m, sv, ts, last);
    var h := Handling.TheHandler(m);
    var r := Dispatching.Dispatch(mode, h, Serve(mode, h, sv, Deliveries(ts[..last])), Received(ts[last])).1;
    more := if r.Err? || ts[last].drop then [] else [Outgoing(ts[last].from, r.value)];
  }

  ghost predicate Increasing(turns: seq<nat>) {
    forall j: nat, k: nat | j < k < |turns| :: turns[j] < turns[k]
  }

  lemma IncreasingSnoc(turns: seq<nat>, last: nat)
    requires Increasing(turns) && forall k: nat | k < |turns| :: turns[k] < last
    ensures Increasing(turns + [last])
  {
  }

  /** The replies sent are those of the turns that have one to send, each to where its request came from, in order. */
  lemma {:induction false} RepliesSentExactly(mode: Mode, m: Handling.MoneyFormat, sv: BankServer, ts: seq<Turn>)
    returns (turns: seq<nat>)
    ensures |turns| == |RepliesSent(mode, m, sv, ts)| && forall k: nat | k < |turns| :: turns[k] < |ts|
    ensures forall k: nat | k < |turns| :: SentAt(mode, m, sv, ts, turns[k], RepliesSent(mode, m, sv, ts)[k])
    ensures Increasing(turns)
    ensures forall i: nat | Answered(mode, m, sv, ts, i) :: i in turns
  {
    hide RepliesSent, Deliveries, Serve, Dispatching.Dispatch, Handling.TheHandler;
    turns := [];
    if ts == [] {
      NoTurns(mode, m, sv);
    } else {
      hide Increasing, SentAt, Answered;
      var init, last := ts[..|ts| - 1], |ts| - 1;
      var before := RepliesSentExactly(mode, m, sv, init);
      var more := SentLast(mode, m, sv, ts);
      var earlier, sent := RepliesSent(mode, m, sv, init), RepliesSent(mode, m, sv, ts);
      turns := if more == [] then before else before + [last];
      IncreasingSnoc(before, last);
      forall k: nat | k < |turns| ensures SentAt(mode, m, sv, ts, turns[k], sent[k]) {
        if k < |before| {
          assert sent[k] == earlier[k];
          SentBefore(mode, m, sv, ts, turns[k], sent[k]);
        } else {
          assert more == [sent[k]];
        }
      }
      forall i: nat | Answered(mode, m, sv, ts, i) ensures i in turns {
        AnsweredBefore(mode, m, sv, ts, i);
        assert i == last || i in before;
      }
    }
  }

  lemma AnsweredBefore(mode: Mode, m: Handling.MoneyFormat, sv: BankServer, ts: seq<Turn>, i: nat)
    requires Answered(mode, m, sv, ts, i)
    ensures i == |ts| - 1 || (i < |ts| - 1 && Answered(mode, m, sv, ts[..|ts| - 1], i))
  {
    var o: Outgoing :| SentAt(mode, m, sv, ts, i, o);
    if i < |ts| - 1 {
      SentBefore(mode, m, sv, ts, i, o);
    }
  }

  /** A finite run of the request loop. Dropping a reply changes nothing but what is sent. */
  method ServeDatagrams(d: Dispatcher, ts: seq<Turn>, start: Time) returns (sent: seq<Outgoing>)
    requires d.Valid(start) && InOrder(ts, start)
    modifies d.handler.monitor, d.handler.service.store, d.handler.service.store.accounts.Values, d.history
    ensures d.View() == Serve(d.mode, Handling.TheHandler(d.handler.monitor.format), old(d.View()), Deliveries(ts))
    ensures sent == RepliesSent(d.mode, d.handler.monitor.format, old(d.View()), ts)
  {
    hide Dispatching.Dispatch, Serve, RepliesSent, Deliveries, Handling.TheHandler, Dispatcher.View, Dispatcher.Valid;
    sent := [];
    NoTurns(d.mode, d.handler.monitor.format, d.View());
    assert ts[..0] == [];
    ghost var clock, m := start, d.handler.monitor.format;
    for i := 0 to |ts|
      invariant d.Valid(clock) && (i < |ts| ==> clock <= ts[i].now)
      invariant fresh(d.handler.service.store.accounts.Values - old(d.handler.service.store.accounts.Values))
      invariant d.View() == Serve(d.mode, Handling.TheHandler(m), old(d.View()), Deliveries(ts[..i]))
      invariant sent == RepliesSent(d.mode, m, old(d.View()), ts[..i])
    {
      d.Waits(clock, ts[i].now);
      OneMoreTurn(d.mode, m, old(d.View()), ts, i);
      var received := Received(ts[i]);
      var reply := d.Dispatch(received.packet, received.from, ts[i].now, ts[i].later);
      clock := ts[i].later;
      if reply.Err? {
        continue;
      }
      if ts[i].drop {
        continue;
      }
      sent := sent + [Outgoing(ts[i].from, reply.value[..])];
    }
    assert ts[..|ts|] == ts;
  }
}
