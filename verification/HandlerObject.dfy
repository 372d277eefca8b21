/** The request handler as the server wires it: packets in, replies out, the banking service and the
    monitor changed on the way. Each method is proved against the value-level Handling. */
module HandlerObject {
  import opened Bytes
  import opened Commands
  import opened ServerCodec
  import opened Monitoring
  import opened BankObjects
  import Bank
  import opened Dispatching
  import Handling

  lemma MissingField(m: Handling.MoneyFormat, b: Bank.Bank, c: Command, id: u32, a: Address)
    requires c.service != Some(Handling.MONITOR) && Handling.CallFor(m, c).None?
    ensures Handling.HandleCommand(m, b, c, id, a) == Outcome(b, ReplyPacket(id, a, Handling.STATUS_INTERNAL, []), [])
  {
    hide Handling.CallFor;
  }

  /** The outcome of a command whose banking call has been made. */
  function Done(m: Handling.MoneyFormat, done: (Bank.Bank, Bank.Return), c: Command, call: Bank.Call, id: u32,
      a: Address)
    : Handling.HandlerResult
  {
    if done.1.Failed? then Outcome(done.0, ReplyPacket(id, a, Handling.StatusOf(done.1.error), []), [])
    else Outcome(done.0, ReplyPacket(id, a, Handling.STATUS_SUCCESS, Handling.ContentFor(m, done.1)),
                 Handling.NotesFor(c, call, done.1))
  }

  lemma CommandApplies(m: Handling.MoneyFormat, b: Bank.Bank, c: Command, call: Bank.Call, id: u32, a: Address)
    requires c.service != Some(Handling.MONITOR) && Handling.CallFor(m, c) == Some(call)
    ensures Handling.HandleCommand(m, b, c, id, a) == Done(m, Bank.Apply(b, call), c, call, id, a)
  {
    hide Handling.CallFor, Bank.Apply;
  }

  lemma MonitorOutcome(m: Handling.MoneyFormat, b: Bank.Bank, c: Command, id: u32, a: Address)
    requires c.service == Some(Handling.MONITOR)
    ensures Handling.HandleCommand(m, b, c, id, a)
         == if c.monitorSeconds.None? then Outcome(b, ReplyPacket(id, a, Handling.STATUS_INTERNAL, []), [])
            else Outcome(b, ReplyPacket(id, a, Handling.STATUS_SUCCESS, []),
                         [Handling.Register(a, c.monitorSeconds.value)])
  {
    hide Handling.CallFor, Bank.Apply;
  }

  class Handler {
    const service: Service
    const monitor: Manager

    constructor (service: Service, monitor: Manager)
      ensures this.service == service && this.monitor == monitor
    {
      this.service, this.monitor := service, monitor;
    }

    ghost predicate Valid(now: Time)
      reads monitor, service.store, service.store.accounts.Values
    {
      service.store.Valid() && monitor.Valid(now)
    }

    ghost function State(): Bank.Bank
      reads service.store, service.store.accounts.Values
    {
      service.store.Contents()
    }

    ghost function Calls(): seq<Handling.MonitorCall>
      reads monitor
    {
      CallsOf(monitor.ops)
    }

    method HandleOpen(cmd: Command, id: u32, a: Address, now: Time) returns (reply: bytes)
      requires Valid(now) && cmd.service == Some(Handling.OPEN)
      modifies service.store, service.store.accounts.Values, monitor
      ensures Valid(now) && fresh(service.store.accounts.Values - old(service.store.accounts.Values))
      ensures var out := Handling.HandleCommand(monitor.format, old(State()), cmd, id, a);
              State() == out.state && reply == out.reply && Calls() == old(Calls()) + out.calls
    {
      hide Handling.HandleCommand, Bank.Apply, Be32, Be64, Pack, Handling.FixedPassword, ReplyPacket;
      hide CallsOf, Kept, LatestEnd, ClockRuns, MemoryStore.Contents, MemoryStore.Valid;
      if cmd.ownerName.None? || cmd.password.None? || cmd.currency.None? || cmd.money.None? {
        MissingField(monitor.format, State(), cmd, id, a);
        reply := BuildReply(id, a, Handling.STATUS_INTERNAL, []);
        return;
      }
      var pw := Handling.FixedPassword(cmd.password.value);
      var r := service.OpenAccount(cmd.ownerName.value, pw, cmd.currency.value, monitor.format.read(cmd.money.value));
      ghost var call := Bank.Open(cmd.ownerName.value, pw, cmd.currency.value, monitor.format.read(cmd.money.value));
      CommandApplies(monitor.format, old(State()), cmd, call, id, a);
      var content := EncodeTLVFields([Field(ACCOUNT_NUMBER, Be32(r.number))]);
      var payload, reached := monitor.NotifyAll(
        Handling.Update(Handling.OPEN, r.number, cmd.ownerName.value, cmd.currency.value,
                        monitor.format.read(cmd.money.value)), now);
      reply := BuildReply(id, a, Handling.STATUS_SUCCESS, content);
    }

    method HandleClose(cmd: Command, id: u32, a: Address, now: Time) returns (reply: bytes)
      requires Valid(now) && cmd.service == Some(Handling.CLOSE)
      modifies service.store, service.store.accounts.Values, monitor
      ensures Valid(now) && fresh(service.store.accounts.Values - old(service.store.accounts.Values))
      ensures var out := Handling.HandleCommand(monitor.format, old(State()), cmd, id, a);
              State() == out.state && reply == out.reply && Calls() == old(Calls()) + out.calls
    {
      hide Handling.HandleCommand, Bank.Apply, Be32, Be64, Pack, Handling.FixedPassword, ReplyPacket;
      hide CallsOf, Kept, LatestEnd, ClockRuns, MemoryStore.Contents, MemoryStore.Valid;
      if cmd.ownerName.None? || cmd.accountNumber.None? || cmd.password.None? {
        MissingField(monitor.format, State(), cmd, id, a);
        reply := BuildReply(id, a, Handling.STATUS_INTERNAL, []);
        return;
      }
      var pw := Handling.FixedPassword(cmd.password.value);
      var r := service.CloseAccount(cmd.ownerName.value, cmd.accountNumber.value, pw);
      ghost var call := Bank.Close(cmd.ownerName.value, cmd.accountNumber.value, pw);
      CommandApplies(monitor.format, old(State()), cmd, call, id, a);
      if r.Failed? {
        reply := BuildReply(id, a, Handling.StatusOf(r.error), []);
        return;
      }
      var payload, reached := monitor.NotifyAll(
        Handling.Update(Handling.CLOSE, cmd.accountNumber.value, cmd.ownerName.value, 0, 0.0), now);
      reply := BuildReply(id, a, Handling.STATUS_SUCCESS, []);
    }

    method HandleDeposit(cmd: Command, id: u32, a: Address, now: Time) returns (reply: bytes)
      requires Valid(now) && cmd.service == Some(Handling.DEPOSIT)
      modifies service.store, service.store.accounts.Values, monitor
      ensures Valid(now) && fresh(service.store.accounts.Values - old(service.store.accounts.Values))
      ensures var out := Handling.HandleCommand(monitor.format, old(State()), cmd, id, a);
              State() == out.state && reply == out.reply && Calls() == old(Calls()) + out.calls
    {
      hide Handling.HandleCommand, Bank.Apply, Be32, Be64, Pack, Handling.FixedPassword, ReplyPacket;
      hide CallsOf, Kept, LatestEnd, ClockRuns, MemoryStore.Contents, MemoryStore.Valid;
      if cmd.ownerName.None? || cmd.accountNumber.None? || cmd.password.None? || cmd.currency.None? || cmd.money.None? {
        MissingField(monitor.format, State(), cmd, id, a);
        reply := BuildReply(id, a, Handling.STATUS_INTERNAL, []);
        return;
      }
      var pw, amount := Handling.FixedPassword(cmd.password.value), monitor.format.read(cmd.money.value);
      var r := service.Deposit(cmd.ownerName.value, cmd.accountNumber.value, pw, cmd.currency.value, amount);
      ghost var call := Bank.Deposit(cmd.ownerName.value, cmd.accountNumber.value, pw, cmd.currency.value, amount);
      CommandApplies(monitor.format, old(State()), cmd, call, id, a);
      if r.Failed? {
        reply := BuildReply(id, a, Handling.StatusOf(r.error), []);
        return;
      }
      var content := EncodeTLVFields([Field(MONETARY_VALUE, Be64(monitor.format.write(r.balance)))]);
      var payload, reached := monitor.NotifyAll(
        Handling.Update(Handling.DEPOSIT, cmd.accountNumber.value, cmd.ownerName.value, cmd.currency.value,
                        r.balance), now);
      reply := BuildReply(id, a, Handling.STATUS_SUCCESS, content);
    }

    method HandleWithdraw(cmd: Command, id: u32, a: Address, now: Time) returns (reply: bytes)
      requires Valid(now) && cmd.service == Some(Handling.WITHDRAW)
      modifies service.store, service.store.accounts.Values, monitor
      ensures Valid(now) && fresh(service.store.accounts.Values - old(service.store.accounts.Values))
      ensures var out := Handling.HandleCommand(monitor.format, old(State()), cmd, id, a);
              State() == out.state && reply == out.reply && Calls() == old(Calls()) + out.calls
    {
      hide Handling.HandleCommand, Bank.Apply, Be32, Be64, Pack, Handling.FixedPassword, ReplyPacket;
      hide CallsOf, Kept, LatestEnd, ClockRuns, MemoryStore.Contents, MemoryStore.Valid;
      if cmd.ownerName.None? || cmd.accountNumber.None? || cmd.password.None? || cmd.currency.None? || cmd.money.None? {
        MissingField(monitor.format, State(), cmd, id, a);
        reply := BuildReply(id, a, Handling.STATUS_INTERNAL, []);
        return;
      }
      var pw, amount := Handling.FixedPassword(cmd.password.value), monitor.format.read(cmd.money.value);
      var r := service.Withdraw(cmd.ownerName.value, cmd.accountNumber.value, pw, cmd.currency.value, amount);
      ghost var call := Bank.Withdraw(cmd.ownerName.value, cmd.accountNumber.value, pw, cmd.currency.value, amount);
      CommandApplies(monitor.format, old(State()), cmd, call, id, a);
      if r.Failed? {
        reply := BuildReply(id, a, Handling.StatusOf(r.error), []);
        return;
      }
      var content := EncodeTLVFields([Field(MONETARY_VALUE, Be64(monitor.format.write(r.balance)))]);
      var payload, reached := monitor.NotifyAll(
        Handling.Update(Handling.WITHDRAW, cmd.accountNumber.value, cmd.ownerName.value, cmd.currency.value,
                        r.balance), now);
      reply := BuildReply(id, a, Handling.STATUS_SUCCESS, content);
    }

    method HandleMonitor(cmd: Command, id: u32, a: Address, now: Time) returns (reply: bytes)
      requires Valid(now) && cmd.service == Some(Handling.MONITOR)
      modifies monitor
      ensures Valid(now)
      ensures var out := Handling.HandleCommand(monitor.format, old(State()), cmd, id, a);
              State() == out.state && reply == out.reply && Calls() == old(Calls()) + out.calls
    {
      hide Handling.HandleCommand, ReplyPacket, CallsOf, Kept, LatestEnd, ClockRuns, MemoryStore.Contents;
      hide MemoryStore.Valid;
      MonitorOutcome(monitor.format, State(), cmd, id, a);
      if cmd.monitorSeconds.None? {
        reply := BuildReply(id, a, Handling.STATUS_INTERNAL, []);
        return;
      }
      monitor.Register(a, cmd.monitorSeconds.value, now);
      reply := BuildReply(id, a, Handling.STATUS_SUCCESS, []);
    }

    method HandleGetBalance(cmd: Command, id: u32, a: Address) returns (reply: bytes)
      requires service.store.Valid() && cmd.service == Some(Handling.GET_BALANCE)
      ensures var out := Handling.HandleCommand(monitor.format, State(), cmd, id, a);
              State() == out.state && reply == out.reply && out.calls == []
    {
      hide Handling.HandleCommand, Bank.Apply, Be32, Be64, Pack, Handling.FixedPassword, ReplyPacket;
      hide CallsOf, Kept, LatestEnd, ClockRuns, MemoryStore.Contents, MemoryStore.Valid;
      if cmd.ownerName.None? || cmd.accountNumber.None? || cmd.password.None? {
        MissingField(monitor.format, State(), cmd, id, a);
        reply := BuildReply(id, a, Handling.STATUS_INTERNAL, []);
        return;
      }
      var pw := Handling.FixedPassword(cmd.password.value);
      var r := service.CheckBalance(cmd.ownerName.value, cmd.accountNumber.value, pw);
      ghost var call := Bank.CheckBalance(cmd.ownerName.value, cmd.accountNumber.value, pw);
      CommandApplies(monitor.format, State(), cmd, call, id, a);
      if r.Failed? {
        reply := BuildReply(id, a, Handling.StatusOf(r.error), []);
        return;
      }
      var content := EncodeTLVFields([Field(MONETARY_VALUE, Be64(monitor.format.write(r.balance)))]);
      reply := BuildReply(id, a, Handling.STATUS_SUCCESS, content);
    }

    /** Both sides of the transfer are announced, each at its own reading of the clock. */
    method HandleTransfer(cmd: Command, id: u32, a: Address, now: Time, later: Time) returns (reply: bytes)
      requires Valid(now) && now <= later && cmd.service == Some(Handling.TRANSFER)
      modifies service.store, service.store.accounts.Values, monitor
      ensures Valid(later) && fresh(service.store.accounts.Values - old(service.store.accounts.Values))
      ensures var out := Handling.HandleCommand(monitor.format, old(State()), cmd, id, a);
              State() == out.state && reply == out.reply && Calls() == old(Calls()) + out.calls
    {
      hide Handling.HandleCommand, Bank.Apply, Be32, Be64, Pack, Handling.FixedPassword, ReplyPacket;
      hide CallsOf, Kept, LatestEnd, ClockRuns, MemoryStore.Contents, MemoryStore.Valid;
      ClockAdvances(monitor.ops, now, later);
      if cmd.ownerName.None? || cmd.accountNumber.None? || cmd.password.None? || cmd.txAccountNumber.None?
         || cmd.txOwnerName.None? || cmd.currency.None? || cmd.money.None? {
        MissingField(monitor.format, State(), cmd, id, a);
        reply := BuildReply(id, a, Handling.STATUS_INTERNAL, []);
        return;
      }
      var pw, amount := Handling.FixedPassword(cmd.password.value), monitor.format.read(cmd.money.value);
      var r := service.Transfer(cmd.ownerName.value, cmd.accountNumber.value, pw, cmd.txAccountNumber.value,
                                cmd.currency.value, amount);
      ghost var call := Bank.Transfer(cmd.ownerName.value, cmd.accountNumber.value, pw, cmd.txAccountNumber.value,
                                      cmd.currency.value, amount);
      CommandApplies(monitor.format, old(State()), cmd, call, id, a);
      if r.Failed? {
        reply := BuildReply(id, a, Handling.StatusOf(r.error), []);
        return;
      }
      var content := EncodeTLVFields([Field(MONETARY_VALUE, Be64(monitor.format.write(r.from)))]);
      var payload, reached := monitor.NotifyAll(
        Handling.Update(Handling.TRANSFER, cmd.accountNumber.value, cmd.ownerName.value, 0, r.from), now);
      ClockAdvances(monitor.ops, now, later);
      payload, reached := monitor.NotifyAll(
        Handling.Update(Handling.TRANSFER, cmd.txAccountNumber.value, cmd.txOwnerName.value, 0, r.to), later);
      reply := BuildReply(id, a, Handling.STATUS_SUCCESS, content);
    }

    /** The switch on the service field. A missing or unknown service is an internal error. */
    method Route(cmd: Command, id: u32, a: Address, now: Time, later: Time) returns (reply: bytes)
      requires Valid(now) && now <= later
      modifies service.store, service.store.accounts.Values, monitor
      ensures Valid(later) && fresh(service.store.accounts.Values - old(service.store.accounts.Values))
      ensures var out := Handling.HandleCommand(monitor.format, old(State()), cmd, id, a);
              State() == out.state && reply == out.reply && Calls() == old(Calls()) + out.calls
    {
      hide Handling.HandleCommand, ReplyPacket;
      ClockAdvances(monitor.ops, now, later);
      match cmd.service {
        case Some(1) => reply := HandleOpen(cmd, id, a, later);
        case Some(2) => reply := HandleClose(cmd, id, a, later);
        case Some(3) => reply := HandleDeposit(cmd, id, a, later);
        case Some(4) => reply := HandleWithdraw(cmd, id, a, later);
        case Some(5) => reply := HandleMonitor(cmd, id, a, later);
        case Some(6) => reply := HandleGetBalance(cmd, id, a);
        case Some(7) => reply := HandleTransfer(cmd, id, a, now, later);
        case _ =>
          MissingField(monitor.format, State(), cmd, id, a);
          reply := BuildReply(id, a, Handling.STATUS_INTERNAL, []);
      }
    }

    /** What the dispatcher calls: the reply, the store and the calls on the monitor are those of
        Handling.Handle on the store as it was. */
    method Handle(data: bytes, a: Address, now: Time, later: Time) returns (reply: bytes)
      requires Valid(now) && now <= later
      modifies service.store, service.store.accounts.Values, monitor
      ensures Valid(later) && fresh(service.store.accounts.Values - old(service.store.accounts.Values))
      ensures var out := Handling.Handle(monitor.format, old(State()), data, a);
              State() == out.state && reply == out.reply && Calls() == old(Calls()) + out.calls
    {
      hide Handling.HandleCommand, ReplyPacket, Decode, LoadBe32, LoadBe16;
      ClockAdvances(monitor.ops, now, later);
      var header := ParseHeader(data);
      assert header.Ok? ==> |data| >= HEADER_SIZE;
      if header.Err? {
        reply := BuildReply(0, a, Handling.STATUS_INTERNAL, []);
        return;
      }
      var cmd := DecodeTLV(data[HEADER_SIZE..]);
      var id := header.value.requestId;
      if cmd.Err? {
        reply := BuildReply(id, a, Handling.STATUS_INTERNAL, []);
        return;
      }
      reply := Route(cmd.value, id, a, now, later);
    }
  }
}
