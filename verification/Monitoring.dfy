/** The callback monitor: who is told about an update, with lazy and periodic removal of expired
    subscribers, against an ideal table that never removes anyone. Times are readings of one clock. */
module Monitoring {
  import opened Bytes
  import opened ServerCodec
  import opened Handling

  type Time = int

  /** When each subscriber's registration ends. */
  type Table = map<Address, Time>

  const SECOND: int := 1_000_000_000

  /** The registrations that have not expired: the end itself still counts. */
  function Unexpired(t: Table, now: Time): Table {
    map a <- t | now <= t[a] :: t[a]
  }

  /** What a call on the monitor at a given time leaves in the table. */
  function TableAfter(t: Table, c: MonitorCall, now: Time): Table {
    match c
    case Register(client, seconds) => t[client := now + seconds * SECOND]
    case Notify(_) => Unexpired(t, now)
  }

  datatype Op = Monitored(call: MonitorCall, now: Time) | Sweep(now: Time)

  /** The table the manager keeps. */
  function Kept(ops: seq<Op>): Table {
    if ops == [] then map[]
    else
      var before, op := Kept(ops[..|ops| - 1]), ops[|ops| - 1];
      if op.Sweep? then Unexpired(before, op.now) else TableAfter(before, op.call, op.now)
  }

  /** The calls among the operations: sweeping is not one. */
  function CallsOf(ops: seq<Op>): seq<MonitorCall> {
    if ops == [] then []
    else
      var before, op := CallsOf(ops[..|ops| - 1]), ops[|ops| - 1];
      if op.Sweep? then before else before + [op.call]
  }

  /** The end of a client's latest registration, expired or not. */
  function LatestEnd(ops: seq<Op>, client: Address): Option<Time> {
    if ops == [] then None
    else
      var op := ops[|ops| - 1];
      if op.Monitored? && op.call.Register? && op.call.client == client then Some(op.now + op.call.seconds * SECOND)
      else LatestEnd(ops[..|ops| - 1], client)
  }

  ghost predicate ClockRuns(ops: seq<Op>, now: Time) {
    (forall i: nat, j: nat | i < j < |ops| :: ops[i].now <= ops[j].now) && forall op <- ops :: op.now <= now
  }

  lemma ClockAdvances(ops: seq<Op>, now: Time, later: Time)
    requires ClockRuns(ops, now) && now <= later
    ensures ClockRuns(ops, later)
  {
  }

  lemma ClockTicks(ops: seq<Op>, op: Op)
    requires ClockRuns(ops, op.now)
    ensures ClockRuns(ops + [op], op.now)
  {
  }

  /** What one more call does to the table, the calls and the clock. */
  lemma OneMoreCall(ops: seq<Op>, c: MonitorCall, now: Time)
    requires ClockRuns(ops, now)
    ensures var ops' := ops + [Monitored(c, now)];
            Kept(ops') == TableAfter(Kept(ops), c, now) && CallsOf(ops') == CallsOf(ops) + [c] && ClockRuns(ops', now)
  {
    ClockTicks(ops, Monitored(c, now));
    assert (ops + [Monitored(c, now)])[..|ops|] == ops;
  }

  lemma ClockBefore(ops: seq<Op>, now: Time)
    requires ops != [] && ClockRuns(ops, now)
    ensures ClockRuns(ops[..|ops| - 1], ops[|ops| - 1].now) && ops[|ops| - 1].now <= now
  {
    var init, op := ops[..|ops| - 1], ops[|ops| - 1];
    forall o | o in init ensures o.now <= op.now {
      var i: nat :| i < |init| && init[i] == o;
      assert ops[i].now <= ops[|ops| - 1].now;
    }
  }

  /** The manager drops a client only after its latest registration has expired. */
  lemma {:induction false} KeptUnlessExpired(ops: seq<Op>, now: Time, client: Address)
    requires ClockRuns(ops, now)
    ensures client in Kept(ops) ==> LatestEnd(ops, client) == Some(Kept(ops)[client])
    ensures client !in Kept(ops) && LatestEnd(ops, client).Some? ==> LatestEnd(ops, client).value < now
  {
    if ops != [] {
      hide ClockRuns;
      ClockBefore(ops, now);
      KeptUnlessExpired(ops[..|ops| - 1], ops[|ops| - 1].now, client);
    }
  }

  predicate Registers(op: Op, client: Address) {
    op.Monitored? && op.call.Register? && op.call.client == client
  }

  /** The client's latest registration has not run out: it lasts the seconds asked for, of a thousand million
      nanoseconds each, to the last nanosecond. */
  ghost predicate Subscribed(ops: seq<Op>, now: Time, client: Address) {
    exists i: nat :: i < |ops| && Registers(ops[i], client)
                     && (forall j: nat | i < j < |ops| :: !Registers(ops[j], client))
                     && now <= ops[i].now + ops[i].call.seconds * 1_000_000_000
  }

  lemma {:induction false} LatestEndExactly(ops: seq<Op>, now: Time, client: Address)
    ensures LatestEnd(ops, client).Some? && now <= LatestEnd(ops, client).value <==> Subscribed(ops, now, client)
  {
    if ops != [] {
      var init, last := ops[..|ops| - 1], |ops| - 1;
      LatestEndExactly(init, now, client);
      if Registers(ops[last], client) {
        assert Subscribed(ops, now, client) ==> now <= LatestEnd(ops, client).value;
      } else if Subscribed(init, now, client) {
        var i: nat :| i < |init| && Registers(init[i], client)
                      && (forall j: nat | i < j < |init| :: !Registers(init[j], client))
                      && now <= init[i].now + init[i].call.seconds * 1_000_000_000;
        assert Registers(ops[i], client);
      }
    }
  }

  /** For every schedule of registrations, notifications and sweeps under a clock that does not run
      backwards, a notification addresses exactly the clients whose latest registration has not
      expired: removing subscribers, lazily or by sweeping, is invisible. */
  lemma {:induction false} SweepingIsInvisible(ops: seq<Op>, now: Time, client: Address)
    requires ClockRuns(ops, now)
    ensures client in Unexpired(Kept(ops), now) <==> Subscribed(ops, now, client)
  {
    KeptUnlessExpired(ops, now, client);
    LatestEndExactly(ops, now, client);
  }

  /** The table as a mutable object. `ops` remembers, for specification only, everything that was
      done to it; every operation is given the clock's reading. */
  class Manager {
    var subscribers: Table
    const format: MoneyFormat
    ghost var ops: seq<Op>

    ghost predicate Valid(now: Time)
      reads this
    {
      subscribers == Kept(ops) && ClockRuns(ops, now)
    }

    constructor (format: MoneyFormat)
      ensures ops == [] && this.format == format && subscribers == map[]
    {
      this.format := format;
      subscribers, ops := map[], [];
    }

    method Register(client: Address, seconds: u32, now: Time)
      requires Valid(now)
      modifies this
      ensures Valid(now) && ops == old(ops) + [Monitored(MonitorCall.Register(client, seconds), now)]
      ensures CallsOf(ops) == CallsOf(old(ops)) + [MonitorCall.Register(client, seconds)]
    {
      OneMoreCall(ops, MonitorCall.Register(client, seconds), now);
      subscribers := subscribers[client := now + seconds * SECOND];
      ops := ops + [Monitored(MonitorCall.Register(client, seconds), now)];
    }

    /** Sends one packet to exactly the clients whose latest registration has not expired, and
        drops the rest. */
    method NotifyAll(u: Update, now: Time) returns (payload: bytes, reached: set<Address>)
      requires Valid(now)
      modifies this
      ensures Valid(now) && ops == old(ops) + [Monitored(Notify(u), now)]
      ensures CallsOf(ops) == CallsOf(old(ops)) + [Notify(u)]
      ensures forall a :: a in reached <==> Subscribed(old(ops), now, a)
      ensures reached != {} ==>
                payload == CallbackPacket(CallbackUpdate(u.service, u.number, u.holder, u.currency,
                                                         format.write(u.balance)))
    {
      hide Subscribed, LatestEnd, CallbackPacket, Kept, CallsOf, ClockRuns;
      ghost var before := subscribers;
      forall a ensures a in Unexpired(before, now) <==> Subscribed(ops, now, a) {
        SweepingIsInvisible(ops, now, a);
      }
      OneMoreCall(ops, Notify(u), now);
      ops := ops + [Monitored(Notify(u), now)];
      payload, reached := [], {};
      if subscribers == map[] {
        return;
      }
      payload := MarshalCallbackUpdate(CallbackUpdate(u.service, u.number, u.holder, u.currency,
                                                      format.write(u.balance)));
      var left := subscribers.Keys;
      while left != {}
        invariant left <= before.Keys && ops == old(ops) + [Monitored(Notify(u), now)]
        invariant reached == Unexpired(before, now).Keys - left
        invariant subscribers == map a <- before | now <= before[a] || a in left :: before[a]
        decreases left
      {
        var a :| a in left;
        if now > subscribers[a] {
          subscribers := subscribers - {a};
        } else {
          reached := reached + {a};
        }
        left := left - {a};
      }
    }

    /** The sweeper's pass over the table. */
    method EvictExpired(now: Time)
      requires Valid(now)
      modifies this
      ensures Valid(now) && ops == old(ops) + [Sweep(now)] && CallsOf(ops) == CallsOf(old(ops))
    {
      ghost var before := subscribers;
      ClockTicks(ops, Sweep(now));
      ops := ops + [Sweep(now)];
      var left := subscribers.Keys;
      while left != {}
        invariant left <= before.Keys && ops == old(ops) + [Sweep(now)]
        invariant subscribers == map a <- before | now <= before[a] || a in left :: before[a]
        decreases left
      {
        var a :| a in left;
        if now > subscribers[a] {
          subscribers := subscribers - {a};
        }
        left := left - {a};
      }
    }
  }
}
