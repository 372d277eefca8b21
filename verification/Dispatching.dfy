/** Invocation semantics, for any request handler: what the dispatcher does with each delivered
    packet, and what its duplicate filter is worth over whole delivery sequences. */
module Dispatching {
  import opened Bytes
  import opened ServerCodec

  datatype Mode = AtLeastOnce | AtMostOnce

  function FlagOf(mode: Mode): byte {
    if mode.AtLeastOnce? then 1 else 2
  }

  /** What handling one packet does: the new state, the reply, and the calls made on the monitor. */
  datatype Outcome<S, C> = Outcome(state: S, reply: bytes, calls: seq<C>)

  type RequestHandler<!S, !C> = (S, bytes, Address) -> Outcome<S, C>

  const MAX_PACKET_SIZE: nat := 4096

  /** The server's receive buffer cuts longer datagrams short. */
  function Cut(datagram: bytes): (r: bytes)
    ensures r <= datagram && |r| <= 4096 && (|r| == 4096 || r == datagram)
  {
    if |datagram| > MAX_PACKET_SIZE then datagram[..MAX_PACKET_SIZE] else datagram
  }

  datatype Delivery = Delivery(from: Address, packet: bytes)

  /** Replies are remembered per client endpoint and request id. */
  datatype Key = Key(client: Address, requestId: u32)

  datatype DispatchError = BadHeader | FlagMismatch

  /** `calls` is every call made on the monitor so far. */
  datatype Server<S, C> = Server(state: S, history: map<Key, bytes>, calls: seq<C>)

  function Refused(mode: Mode, d: Delivery): Option<DispatchError> {
    if |d.packet| < HEADER_SIZE then Some(BadHeader)
    else if ParseHeader(d.packet).value.flag != FlagOf(mode) then Some(FlagMismatch)
    else None
  }

  predicate Accepted(mode: Mode, d: Delivery) {
    Refused(mode, d) == None
  }

  function KeyOf(d: Delivery): Key
    requires |d.packet| >= HEADER_SIZE
  {
    Key(d.from, ParseHeader(d.packet).value.requestId)
  }

  function Execute<S, C>(h: RequestHandler<S, C>, sv: Server<S, C>, d: Delivery): Server<S, C> {
    var out := h(sv.state, d.packet, d.from);
    sv.(state := out.state, calls := sv.calls + out.calls)
  }

  /** Runs the handler and remembers its reply. */
  function ExecuteAndStore<S, C>(h: RequestHandler<S, C>, sv: Server<S, C>, d: Delivery): Server<S, C>
    requires |d.packet| >= HEADER_SIZE
  {
    var reply := h(sv.state, d.packet, d.from).reply;
    Execute(h, sv, d).(history := sv.history[KeyOf(d) := reply])
  }

  function Dispatch<S, C>(mode: Mode, h: RequestHandler<S, C>, sv: Server<S, C>, d: Delivery)
    : (Server<S, C>, Result<bytes, DispatchError>)
  {
    if Refused(mode, d).Some? then (sv, Err(Refused(mode, d).value))
    else if mode.AtLeastOnce? then (Execute(h, sv, d), Ok(h(sv.state, d.packet, d.from).reply))
    else if KeyOf(d) in sv.history then (sv, Ok(sv.history[KeyOf(d)]))
    else (ExecuteAndStore(h, sv, d), Ok(h(sv.state, d.packet, d.from).reply))
  }

  /** Which packets are answered, byte for byte: those with a whole header whose second byte is the server's mode,
      1 under at-least-once and 2 under at-most-once. The rest change nothing. */
  lemma AnsweredExactly<S, C>(mode: Mode, h: RequestHandler<S, C>, sv: Server<S, C>, d: Delivery)
    ensures var (sv', r) := Dispatch(mode, h, sv, d);
            (mode == AtLeastOnce ==> (r.Ok? <==> |d.packet| >= 18 && d.packet[1] == 1))
            && (mode == AtMostOnce ==> (r.Ok? <==> |d.packet| >= 18 && d.packet[1] == 2))
            && (r == Err(BadHeader) <==> |d.packet| < 18)
            && (r.Err? ==> sv' == sv)
  {
  }

  /** Under at-least-once every such packet runs the handler, which gives the answer; nothing is remembered. */
  lemma AlwaysRuns<S, C>(h: RequestHandler<S, C>, sv: Server<S, C>, d: Delivery)
    requires |d.packet| >= 18 && d.packet[1] == 1
    ensures var out := h(sv.state, d.packet, d.from);
            Dispatch(AtLeastOnce, h, sv, d) == (Server(out.state, sv.history, sv.calls + out.calls), Ok(out.reply))
  {
  }

  function Serve<S, C>(mode: Mode, h: RequestHandler<S, C>, sv: Server<S, C>, ds: seq<Delivery>): Server<S, C> {
    if ds == [] then sv else Dispatch(mode, h, Serve(mode, h, sv, ds[..|ds| - 1]), ds[|ds| - 1]).0
  }

  /** The reply to the last delivery. */
  function ReplyToLast<S, C>(mode: Mode, h: RequestHandler<S, C>, sv: Server<S, C>, ds: seq<Delivery>)
    : Result<bytes, DispatchError>
    requires ds != []
  {
    Dispatch(mode, h, Serve(mode, h, sv, ds[..|ds| - 1]), ds[|ds| - 1]).1
  }

  function Started<S, C>(state: S): Server<S, C> {
    Server(state, map[], [])
  }

  // ----- at most once: the filter is invisible -----

  function Keys(ds: seq<Delivery>): set<Key> {
    set d <- ds | |d.packet| >= HEADER_SIZE :: KeyOf(d)
  }

  /** The accepted deliveries whose key had not been accepted before. */
  function FirstArrivals(ds: seq<Delivery>): seq<Delivery> {
    if ds == [] then []
    else
      var before := FirstArrivals(ds[..|ds| - 1]);
      var d := ds[|ds| - 1];
      if Accepted(AtMostOnce, d) && KeyOf(d) !in Keys(before) then before + [d] else before
  }

  /** The reference: the handler called on each delivery in turn, nothing looked up. */
  function HandleEach<S, C>(h: RequestHandler<S, C>, sv: Server<S, C>, ds: seq<Delivery>): Server<S, C>
    requires forall d <- ds :: |d.packet| >= HEADER_SIZE
  {
    if ds == [] then sv else ExecuteAndStore(h, HandleEach(h, sv, ds[..|ds| - 1]), ds[|ds| - 1])
  }

  lemma KeysSnoc(ds: seq<Delivery>, d: Delivery)
    requires |d.packet| >= HEADER_SIZE
    ensures Keys(ds + [d]) == Keys(ds) + {KeyOf(d)}
  {
    assert forall e :: e in ds + [d] <==> e in ds || e == d;
  }

  lemma {:induction false} FirstArrivalsAccepted(ds: seq<Delivery>)
    ensures forall d <- FirstArrivals(ds) :: d in ds && Accepted(AtMostOnce, d) && |d.packet| >= HEADER_SIZE
  {
    if ds != [] {
      hide KeyOf, Keys;
      FirstArrivalsAccepted(ds[..|ds| - 1]);
    }
  }

  /** Every accepted key has a first arrival. */
  lemma {:induction false} FirstArrivalsCover(ds: seq<Delivery>, d: Delivery)
    requires d in ds && Accepted(AtMostOnce, d)
    ensures KeyOf(d) in Keys(FirstArrivals(ds))
  {
    hide KeyOf, Keys;
    var init, last := ds[..|ds| - 1], ds[|ds| - 1];
    if Accepted(AtMostOnce, last) {
      KeysSnoc(FirstArrivals(init), last);
    }
    if d in init {
      FirstArrivalsCover(init, d);
    } else {
      assert d == last;
    }
  }

  ghost predicate DistinctKeys(ds: seq<Delivery>) {
    (forall d <- ds :: |d.packet| >= HEADER_SIZE)
    && forall i: nat, j: nat | i < j < |ds| :: KeyOf(ds[i]) != KeyOf(ds[j])
  }

  lemma DistinctSnoc(ds: seq<Delivery>, d: Delivery)
    requires DistinctKeys(ds) && |d.packet| >= HEADER_SIZE && KeyOf(d) !in Keys(ds)
    ensures DistinctKeys(ds + [d])
  {
    hide KeyOf;
    forall i: nat | i < |ds| ensures KeyOf(ds[i]) != KeyOf(d) {
      assert ds[i] in ds;
    }
  }

  /** No key arrives first twice. */
  lemma {:induction false} FirstArrivalsOnce(ds: seq<Delivery>)
    ensures DistinctKeys(FirstArrivals(ds))
  {
    if ds != [] {
      hide KeyOf, Keys, DistinctKeys;
      var before, d := FirstArrivals(ds[..|ds| - 1]), ds[|ds| - 1];
      FirstArrivalsOnce(ds[..|ds| - 1]);
      if Accepted(AtMostOnce, d) && KeyOf(d) !in Keys(before) {
        DistinctSnoc(before, d);
      }
    }
  }

  /** The remembered keys are those handled. */
  lemma {:induction false} HistoryOfEach<S, C>(h: RequestHandler<S, C>, state: S, ds: seq<Delivery>)
    requires forall d <- ds :: |d.packet| >= HEADER_SIZE
    ensures HandleEach(h, Started(state), ds).history.Keys == Keys(ds)
  {
    if ds != [] {
      hide KeyOf, Keys;
      HistoryOfEach(h, state, ds[..|ds| - 1]);
      KeysSnoc(ds[..|ds| - 1], ds[|ds| - 1]);
      assert ds == ds[..|ds| - 1] + [ds[|ds| - 1]];
    }
  }

  /** For every delivery sequence the at-most-once server is in the state, has made the monitor
      calls and remembers the replies of a server that calls the handler once for each distinct
      client and request id, in order of first arrival. */
  lemma {:induction false} FilterRefinesOnce<S, C>(h: RequestHandler<S, C>, state: S, ds: seq<Delivery>)
    ensures forall d <- FirstArrivals(ds) :: |d.packet| >= HEADER_SIZE
    ensures Serve(AtMostOnce, h, Started(state), ds) == HandleEach(h, Started(state), FirstArrivals(ds))
  {
    FirstArrivalsAccepted(ds);
    if ds != [] {
      hide KeyOf, Keys, Refused;
      var init, d := ds[..|ds| - 1], ds[|ds| - 1];
      FilterRefinesOnce(h, state, init);
      FirstArrivalsAccepted(init);
      HistoryOfEach(h, state, FirstArrivals(init));
      if Accepted(AtMostOnce, d) && KeyOf(d) !in Keys(FirstArrivals(init)) {
        var fs := FirstArrivals(ds);
        assert fs[..|fs| - 1] == FirstArrivals(init);
      }
    }
  }

  /** The reply the i-th delivery gets when each is handled in turn. */
  function ReplyAt<S, C>(h: RequestHandler<S, C>, state: S, ds: seq<Delivery>, i: nat): bytes
    requires i < |ds| && forall d <- ds :: |d.packet| >= HEADER_SIZE
  {
    h(HandleEach(h, Started(state), ds[..i]).state, ds[i].packet, ds[i].from).reply
  }

  /** With distinct keys, what is remembered under a delivery's key is the reply that delivery got. */
  lemma {:induction false} RememberedIsFirst<S, C>(h: RequestHandler<S, C>, state: S, ds: seq<Delivery>, i: nat)
    requires DistinctKeys(ds) && i < |ds|
    ensures var history := HandleEach(h, Started(state), ds).history;
            KeyOf(ds[i]) in history && history[KeyOf(ds[i])] == ReplyAt(h, state, ds, i)
  {
    hide KeyOf;
    var init := ds[..|ds| - 1];
    if i < |init| {
      assert init[..i] == ds[..i];
      RememberedIsFirst(h, state, init, i);
    }
  }

  /** Once a reply is remembered it is never changed. */
  lemma {:induction false} HistoryIsStable<S, C>(h: RequestHandler<S, C>, sv: Server<S, C>, ds: seq<Delivery>, k: Key)
    requires k in sv.history
    ensures var after := Serve(AtMostOnce, h, sv, ds); k in after.history && after.history[k] == sv.history[k]
  {
    if ds != [] {
      HistoryIsStable(h, sv, ds[..|ds| - 1], k);
    }
  }

  lemma {:induction false} ServeAppend<S, C>(mode: Mode, h: RequestHandler<S, C>, sv: Server<S, C>, a: seq<Delivery>,
      b: seq<Delivery>)
    ensures Serve(mode, h, sv, a + b) == Serve(mode, h, Serve(mode, h, sv, a), b)
  {
    if b == [] {
      assert a + b == a;
    } else {
      ServeAppend(mode, h, sv, a, b[..|b| - 1]);
      assert (a + b)[..|a + b| - 1] == a + b[..|b| - 1];
    }
  }

  /** Every later delivery under the same key is answered with the bytes of the first reply,
      whatever came between, and changes nothing. */
  lemma {:induction false} RepliesRepeat<S, C>(h: RequestHandler<S, C>, sv: Server<S, C>, first: Delivery,
                                               between: seq<Delivery>, again: Delivery)
    requires Accepted(AtMostOnce, first) && Accepted(AtMostOnce, again) && KeyOf(first) == KeyOf(again)
    ensures var ds := [first] + between;
            ReplyToLast(AtMostOnce, h, sv, ds + [again]) == ReplyToLast(AtMostOnce, h, sv, [first])
            && Serve(AtMostOnce, h, sv, ds + [again]) == Serve(AtMostOnce, h, sv, ds)
  {
    var ds := [first] + between;
    var one := Serve(AtMostOnce, h, sv, [first]);
    assert [first][..0] == [];
    assert KeyOf(first) in one.history && Ok(one.history[KeyOf(first)]) == ReplyToLast(AtMostOnce, h, sv, [first]);
    HistoryIsStable(h, one, between, KeyOf(first));
    ServeAppend(AtMostOnce, h, sv, [first], between);
    assert (ds + [again])[..|ds|] == ds;
  }

  // ----- at least once: requests without effect may come and go -----

  function Without(ds: seq<Delivery>, drop: Delivery -> bool): seq<Delivery> {
    if ds == [] then []
    else
      var before := Without(ds[..|ds| - 1], drop);
      if drop(ds[|ds| - 1]) then before else before + [ds[|ds| - 1]]
  }

  /** The replies to the deliveries that are kept. */
  function RepliesTo<S, C>(h: RequestHandler<S, C>, sv: Server<S, C>, ds: seq<Delivery>, drop: Delivery -> bool)
    : seq<Result<bytes, DispatchError>>
  {
    if ds == [] then []
    else
      var before := RepliesTo(h, sv, ds[..|ds| - 1], drop);
      if drop(ds[|ds| - 1]) then before else before + [ReplyToLast(AtLeastOnce, h, sv, ds)]
  }

  /** Removing deliveries that have no effect on any state changes neither the final state, nor the
      monitor calls, nor any other reply. */
  lemma {:induction false} DroppingIsInvisible<S(!new), C>(h: RequestHandler<S, C>, sv: Server<S, C>, ds: seq<Delivery>,
                                                           drop: Delivery -> bool)
    requires forall s: S, d: Delivery | drop(d) && Accepted(AtLeastOnce, d) ::
               h(s, d.packet, d.from).state == s && h(s, d.packet, d.from).calls == []
    ensures Serve(AtLeastOnce, h, sv, ds) == Serve(AtLeastOnce, h, sv, Without(ds, drop))
    ensures RepliesTo(h, sv, ds, drop) == RepliesTo(h, sv, Without(ds, drop), drop)
  {
    if ds != [] {
      var init, d := ds[..|ds| - 1], ds[|ds| - 1];
      DroppingIsInvisible(h, sv, init, drop);
      if !drop(d) {
        var kept := Without(ds, drop);
        assert kept[..|kept| - 1] == Without(init, drop);
      }
    }
  }

  function Copies(d: Delivery, k: nat): seq<Delivery> {
    if k == 0 then [] else Copies(d, k - 1) + [d]
  }

  function HandledTimes<S, C>(h: RequestHandler<S, C>, state: S, d: Delivery, k: nat): S {
    if k == 0 then state else h(HandledTimes(h, state, d, k - 1), d.packet, d.from).state
  }

  /** Each copy runs the handler once more. */
  lemma {:induction false} CopiesRunAgain<S, C>(h: RequestHandler<S, C>, sv: Server<S, C>, d: Delivery, k: nat)
    requires Accepted(AtLeastOnce, d)
    ensures Serve(AtLeastOnce, h, sv, Copies(d, k)).state == HandledTimes(h, sv.state, d, k)
  {
    if k > 0 {
      hide KeyOf, Refused;
      CopiesRunAgain(h, sv, d, k - 1);
      var ds := Copies(d, k);
      assert ds[..|ds| - 1] == Copies(d, k - 1);
    }
  }

  // ----- eviction -----

  datatype Event =
    | Deliver(d: Delivery)
    | EvictBefore(client: Address, threshold: u32)
    | EvictClient(client: Address)

  function Evicted(e: Event, history: map<Key, bytes>): set<Key> {
    set k <- history | (e.EvictBefore? && k.client == e.client && k.requestId < e.threshold)
                       || (e.EvictClient? && k.client == e.client)
  }

  function AfterEvent<S, C>(h: RequestHandler<S, C>, sv: Server<S, C>, e: Event): Server<S, C> {
    if e.Deliver? then Dispatch(AtMostOnce, h, sv, e.d).0
    else sv.(history := sv.history - Evicted(e, sv.history))
  }

  function AfterEvents<S, C>(h: RequestHandler<S, C>, sv: Server<S, C>, es: seq<Event>): Server<S, C> {
    if es == [] then sv else AfterEvent(h, AfterEvents(h, sv, es[..|es| - 1]), es[|es| - 1])
  }

  /** Whether the event makes the handler run. */
  predicate Runs<S, C>(sv: Server<S, C>, e: Event) {
    e.Deliver? && Accepted(AtMostOnce, e.d) && KeyOf(e.d) !in sv.history
  }

  /** The keys the handler ran for, in order. */
  function Executions<S, C>(h: RequestHandler<S, C>, sv: Server<S, C>, es: seq<Event>): seq<Key> {
    if es == [] then []
    else
      var before := Executions(h, sv, es[..|es| - 1]);
      var e := es[|es| - 1];
      if Runs(AfterEvents(h, sv, es[..|es| - 1]), e) then before + [KeyOf(e.d)] else before
  }

  function Evictions<S, C>(h: RequestHandler<S, C>, sv: Server<S, C>, es: seq<Event>): nat {
    if es == [] then 0
    else Evictions(h, sv, es[..|es| - 1]) + |Evicted(es[|es| - 1], AfterEvents(h, sv, es[..|es| - 1]).history)|
  }

  lemma RemoveSize<K, V>(m: map<K, V>, ks: set<K>)
    requires ks <= m.Keys
    ensures |m - ks| == |m| - |ks|
  {
    assert (m - ks).Keys == m.Keys - ks;
    assert |m.Keys - ks| == |m.Keys| - |ks|;
  }

  /** The history holds as many replies as there were executions, less those evicted. */
  lemma {:induction false} HistoryAccounting<S, C>(h: RequestHandler<S, C>, state: S, es: seq<Event>)
    ensures |AfterEvents(h, Started(state), es).history|
         == |Executions(h, Started(state), es)| - Evictions(h, Started(state), es)
  {
    if es != [] {
      HistoryAccounting(h, state, es[..|es| - 1]);
      var sv, e := AfterEvents(h, Started(state), es[..|es| - 1]), es[|es| - 1];
      if e.Deliver? {
        assert Evicted(e, sv.history) == {};
        if Runs(sv, e) {
          var sv' := AfterEvent(h, sv, e);
          assert sv'.history.Keys == sv.history.Keys + {KeyOf(e.d)};
        }
      } else {
        RemoveSize(sv.history, Evicted(e, sv.history));
      }
    }
  }

  /** The highest threshold used so far to evict replies of a client; forgetting the client altogether
      counts as one above every id. */
  function HighestThreshold(es: seq<Event>, client: Address): nat {
    if es == [] then 0
    else
      var before := HighestThreshold(es[..|es| - 1], client);
      var e := es[|es| - 1];
      if e.EvictClient? && e.client == client then 0x1_0000_0000
      else if e.EvictBefore? && e.client == client && e.threshold > before then e.threshold
      else before
  }

  /** A request that has run is still remembered, or lies below a threshold already used. */
  lemma {:induction false} RunOrEvicted<S, C>(h: RequestHandler<S, C>, state: S, es: seq<Event>, k: Key)
    requires k in Executions(h, Started(state), es)
    ensures k in AfterEvents(h, Started(state), es).history || k.requestId < HighestThreshold(es, k.client)
  {
    var init := es[..|es| - 1];
    var before := Executions(h, Started(state), init);
    if k in before {
      RunOrEvicted(h, state, init, k);
    }
  }

  /** At most once survives eviction: a request whose every delivery comes with an id
      at or above the highest threshold used for its client so far runs at most once. */
  lemma {:induction false} EvictionIsSafe<S, C>(h: RequestHandler<S, C>, state: S, es: seq<Event>, k: Key)
    requires forall i: nat | i < |es| && es[i].Deliver? && Accepted(AtMostOnce, es[i].d) && KeyOf(es[i].d) == k ::
               k.requestId >= HighestThreshold(es[..i], k.client)
    ensures multiset(Executions(h, Started(state), es))[k] <= 1
  {
    if es != [] {
      var init, e := es[..|es| - 1], es[|es| - 1];
      assert forall i: nat | i < |init| :: init[..i] == es[..i];
      EvictionIsSafe(h, state, init, k);
      var before := Executions(h, Started(state), init);
      if Runs(AfterEvents(h, Started(state), init), e) && KeyOf(e.d) == k {
        assert es[|es| - 1] == e && es[..|es| - 1] == init;
        if k in before {
          RunOrEvicted(h, state, init, k);
        }
      }
    }
  }

  /** Below the threshold it does not: a remembered request evicted and delivered again runs again. Only its
      own client's evictions matter, and forgetting the client forgets them all. */
  lemma EvictedRunsAgain<S, C>(h: RequestHandler<S, C>, sv: Server<S, C>, d: Delivery, a: Address, threshold: u32)
    requires Accepted(AtMostOnce, d) && KeyOf(d) in sv.history
    ensures Runs(AfterEvent(h, sv, EvictBefore(a, threshold)), Deliver(d)) <==>
            a == d.from && KeyOf(d).requestId < threshold
    ensures Runs(AfterEvent(h, sv, EvictClient(a)), Deliver(d)) <==> a == d.from
  {
  }
}
