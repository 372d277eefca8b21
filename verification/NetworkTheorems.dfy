/** At most once, end to end: what holds in every run of the network, for any handler that echoes
    the request id, and for the bank's in particular. */
module NetworkTheorems {
  import opened Bytes
  import opened ServerCodec
  import opened Dispatching
  import opened Client
  import opened Network
  import opened NetworkProofs

  lemma {:induction false} RunKeepsInv<S(!new), C>(h: RequestHandler<S, C>, state: S, addresses: set<Address>,
      steps: seq<Step>)
    requires Echoes(h) && CanRun(h, Start(state, addresses), steps)
    ensures var s := Exec(h, Start(state, addresses), steps); Inv(s) && ServerOk(h, state, s)
  {
    if steps != [] {
      hide Inv, Echoes, Start, Enabled;
      var init, step := steps[..|steps| - 1], steps[|steps| - 1];
      RunKeepsInv(h, state, addresses, init);
      var s := Exec(h, Start(state, addresses), init);
      StepKeepsInv(h, s, step);
      StepKeepsServer(h, state, s, step);
    }
  }

  lemma StepKeepsServer<S(!new), C>(h: RequestHandler<S, C>, state: S, s: Net<S, C>, step: Step)
    requires Enabled(s, step) && ServerOk(h, state, s)
    ensures ServerOk(h, state, Next(h, s, step))
  {
    hide Dispatch, Enabled, Issued, Cut, IsCallback;
    if step.Take? {
      var ds := s.served + [step.d];
      assert ds[..|ds| - 1] == s.served;
    }
  }

  /** The requests that ran, in the order they ran. */
  function Ran<S, C>(s: Net<S, C>): (ds: seq<Delivery>)
    ensures forall d <- ds :: |d.packet| >= HEADER_SIZE
  {
    FirstArrivalsAccepted(s.served);
    FirstArrivals(s.served)
  }

  /** In every run, with loss, duplication, reordering and retries: each request runs at most once;
      only requests that clients issued run, with the bytes they were issued with; and the server
      is in the state, has made the monitor calls and remembers the replies of one that handles
      exactly those requests, one after the other. */
  lemma {:induction false} AtMostOnceEndToEnd<S(!new), C>(h: RequestHandler<S, C>, state: S, addresses: set<Address>,
      steps: seq<Step>)
    requires Echoes(h) && CanRun(h, Start(state, addresses), steps)
    ensures var s := Exec(h, Start(state, addresses), steps);
            DistinctKeys(Ran(s)) && (forall d <- Ran(s) :: Ours(s.clients, d))
            && s.server == HandleEach(h, Started(state), Ran(s))
  {
    hide KeyOf, Start, Enabled, Next, Ours;
    var s := Exec(h, Start(state, addresses), steps);
    RunKeepsInv(h, state, addresses, steps);
    FirstArrivalsAccepted(s.served);
    FirstArrivalsOnce(s.served);
    FilterRefinesOnce(h, state, s.served);
  }

  /** The datagram is the reply that some request of this client got when it ran. */
  ghost predicate IsFirstReply<S, C>(h: RequestHandler<S, C>, state: S, ds: seq<Delivery>, to: Address, data: bytes)
    requires forall d <- ds :: |d.packet| >= HEADER_SIZE
  {
    exists i: nat :: i < |ds| && KeyOf(ds[i]) == Key(to, IdIn(data)) && data == ReplyAt(h, state, ds, i)
  }

  /** The request id a reply carries. */
  function IdIn(data: bytes): u32 {
    if |data| < HEADER_SIZE then 0 else LoadBe32(data[2..6])
  }

  lemma RememberedWasFirst<S(!new), C>(h: RequestHandler<S, C>, state: S, s: Net<S, C>, to: Address, data: bytes)
    requires DistinctKeys(Ran(s)) && s.server == HandleEach(h, Started(state), Ran(s))
    requires Remembered(s.server.history, to, data)
    ensures IsFirstReply(h, state, Ran(s), to, data)
  {
    hide KeyOf, LoadBe32, ReplyAt;
    var ds, k := Ran(s), Key(to, LoadBe32(data[2..6]));
    HistoryOfEach(h, state, ds);
    assert k in Keys(ds);
    var d :| d in ds && KeyOf(d) == k;
    var i: nat :| i < |ds| && ds[i] == d;
    RememberedIsFirst(h, state, ds, i);
  }

  /** In every run, whatever a client took for a reply is, byte for byte, the reply that some request
      it had issued got on its one execution, and never a callback; so is every reply still on its
      way. */
  lemma {:induction false} OnlyGenuineReplies<S(!new), C>(h: RequestHandler<S, C>, state: S, addresses: set<Address>,
      steps: seq<Step>)
    requires Echoes(h) && CanRun(h, Start(state, addresses), steps)
    ensures var s := Exec(h, Start(state, addresses), steps);
            (forall g <- s.replies :: IsCallback(g.data) || IsFirstReply(h, state, Ran(s), g.to, g.data))
            && (forall a <- s.clients, t <- s.clients[a].taken ::
                  !IsCallback(t.reply) && IsFirstReply(h, state, Ran(s), a, t.reply)
                  && Number(IdIn(t.reply)) <= t.request)
  {
    hide Start, Enabled, Next, Ours, Ran, IsFirstReply, HandleEach, Serve, LoadBe32, PacketsOk, HistoryOk, DistinctKeys;
    var s := Exec(h, Start(state, addresses), steps);
    RunKeepsInv(h, state, addresses, steps);
    AtMostOnceEndToEnd(h, state, addresses, steps);
    forall g | g in s.replies && !IsCallback(g.data) ensures IsFirstReply(h, state, Ran(s), g.to, g.data) {
      RememberedWasFirst(h, state, s, g.to, g.data);
    }
    forall a, t | a in s.clients && t in s.clients[a].taken ensures IsFirstReply(h, state, Ran(s), a, t.reply) {
      RememberedWasFirst(h, state, s, a, t.reply);
    }
  }

  lemma SameKeySameRequest(clients: map<Address, Endpoint>, d: Delivery, e: Delivery)
    requires Ours(clients, d) && Ours(clients, e) && KeyOf(d) == KeyOf(e)
    ensures d == e
  {
    hide LoadBe32, LoadBe16, Cut;
  }

  /** What a lookup finds was stored for the very request that is being looked up: a request on its
      way and one that ran under the same key are the same bytes from the same client. */
  lemma {:induction false} NeverCrossed<S(!new), C>(h: RequestHandler<S, C>, state: S, addresses: set<Address>,
      steps: seq<Step>)
    requires Echoes(h) && CanRun(h, Start(state, addresses), steps)
    ensures var s := Exec(h, Start(state, addresses), steps);
            forall d <- s.requests, r <- Ran(s) :: |d.packet| >= HEADER_SIZE && (KeyOf(d) == KeyOf(r) ==> d == r)
  {
    hide KeyOf, Start, Enabled, Next, Ran, Ours, Remembered, PacketsOk, HistoryOk, TakenOk, HandleEach, DistinctKeys;
    hide CanRun, Exec;
    RunKeepsInv(h, state, addresses, steps);
    AtMostOnceEndToEnd(h, state, addresses, steps);
    var s := Exec(h, Start(state, addresses), steps);
    forall d, r | d in s.requests && r in Ran(s)
      ensures |d.packet| >= HEADER_SIZE && (KeyOf(d) == KeyOf(r) ==> d == r)
    {
      OursAccepted(s, d);
      if KeyOf(d) == KeyOf(r) {
        SameKeySameRequest(s.clients, d, r);
      }
    }
  }

  /** A request just issued is not in the history, so its first delivery runs. */
  lemma FreshRequestsMiss<S(!new), C>(h: RequestHandler<S, C>, s: Net<S, C>, a: Address, local: Address, content: bytes)
    requires Inv(s) && Enabled(s, Issue(a, local, content))
    ensures Key(a, RequestId(|s.clients[a].packets| + 1)) !in s.server.history
  {
    hide PacketsOk, TakenOk, Ours, Remembered, MarkedReply;
  }

  lemma IdsRepeat(n: nat, later: nat)
    requires n <= later
    ensures RequestId(n) == RequestId(later) <==> (later - n) % ID_SPACE == 0
  {
  }

  /** Why a client's lifetime is bounded: a later request meets the entry of an earlier one exactly
      when a multiple of 2^32 requests lie between them, and then it is not run. */
  lemma WrappedIdIsNotRun<S, C>(h: RequestHandler<S, C>, sv: Server<S, C>, a: Address, n: nat, later: nat,
      local: Address, content: bytes)
    requires n <= later && Key(a, RequestId(n)) in sv.history
    ensures var d := Delivery(a, Cut(Request(AT_MOST_ONCE, RequestId(later), local.ip, local.port, content)));
            |d.packet| >= HEADER_SIZE
            && (KeyOf(d) == Key(a, RequestId(n)) <==> (later - n) % ID_SPACE == 0)
            && ((later - n) % ID_SPACE == 0 ==>
                  Dispatch(AtMostOnce, h, sv, d) == (sv, Ok(sv.history[Key(a, RequestId(n))])))
  {
    hide Request, Cut, KeyOf, Refused, RequestId;
    IdsRepeat(n, later);
    RequestHeader(a, later, RequestId(later), local, content);
  }
}
