/** Every step of the network keeps its invariant. */
module NetworkProofs {
  import opened Bytes
  import opened ServerCodec
  import opened Dispatching
  import opened Client
  import opened Network
  import M = ClientMessages
  import W = WireTheorems

  lemma RequestHeader(a: Address, n: nat, id: u32, local: Address, content: bytes)
    ensures id == RequestId(n) ==> PacketOk(a, n, Request(AT_MOST_ONCE, id, local.ip, local.port, content))
  {
    hide LoadBe32, LoadBe16;
    var m := M.Message(MSG_REQUEST, AT_MOST_ONCE, id, local.ip, local.port, 0, content);
    var p := M.Serialized(m);
    var rest := if |p| > MAX_PACKET_SIZE then content[..MAX_PACKET_SIZE - HEADER_SIZE] else content;
    W.HeaderLayout(m, rest);
    assert Cut(p) == M.HeaderBytes(m) + rest;
  }

  /** Clients come and go on, but what they issued stays. */
  ghost predicate Grows(clients: map<Address, Endpoint>, clients': map<Address, Endpoint>) {
    forall a <- clients :: a in clients' && clients[a].packets <= clients'[a].packets
  }

  ghost predicate Keeps(history: map<Key, bytes>, history': map<Key, bytes>) {
    forall k <- history :: k in history' && history'[k] == history[k]
  }

  lemma OursStays(clients: map<Address, Endpoint>, clients': map<Address, Endpoint>, d: Delivery)
    requires Ours(clients, d) && Grows(clients, clients')
    ensures Ours(clients', d)
  {
    hide KeyOf;
  }

  lemma RememberedStays(history: map<Key, bytes>, history': map<Key, bytes>, to: Address, data: bytes)
    requires Remembered(history, to, data) && Keeps(history, history')
    ensures Remembered(history', to, data)
  {
    hide LoadBe32;
  }

  /** The invariant but for the clients' packets and what they took, under growth of both. */
  lemma FlightStays<S, C>(s: Net<S, C>, s': Net<S, C>)
    requires Inv(s) && Grows(s.clients, s'.clients) && Keeps(s.server.history, s'.server.history)
    ensures forall d <- s.requests :: Ours(s'.clients, d)
    ensures forall d <- s.served :: Ours(s'.clients, d)
    ensures forall g <- s.replies :: IsCallback(g.data) || Remembered(s'.server.history, g.to, g.data)
  {
    hide Ours, Remembered, PacketsOk, HistoryOk, TakenOk, Grows, Keeps;
    forall d | d in s.requests || d in s.served ensures Ours(s'.clients, d) {
      OursStays(s.clients, s'.clients, d);
    }
    forall g | g in s.replies && !IsCallback(g.data) ensures Remembered(s'.server.history, g.to, g.data) {
      RememberedStays(s.server.history, s'.server.history, g.to, g.data);
    }
  }

  lemma HistoryStays(clients: map<Address, Endpoint>, clients': map<Address, Endpoint>, history: map<Key, bytes>)
    requires HistoryOk(clients, history) && Grows(clients, clients')
    ensures HistoryOk(clients', history)
  {
    hide MarkedReply;
  }

  lemma IssueKeepsInv<S, C>(h: RequestHandler<S, C>, s: Net<S, C>, a: Address, local: Address, content: bytes)
    requires Inv(s) && Enabled(s, Issue(a, local, content))
    ensures Inv(Next(h, s, Issue(a, local, content)))
  {
    hide PacketOk, Remembered, Ours, MarkedReply, Request, LoadBe32;
    var s' := Next(h, s, Issue(a, local, content));
    FlightStays(s, s');
    HistoryStays(s.clients, s'.clients, s.server.history);
    RequestHeader(a, |s.clients[a].packets| + 1, RequestId(|s.clients[a].packets| + 1), local, content);
  }

  lemma TransmitKeepsInv<S, C>(h: RequestHandler<S, C>, s: Net<S, C>, a: Address)
    requires Inv(s) && Enabled(s, Transmit(a))
    ensures Inv(Next(h, s, Transmit(a)))
  {
    hide Refused, Remembered, MarkedReply, Cut, LoadBe32, KeyOf;
    var s' := Next(h, s, Transmit(a));
    FlightStays(s, s');
    HistoryStays(s.clients, s'.clients, s.server.history);
    var i := |s.clients[a].packets| - 1;
    assert PacketOk(a, i + 1, s.clients[a].packets[i]);
  }

  lemma ClientKeepsInv<S, C>(h: RequestHandler<S, C>, s: Net<S, C>, step: Step)
    requires Inv(s) && Enabled(s, step) && (step.GiveUp? || step.Receive?)
    ensures Inv(Next(h, s, step))
  {
    hide PacketOk, MarkedReply, Ours, LoadBe32;
    var s' := Next(h, s, step);
    FlightStays(s, s');
    HistoryStays(s.clients, s'.clients, s.server.history);
  }

  lemma DispatchRemembers<S(!new), C>(h: RequestHandler<S, C>, sv: Server<S, C>, d: Delivery)
    requires Echoes(h) && Accepted(AtMostOnce, d)
    ensures var (sv', r) := Dispatch(AtMostOnce, h, sv, d);
            Keeps(sv.history, sv'.history) && r == Ok(sv'.history[KeyOf(d)])
            && sv'.history.Keys == sv.history.Keys + {KeyOf(d)}
            && (KeyOf(d) in sv.history || MarkedReply(r.value, KeyOf(d).requestId))
  {
    hide MarkedReply;
  }

  lemma TakeKeepsInv<S(!new), C>(h: RequestHandler<S, C>, s: Net<S, C>, d: Delivery, replyLost: bool)
    requires Inv(s) && Echoes(h) && d in s.requests
    ensures Inv(Next(h, s, Take(d, replyLost)))
  {
    var s' := Next(h, s, Take(d, replyLost));
    OursAccepted(s, d);
    DispatchRemembers(h, s.server, d);
    hide Dispatch, Refused, KeyOf, Cut, Echoes, LoadBe32;
    FlightStays(s, s');
    TakenStays(s, s');
  }

  lemma OursAccepted<S, C>(s: Net<S, C>, d: Delivery)
    requires Inv(s) && d in s.requests
    ensures |d.packet| >= HEADER_SIZE && Accepted(AtMostOnce, d) && d.from in s.clients
    ensures Number(KeyOf(d).requestId) <= |s.clients[d.from].packets|
  {
    hide KeyOf, Refused, Remembered, HistoryOk, TakenOk, Cut;
    assert Ours(s.clients, d);
    var n := Number(KeyOf(d).requestId);
    assert 1 <= n;
    assert PacketOk(d.from, n, s.clients[d.from].packets[n - 1]);
    assert d == Delivery(d.from, Cut(s.clients[d.from].packets[n - 1]));
  }

  lemma TakenStays<S, C>(s: Net<S, C>, s': Net<S, C>)
    requires TakenOk(s.clients, s.server.history) && s'.clients == s.clients
    requires Keeps(s.server.history, s'.server.history)
    ensures TakenOk(s'.clients, s'.server.history)
  {
    hide LoadBe32, Remembered, Keeps;
    forall a, t | a in s.clients && t in s.clients[a].taken ensures Remembered(s'.server.history, a, t.reply) {
      RememberedStays(s.server.history, s'.server.history, a, t.reply);
    }
  }

  lemma StepKeepsInv<S(!new), C>(h: RequestHandler<S, C>, s: Net<S, C>, step: Step)
    requires Inv(s) && Echoes(h) && Enabled(s, step)
    ensures Inv(Next(h, s, step))
  {
    match step
    case Issue(a, local, content) => IssueKeepsInv(h, s, a, local, content);
    case Transmit(a) => TransmitKeepsInv(h, s, a);
    case Take(d, replyLost) => TakeKeepsInv(h, s, d, replyLost);
    case GiveUp(_) => ClientKeepsInv(h, s, step);
    case Receive(_) => ClientKeepsInv(h, s, step);
    case _ => hide PacketsOk, HistoryOk, TakenOk, Ours, Remembered;
  }
}
