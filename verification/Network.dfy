/** The whole protocol as a state machine: any number of clients, a network that loses, duplicates
    and reorders, and the at-most-once server, for any request handler. */
module Network {
  import opened Bytes
  import opened ServerCodec
  import opened Dispatching
  import opened Client

  /** Identifiers of one client are distinct up to here. */
  const ID_SPACE: nat := 0x1_0000_0000

  /** A datagram taken for the reply to the client's request number `request`. */
  datatype Taken = Taken(request: nat, reply: bytes)

  /** One client process. The packet of its n-th request, counting from one, is packets[n - 1];
      while it waits, the last of them is being sent. */
  datatype Endpoint = Endpoint(packets: seq<bytes>, waiting: bool, transmitted: nat, taken: seq<Taken>)

  const IDLE: Endpoint := Endpoint([], false, 0, [])

  datatype Datagram = Datagram(to: Address, data: bytes)

  /** What is on its way stays until a step loses it, and may meanwhile arrive any number of times,
      in any order. `served` remembers, for specification only, what the server has taken. */
  datatype Net<S, C> = Net(
    clients: map<Address, Endpoint>,
    requests: set<Delivery>,
    replies: set<Datagram>,
    server: Server<S, C>,
    served: seq<Delivery>)

  datatype Step =
    | Issue(a: Address, local: Address, content: bytes)
    | Transmit(a: Address)
    | GiveUp(a: Address)
    | LoseRequest(d: Delivery)
    | Take(d: Delivery, replyLost: bool)
    | Push(callback: Datagram)
    | LoseReply(g: Datagram)
    | Receive(g: Datagram)

  predicate Enabled<S, C>(s: Net<S, C>, step: Step) {
    match step
    case Issue(a, _, _) => a in s.clients && !s.clients[a].waiting && |s.clients[a].packets| < ID_SPACE
    case Transmit(a) =>
      a in s.clients && s.clients[a].waiting && s.clients[a].packets != [] && s.clients[a].transmitted < MAX_TRIES
    case GiveUp(a) => a in s.clients && s.clients[a].waiting
    case LoseRequest(_) => true
    case Take(d, _) => d in s.requests
    case Push(g) => IsCallback(g.data)
    case LoseReply(_) => true
    case Receive(g) => g in s.replies && g.to in s.clients && s.clients[g.to].waiting && s.clients[g.to].transmitted > 0
  }

  function Issued(c: Endpoint, local: Address, content: bytes): Endpoint {
    var id := RequestId(|c.packets| + 1);
    c.(packets := c.packets + [Request(AT_MOST_ONCE, id, local.ip, local.port, content)], waiting := true,
       transmitted := 0)
  }

  function Next<S, C>(h: RequestHandler<S, C>, s: Net<S, C>, step: Step): Net<S, C>
    requires Enabled(s, step)
  {
    match step
    case Issue(a, local, content) => s.(clients := s.clients[a := Issued(s.clients[a], local, content)])
    case Transmit(a) =>
      var c := s.clients[a];
      s.(clients := s.clients[a := c.(transmitted := c.transmitted + 1)],
         requests := s.requests + {Delivery(a, Cut(c.packets[|c.packets| - 1]))})
    case GiveUp(a) => s.(clients := s.clients[a := s.clients[a].(waiting := false)])
    case LoseRequest(d) => s.(requests := s.requests - {d})
    case Take(d, replyLost) =>
      var (server', r) := Dispatch(AtMostOnce, h, s.server, d);
      s.(server := server', served := s.served + [d],
         replies := if r.Ok? && !replyLost then s.replies + {Datagram(d.from, r.value)} else s.replies)
    case Push(g) => s.(replies := s.replies + {g})
    case LoseReply(g) => s.(replies := s.replies - {g})
    case Receive(g) =>
      if IsCallback(g.data) then s
      else
        var c := s.clients[g.to];
        s.(clients := s.clients[g.to := c.(waiting := false, taken := c.taken + [Taken(|c.packets|, g.data)])])
  }

  function Start<S, C>(state: S, addresses: set<Address>): Net<S, C> {
    Net(map a <- addresses :: IDLE, {}, {}, Started(state), [])
  }

  ghost predicate CanRun<S, C>(h: RequestHandler<S, C>, s: Net<S, C>, steps: seq<Step>)
    decreases |steps|, 0
  {
    steps == [] || (CanRun(h, s, steps[..|steps| - 1]) && Enabled(Exec(h, s, steps[..|steps| - 1]), steps[|steps| - 1]))
  }

  ghost function Exec<S, C>(h: RequestHandler<S, C>, s: Net<S, C>, steps: seq<Step>): Net<S, C>
    requires CanRun(h, s, steps)
    decreases |steps|, 1
  {
    if steps == [] then s else Next(h, Exec(h, s, steps[..|steps| - 1]), steps[|steps| - 1])
  }

  /** All that is asked of the handler: a reply is marked as one and echoes the request's id. */
  ghost predicate Echoes<S(!new), C>(h: RequestHandler<S, C>) {
    forall state: S, data: bytes, a: Address | |data| >= HEADER_SIZE ::
      MarkedReply(h(state, data, a).reply, ParseHeader(data).value.requestId)
  }

  predicate MarkedReply(reply: bytes, id: u32) {
    |reply| >= HEADER_SIZE && reply[0] == MSG_REPLY && LoadBe32(reply[2..6]) == id
  }

  // ----- the invariant -----

  /** The number of the request that carries this identifier. */
  function Number(id: u32): nat {
    if id == 0 then ID_SPACE else id
  }

  /** The packet is what the server receives of the client's request with the packet's own id. */
  predicate Ours(clients: map<Address, Endpoint>, d: Delivery) {
    d.from in clients && |d.packet| >= HEADER_SIZE
    && var n := Number(KeyOf(d).requestId);
       n <= |clients[d.from].packets| && d.packet == Cut(clients[d.from].packets[n - 1])
  }

  /** A remembered reply, as its own id says. */
  predicate Remembered(history: map<Key, bytes>, to: Address, data: bytes) {
    |data| >= HEADER_SIZE && data[0] == MSG_REPLY
    && var k := Key(to, LoadBe32(data[2..6])); k in history && history[k] == data
  }

  /** What the server receives of the packet is accepted, under the key of request number n. */
  predicate PacketOk(a: Address, n: nat, packet: bytes) {
    var d := Delivery(a, Cut(packet));
    |d.packet| >= HEADER_SIZE && Accepted(AtMostOnce, d) && KeyOf(d) == Key(a, RequestId(n))
  }

  ghost predicate PacketsOk(clients: map<Address, Endpoint>) {
    forall a <- clients :: |clients[a].packets| <= ID_SPACE
      && forall i: nat | i < |clients[a].packets| :: PacketOk(a, i + 1, clients[a].packets[i])
  }

  ghost predicate HistoryOk(clients: map<Address, Endpoint>, history: map<Key, bytes>) {
    forall k <- history :: MarkedReply(history[k], k.requestId)
      && k.client in clients && Number(k.requestId) <= |clients[k.client].packets|
  }

  ghost predicate TakenOk(clients: map<Address, Endpoint>, history: map<Key, bytes>) {
    forall a <- clients, t <- clients[a].taken ::
      Remembered(history, a, t.reply) && 1 <= t.request <= |clients[a].packets|
      && Number(LoadBe32(t.reply[2..6])) <= t.request
  }

  ghost predicate Inv<S, C>(s: Net<S, C>) {
    PacketsOk(s.clients) && HistoryOk(s.clients, s.server.history) && TakenOk(s.clients, s.server.history)
    && (forall d <- s.requests :: Ours(s.clients, d))
    && (forall d <- s.served :: Ours(s.clients, d))
    && (forall g <- s.replies :: IsCallback(g.data) || Remembered(s.server.history, g.to, g.data))
  }

  ghost predicate ServerOk<S, C>(h: RequestHandler<S, C>, state: S, s: Net<S, C>) {
    s.server == Serve(AtMostOnce, h, Started(state), s.served)
  }
}
