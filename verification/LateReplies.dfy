/** The client never compares a reply's id with its own. When that matters: exactly when something of
    an earlier request is still on its way as the next one is issued. */
module LateReplies {
  import opened Bytes
  import opened ServerCodec
  import opened Dispatching
  import opened Client
  import opened Network
  import opened NetworkProofs
  import opened NetworkTheorems

  /** The reply is the one the client's current request got when it ran. */
  ghost predicate OwnReply<S, C>(h: RequestHandler<S, C>, state: S, s: Net<S, C>, a: Address, t: Taken)
    requires a in s.clients && 1 <= t.request <= |s.clients[a].packets|
  {
    exists i: nat :: i < |Ran(s)| && Ran(s)[i] == Delivery(a, Cut(s.clients[a].packets[t.request - 1]))
                     && t.reply == ReplyAt(h, state, Ran(s), i)
  }

  lemma OwnPacketIsOurs(clients: map<Address, Endpoint>, a: Address, n: nat)
    requires PacketsOk(clients) && a in clients && 1 <= n <= |clients[a].packets|
    ensures var own := Delivery(a, Cut(clients[a].packets[n - 1]));
            Ours(clients, own) && KeyOf(own) == Key(a, RequestId(n))
  {
    hide KeyOf, Cut;
    assert PacketOk(a, n, clients[a].packets[n - 1]);
  }

  /** In every run, a reply taken is the current request's exactly when its header carries the
      current request's id: the comparison the client does not make would be enough. */
  lemma {:induction false} IdsTellOwnReplies<S(!new), C>(h: RequestHandler<S, C>, state: S, addresses: set<Address>,
    steps: seq<Step>, a: Address, t: Taken)
    requires Echoes(h) && CanRun(h, Start(state, addresses), steps)
    requires var s := Exec(h, Start(state, addresses), steps); a in s.clients && t in s.clients[a].taken
    ensures var s := Exec(h, Start(state, addresses), steps);
            1 <= t.request <= |s.clients[a].packets|
            && (IdIn(t.reply) == RequestId(t.request) <==> OwnReply(h, state, s, a, t))
  {
    hide KeyOf, Start, Enabled, Next, Remembered, HistoryOk, HandleEach, DistinctKeys, CanRun, Exec, LoadBe32, ReplyAt;
    hide Ran, Cut, ServerOk, IsCallback, Ours, PacketsOk;
    var s := Exec(h, Start(state, addresses), steps);
    RunKeepsInv(h, state, addresses, steps);
    AtMostOnceEndToEnd(h, state, addresses, steps);
    OnlyGenuineReplies(h, state, addresses, steps);
    OwnPacketIsOurs(s.clients, a, t.request);
    if IdIn(t.reply) == RequestId(t.request) {
      var i: nat :| i < |Ran(s)| && KeyOf(Ran(s)[i]) == Key(a, IdIn(t.reply))
                    && t.reply == ReplyAt(h, state, Ran(s), i);
      var own := Delivery(a, Cut(s.clients[a].packets[t.request - 1]));
      SameKeySameRequest(s.clients, Ran(s)[i], own);
    }
    if OwnReply(h, state, s, a, t) {
      var i: nat :| i < |Ran(s)| && Ran(s)[i] == Delivery(a, Cut(s.clients[a].packets[t.request - 1]))
                    && t.reply == ReplyAt(h, state, Ran(s), i);
      ReplyAtEchoes(h, state, Ran(s), i);
    }
  }

  lemma ReplyAtEchoes<S(!new), C>(h: RequestHandler<S, C>, state: S, ds: seq<Delivery>, i: nat)
    requires Echoes(h) && i < |ds| && forall d <- ds :: |d.packet| >= HEADER_SIZE
    ensures IdIn(ReplyAt(h, state, ds, i)) == KeyOf(ds[i]).requestId
  {
    hide LoadBe32, LoadBe16;
  }

  // ----- when nothing is left behind -----

  /** Nothing of the client's earlier requests is still on its way. */
  ghost predicate Quiet<S, C>(s: Net<S, C>, a: Address) {
    (forall d <- s.requests :: d.from != a) && (forall g <- s.replies :: g.to != a || IsCallback(g.data))
  }

  /** Client a issues only when it is quiet; other clients do as they like. */
  ghost predicate IssuesQuietly<S, C>(h: RequestHandler<S, C>, s: Net<S, C>, steps: seq<Step>, a: Address)
    requires CanRun(h, s, steps)
    decreases |steps|
  {
    steps == []
    || (IssuesQuietly(h, s, steps[..|steps| - 1], a)
        && (Issues(steps[|steps| - 1], a) ==> Quiet(Exec(h, s, steps[..|steps| - 1]), a)))
  }

  predicate Issues(step: Step, a: Address) {
    step.Issue? && step.a == a
  }

  function NumberOf(d: Delivery): nat {
    if |d.packet| < HEADER_SIZE then 0 else Number(KeyOf(d).requestId)
  }

  /** All that is on its way to or from the client belongs to its newest request, and so does what
      was taken for it. */
  ghost predicate CurrentAt<S, C>(s: Net<S, C>, a: Address) {
    a in s.clients
    && (forall d <- s.requests :: d.from == a ==> NumberOf(d) == |s.clients[a].packets|)
    && (forall g <- s.replies :: g.to == a && !IsCallback(g.data) ==> Number(IdIn(g.data)) == |s.clients[a].packets|)
    && (forall t <- s.clients[a].taken :: t.request == |s.clients[a].packets| ==> IdIn(t.reply) == RequestId(t.request))
  }

  /** The reply sent for a request carries that request's id. */
  lemma ReplyCarriesId<S(!new), C>(h: RequestHandler<S, C>, s: Net<S, C>, d: Delivery) returns (reply: bytes)
    requires Inv(s) && Echoes(h) && d in s.requests
    ensures |d.packet| >= HEADER_SIZE && Accepted(AtMostOnce, d)
    ensures Dispatch(AtMostOnce, h, s.server, d).1 == Ok(reply) && !IsCallback(reply)
    ensures IdIn(reply) == KeyOf(d).requestId
  {
    OursAccepted(s, d);
    DispatchRemembers(h, s.server, d);
    hide Echoes, LoadBe32, Ours, TakenOk, Dispatch, Refused, KeyOf, PacketsOk, Cut;
    reply := Dispatch(AtMostOnce, h, s.server, d).1.value;
  }

  lemma TakeKeepsCurrent<S(!new), C>(h: RequestHandler<S, C>, s: Net<S, C>, d: Delivery, replyLost: bool, a: Address)
    requires Inv(s) && Echoes(h) && d in s.requests && CurrentAt(s, a)
    ensures CurrentAt(Next(h, s, Take(d, replyLost)), a)
  {
    var reply := ReplyCarriesId(h, s, d);
    hide Echoes, Inv, IdIn, KeyOf, Dispatch, Refused, IsCallback;
    var s' := Next(h, s, Take(d, replyLost));
    assert s'.replies <= s.replies + {Datagram(d.from, reply)};
  }

  lemma TransmitKeepsCurrent<S, C>(h: RequestHandler<S, C>, s: Net<S, C>, step: Step, a: Address)
    requires Inv(s) && Enabled(s, step) && step.Transmit? && CurrentAt(s, a)
    ensures CurrentAt(Next(h, s, step), a)
  {
    hide HistoryOk, TakenOk, Ours, Refused, Cut, IdIn, KeyOf;
    var i := |s.clients[step.a].packets| - 1;
    assert PacketOk(step.a, i + 1, s.clients[step.a].packets[i]);
  }

  lemma IssueKeepsCurrent<S, C>(s: Net<S, C>, step: Step, a: Address)
    requires Inv(s) && a in s.clients && Quiet(s, a) && Issues(step, a)
    ensures forall t <- s.clients[a].taken :: t.request <= |s.clients[a].packets|
  {
    hide Ours, PacketsOk, HistoryOk, IsCallback, Remembered;
  }

  lemma StepKeepsCurrent<S(!new), C>(h: RequestHandler<S, C>, s: Net<S, C>, step: Step, a: Address)
    requires Inv(s) && Echoes(h) && Enabled(s, step) && a in s.clients
    requires if Issues(step, a) then Quiet(s, a) else CurrentAt(s, a)
    ensures CurrentAt(Next(h, s, step), a)
  {
    hide Echoes, Request, LoadBe32, Inv, Dispatch, NumberOf, Cut, IsCallback, IdIn;
    if step.Transmit? {
      TransmitKeepsCurrent(h, s, step, a);
    } else if step.Take? {
      TakeKeepsCurrent(h, s, step.d, step.replyLost, a);
    } else if Issues(step, a) {
      IssueKeepsCurrent(s, step, a);
    }
  }

  /** Only the client's own receiving adds to what it took, and adds it for its newest request. */
  lemma OnlyNewestTaken<S, C>(h: RequestHandler<S, C>, s: Net<S, C>, step: Step, a: Address)
    requires Enabled(s, step) && a in s.clients
    ensures var c, c' := s.clients[a], Next(h, s, step).clients[a];
            forall t <- c'.taken :: t in c.taken || t.request == |c'.packets|
  {
    hide Dispatch, IsCallback, Request, Cut;
  }

  /** ... and so does everything the client ever took. */
  ghost predicate AllCurrent<S, C>(s: Net<S, C>, a: Address) {
    CurrentAt(s, a) && forall t <- s.clients[a].taken :: IdIn(t.reply) == RequestId(t.request)
  }

  lemma {:induction false} RunKeepsCurrent<S(!new), C>(h: RequestHandler<S, C>, state: S, addresses: set<Address>,
    steps: seq<Step>, a: Address)
    requires Echoes(h) && a in addresses
    requires CanRun(h, Start(state, addresses), steps) && IssuesQuietly(h, Start(state, addresses), steps, a)
    ensures AllCurrent(Exec(h, Start(state, addresses), steps), a)
    decreases |steps|
  {
    if steps != [] {
      var init, step := steps[..|steps| - 1], steps[|steps| - 1];
      RunKeepsCurrent(h, state, addresses, init, a);
      RunKeepsInv(h, state, addresses, init);
      hide Inv, Echoes, Start, Enabled, Quiet, ServerOk, CanRun, IssuesQuietly, IdIn;
      var s := Exec(h, Start(state, addresses), init);
      SameClients(h, s, step);
      StepKeepsCurrent(h, s, step, a);
      OnlyNewestTaken(h, s, step, a);
    }
  }

  lemma SameClients<S, C>(h: RequestHandler<S, C>, s: Net<S, C>, step: Step)
    requires Enabled(s, step)
    ensures Next(h, s, step).clients.Keys == s.clients.Keys
  {
    hide Dispatch, IsCallback, Issued, Cut;
  }

  lemma {:induction false} RunKeepsClients<S, C>(h: RequestHandler<S, C>, s: Net<S, C>, steps: seq<Step>)
    requires CanRun(h, s, steps)
    ensures Exec(h, s, steps).clients.Keys == s.clients.Keys
    decreases |steps|
  {
    if steps != [] {
      hide Next, Enabled;
      RunKeepsClients(h, s, steps[..|steps| - 1]);
      SameClients(h, Exec(h, s, steps[..|steps| - 1]), steps[|steps| - 1]);
    }
  }

  /** If nothing of its own is left behind whenever a client issues a request, whatever becomes of other
      clients' packets, every reply it took is the current request's. */
  lemma {:induction false} PromptRepliesMatch<S(!new), C>(h: RequestHandler<S, C>, state: S, addresses: set<Address>,
    steps: seq<Step>, a: Address, t: Taken)
    requires Echoes(h) && CanRun(h, Start(state, addresses), steps)
    requires IssuesQuietly(h, Start(state, addresses), steps, a)
    requires var s := Exec(h, Start(state, addresses), steps); a in s.clients && t in s.clients[a].taken
    ensures var s := Exec(h, Start(state, addresses), steps);
            1 <= t.request <= |s.clients[a].packets| && OwnReply(h, state, s, a, t)
  {
    RunKeepsClients(h, Start(state, addresses), steps);
    hide Echoes, Exec, CanRun, IssuesQuietly, OwnReply, RequestId, CurrentAt;
    RunKeepsCurrent(h, state, addresses, steps, a);
    IdsTellOwnReplies(h, state, addresses, steps, a, t);
  }

  // ----- when something is -----

  lemma ExecSnoc<S, C>(h: RequestHandler<S, C>, s: Net<S, C>, steps: seq<Step>, step: Step)
    requires CanRun(h, s, steps) && Enabled(Exec(h, s, steps), step)
    ensures CanRun(h, s, steps + [step]) && Exec(h, s, steps + [step]) == Next(h, Exec(h, s, steps), step)
  {
    hide Next, Enabled;
    var all := steps + [step];
    assert all[..|all| - 1] == steps;
  }

  /** The client's newest reply answers an earlier request than the one it was taken for. */
  ghost predicate Mistaken<S, C>(s: Net<S, C>, a: Address, request: nat) {
    a in s.clients && s.clients[a].taken != []
    && var t := s.clients[a].taken[|s.clients[a].taken| - 1];
       t.request == request && IdIn(t.reply) != RequestId(request)
  }

  lemma TakenLast<S, C>(h: RequestHandler<S, C>, s: Net<S, C>, g: Datagram, request: nat)
    requires Enabled(s, Receive(g)) && !IsCallback(g.data)
    requires |s.clients[g.to].packets| == request && IdIn(g.data) != RequestId(request)
    ensures Mistaken(Next(h, s, Receive(g)), g.to, request)
  {
    hide IsCallback, IdIn;
  }

  lemma OldIdDiffers<S, C>(s: Net<S, C>, a: Address, id: u32)
    requires a in s.clients && |s.clients[a].packets| < ID_SPACE && Number(id) <= |s.clients[a].packets|
    ensures id != RequestId(|s.clients[a].packets| + 1)
  {
  }

  /** `s` is `before` after its client a has issued and sent one more request. */
  ghost predicate Sending<S, C>(before: Net<S, C>, s: Net<S, C>, a: Address) {
    a in before.clients && before.clients.Keys == s.clients.Keys && s.clients[a].waiting && s.clients[a].transmitted > 0
    && |s.clients[a].packets| == |before.clients[a].packets| + 1 <= ID_SPACE
    && s.server == before.server && before.requests <= s.requests && before.replies <= s.replies
  }

  lemma LateReply<S(!new), C>(h: RequestHandler<S, C>, before: Net<S, C>, s: Net<S, C>, g: Datagram)
    requires Inv(before) && Sending(before, s, g.to) && g in before.replies && !IsCallback(g.data)
    ensures Enabled(s, Receive(g)) && Mistaken(Next(h, s, Receive(g)), g.to, |s.clients[g.to].packets|)
  {
    hide IsCallback, LoadBe32, Mistaken, PacketsOk, TakenOk, Ours;
    OldIdDiffers(before, g.to, IdIn(g.data));
    TakenLast(h, s, g, |s.clients[g.to].packets|);
  }

  lemma LateRequest<S(!new), C>(h: RequestHandler<S, C>, before: Net<S, C>, s: Net<S, C>, d: Delivery)
    returns (g: Datagram)
    requires Inv(before) && Echoes(h) && Sending(before, s, d.from) && d in before.requests
    ensures Enabled(s, Take(d, false)) && Enabled(Next(h, s, Take(d, false)), Receive(g)) && g.to == d.from
    ensures Mistaken(Next(h, Next(h, s, Take(d, false)), Receive(g)), d.from, |s.clients[d.from].packets|)
  {
    OursAccepted(before, d);
    OldIdDiffers(before, d.from, KeyOf(d).requestId);
    var reply := ReplyCarriesId(h, before, d);
    g := Datagram(d.from, reply);
    hide IsCallback, Mistaken, Inv, Echoes, Dispatch, KeyOf, IdIn, Refused;
    TakenLast(h, Next(h, s, Take(d, false)), g, |s.clients[d.from].packets|);
  }

  ghost predicate IssuesNothing(steps: seq<Step>, a: Address) {
    forall step <- steps :: !Issues(step, a)
  }

  /** From every state in which something of a client's earlier requests is still on its way, once the
      client issues its next request the run can go on so that it takes for its reply the reply
      to an earlier one. */
  lemma LeftoversCanBeMistaken<S(!new), C>(h: RequestHandler<S, C>, s: Net<S, C>, a: Address, local: Address,
      content: bytes)
    returns (steps: seq<Step>)
    requires Inv(s) && Echoes(h) && Enabled(s, Issue(a, local, content)) && !Quiet(s, a)
    ensures var s' := Next(h, s, Issue(a, local, content));
            IssuesNothing(steps, a) && CanRun(h, s', steps)
            && Mistaken(Exec(h, s', steps), a, |s.clients[a].packets| + 1)
  {
    var s' := Next(h, s, Issue(a, local, content));
    StartsSending(h, s, a, local, content);
    hide Next, IsCallback, Inv, Mistaken, Echoes, CanRun, Exec, Enabled, Sending, IssuesNothing;
    if g :| g in s.replies && g.to == a && !IsCallback(g.data) {
      steps := LateReplyRuns(h, s, s', g);
    } else {
      var d :| d in s.requests && d.from == a;
      steps := LateRequestRuns(h, s, s', d);
    }
  }

  lemma LateReplyRuns<S(!new), C>(h: RequestHandler<S, C>, before: Net<S, C>, s: Net<S, C>, g: Datagram)
    returns (steps: seq<Step>)
    requires Inv(before) && Enabled(s, Transmit(g.to)) && Sending(before, Next(h, s, Transmit(g.to)), g.to)
    requires g in before.replies && !IsCallback(g.data)
    ensures IssuesNothing(steps, g.to) && CanRun(h, s, steps)
    ensures Mistaken(Exec(h, s, steps), g.to, |before.clients[g.to].packets| + 1)
  {
    LateReply(h, before, Next(h, s, Transmit(g.to)), g);
    hide Next, IsCallback, Inv, Mistaken, CanRun, Exec, Enabled;
    TwoSteps(h, s, Transmit(g.to), Receive(g));
    steps := [Transmit(g.to), Receive(g)];
  }

  lemma LateRequestRuns<S(!new), C>(h: RequestHandler<S, C>, before: Net<S, C>, s: Net<S, C>, d: Delivery)
    returns (steps: seq<Step>)
    requires Inv(before) && Echoes(h) && Enabled(s, Transmit(d.from))
    requires Sending(before, Next(h, s, Transmit(d.from)), d.from)
    requires d in before.requests
    ensures IssuesNothing(steps, d.from) && CanRun(h, s, steps)
    ensures Mistaken(Exec(h, s, steps), d.from, |before.clients[d.from].packets| + 1)
  {
    var g := LateRequest(h, before, Next(h, s, Transmit(d.from)), d);
    hide Next, IsCallback, Inv, Mistaken, CanRun, Exec, Enabled, Echoes;
    TwoSteps(h, s, Transmit(d.from), Take(d, false));
    ExecSnoc(h, s, [Transmit(d.from), Take(d, false)], Receive(g));
    steps := [Transmit(d.from), Take(d, false)] + [Receive(g)];
  }

  lemma StartsSending<S, C>(h: RequestHandler<S, C>, s: Net<S, C>, a: Address, local: Address, content: bytes)
    requires Enabled(s, Issue(a, local, content))
    ensures var s' := Next(h, s, Issue(a, local, content));
            Enabled(s', Transmit(a)) && Sending(s, Next(h, s', Transmit(a)), a)
            && |Next(h, s', Transmit(a)).clients[a].packets| == |s.clients[a].packets| + 1
  {
    hide Request, Cut;
  }

  lemma TwoSteps<S, C>(h: RequestHandler<S, C>, s: Net<S, C>, x: Step, y: Step)
    requires Enabled(s, x) && Enabled(Next(h, s, x), y)
    ensures CanRun(h, s, [x, y]) && Exec(h, s, [x, y]) == Next(h, Next(h, s, x), y)
  {
    hide Next, Enabled;
    assert CanRun(h, s, []) && Exec(h, s, []) == s;
    ExecSnoc(h, s, [], x);
    assert [] + [x] == [x] && [x] + [y] == [x, y];
    ExecSnoc(h, s, [x], y);
  }

  lemma {:induction false} CurrentStays<S(!new), C>(h: RequestHandler<S, C>, s: Net<S, C>, a: Address, steps: seq<Step>)
    requires Inv(s) && Echoes(h) && CurrentAt(s, a) && IssuesNothing(steps, a) && CanRun(h, s, steps)
    ensures var s' := Exec(h, s, steps);
            Inv(s') && CurrentAt(s', a) && |s'.clients[a].packets| == |s.clients[a].packets|
  {
    if steps != [] {
      var init, step := steps[..|steps| - 1], steps[|steps| - 1];
      CurrentStays(h, s, a, init);
      hide Inv, Echoes, Quiet, CanRun, Enabled;
      var mid := Exec(h, s, init);
      StepKeepsInv(h, mid, step);
      StepKeepsCurrent(h, mid, step, a);
      PacketsStay(h, mid, step, a);
    }
  }

  lemma PacketsStay<S, C>(h: RequestHandler<S, C>, s: Net<S, C>, step: Step, a: Address)
    requires Enabled(s, step) && a in s.clients && (step.Issue? ==> step.a != a)
    ensures a in Next(h, s, step).clients && Next(h, s, step).clients[a].packets == s.clients[a].packets
  {
    hide Dispatch, IsCallback, Issued, Cut;
  }

  /** A client that issues a request can come to take an earlier request's reply for the reply to
      this one exactly when something of its earlier requests is still on its way. */
  lemma {:induction false} MistakesAreLeftovers<S(!new), C>(h: RequestHandler<S, C>, s: Net<S, C>, a: Address,
    local: Address, content: bytes)
    requires Inv(s) && Echoes(h) && Enabled(s, Issue(a, local, content))
    ensures var s', n := Next(h, s, Issue(a, local, content)), |s.clients[a].packets| + 1;
            (exists steps: seq<Step> ::
               IssuesNothing(steps, a) && CanRun(h, s', steps) && Mistaken(Exec(h, s', steps), a, n))
            <==> !Quiet(s, a)
  {
    var s', n := Next(h, s, Issue(a, local, content)), |s.clients[a].packets| + 1;
    if !Quiet(s, a) {
      var steps := LeftoversCanBeMistaken(h, s, a, local, content);
    } else {
      StepKeepsInv(h, s, Issue(a, local, content));
      StepKeepsCurrent(h, s, Issue(a, local, content), a);
      assert a in s'.clients && |s'.clients[a].packets| == n;
      hide Inv, Echoes, Quiet, CanRun, Exec, Enabled, IdIn, Next;
      forall steps: seq<Step> | IssuesNothing(steps, a) && CanRun(h, s', steps)
        ensures !Mistaken(Exec(h, s', steps), a, n)
      {
        CurrentStays(h, s', a, steps);
      }
    }
  }

  /** It does happen: a client that sends its first request, gives up and issues a second can take the
      first's late reply for the reply to the second. */
  lemma {:induction false} RetriesCanBeMistaken<S(!new), C>(h: RequestHandler<S, C>, state: S, a: Address, first: bytes,
      second: bytes)
    returns (before: seq<Step>, after: seq<Step>)
    requires Echoes(h)
    ensures CanRun(h, Start(state, {a}), before) && Enabled(Exec(h, Start(state, {a}), before), Issue(a, a, second))
    ensures var s := Next(h, Exec(h, Start(state, {a}), before), Issue(a, a, second));
            CanRun(h, s, after) && Mistaken(Exec(h, s, after), a, 2)
  {
    var s0 := Start<S, C>(state, {a});
    assert CanRun(h, s0, []) && Exec(h, s0, []) == s0;
    ExecSnoc(h, s0, [], Issue(a, a, first));
    ExecSnoc(h, s0, [] + [Issue(a, a, first)], Transmit(a));
    ExecSnoc(h, s0, [] + [Issue(a, a, first)] + [Transmit(a)], GiveUp(a));
    before := [] + [Issue(a, a, first)] + [Transmit(a)] + [GiveUp(a)];
    RunKeepsInv(h, state, {a}, before);
    after := LeftoversCanBeMistaken(h, Exec(h, s0, before), a, a, second);
  }
}
