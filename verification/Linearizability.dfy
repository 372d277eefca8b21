/** Concurrent calls answer and act as if made one at a time, in the order of their decisive steps. */
module Linearizability {
  import opened Bytes
  import opened Bank
  import opened ConcurrentBank
  import opened ConcurrentBankProofs

  // ----- the one-at-a-time reading of a log -----

  function CallsOf(log: seq<Entry>): seq<Call> {
    seq(|log|, i requires 0 <= i < |log| => log[i].call)
  }

  /** Every logged result is what the call returns after the calls logged before it. */
  ghost predicate Legal(log: seq<Entry>) {
    forall k: nat | k < |log| :: log[k].result == Apply(After(CallsOf(log[..k])), log[k].call).1
  }

  lemma AfterSnoc(log: seq<Entry>, e: Entry)
    ensures After(CallsOf(log + [e])) == Apply(After(CallsOf(log)), e.call).0
  {
    var cs := CallsOf(log + [e]);
    assert cs[..|cs| - 1] == CallsOf(log);
  }

  lemma LegalSnoc(log: seq<Entry>, e: Entry)
    requires Legal(log) && e.result == Apply(After(CallsOf(log)), e.call).1
    ensures Legal(log + [e])
  {
    forall k: nat | k < |log + [e]|
      ensures (log + [e])[k].result == Apply(After(CallsOf((log + [e])[..k])), (log + [e])[k].call).1
    {
      if k < |log| {
        assert (log + [e])[..k] == log[..k];
      } else {
        assert (log + [e])[..k] == log;
      }
    }
  }

  // ----- the bank a concurrent state stands for -----

  /** Money on its way to an account: debited elsewhere by the owner of its mutex, not yet credited. */
  function InFlight(s: State, o: Obj): real {
    if o in s.owner && s.owner[o] < |s.threads| && s.threads[s.owner[o]].point.Credit?
       && s.threads[s.owner[o]].point.to == o && s.threads[s.owner[o]].call.Transfer?
    then s.threads[s.owner[o]].call.amount else 0.0
  }

  function View(s: State, o: Obj): Account
    requires o < |s.objs|
  {
    s.objs[o].(balance := s.objs[o].balance + InFlight(s, o))
  }

  function Abs(s: State): Bank {
    Bank(map n: u32 | n in s.live && s.live[n] < |s.objs| :: View(s, s.live[n]), s.nextId)
  }

  predicate Attached(s: State, o: Obj) {
    o < |s.objs| && s.objs[o].number in s.live
  }

  /** The object has been closed. */
  predicate Gone(s: State, o: Obj) {
    o < |s.objs| && !Attached(s, o)
  }

  /** Thread t is about to rely on an account that was closed after it looked it up: to enter its
      critical section on it, or to report what the lookup of a transfer's other account showed.
      Only a wrong password is reported alike whether the account is closed or not. */
  predicate Stale(s: State, t: Tid) {
    t < |s.threads| &&
    match s.threads[t].point
    case Section(obj) => !Attached(s, obj)
    case TransferSection(from, to) => !Attached(s, from) || !Attached(s, to)
    case Inside(op) =>
      op.GetTo? && op.from < |s.objs| && !Attached(s, op.from) && LookupReports(s, s.threads[t].call, op.from)
    case _ => false
  }

  /** The second lookup ends the transfer for a reason other than a wrong password. */
  predicate LookupReports(s: State, c: Call, from: Obj)
    requires from < |s.objs|
  {
    c.Transfer?
    && (c.to !in s.live || s.live[c.to] >= |s.objs|
        || (s.objs[from].password == c.pw
            && (CheckAuth(s.objs[from], c.name, c.pw).Some? || s.objs[from].currency != c.currency
                || s.objs[from].currency != s.objs[s.live[c.to]].currency)))
  }

  // ----- the invariant -----

  /** A thread's decided answer fits where it is and the accounts it holds. */
  ghost predicate AnswerOk(s: State, th: Thread) {
    match th.point
    case Wanting(op) => AnswerOkDuring(s, th, op)
    case Inside(op) => AnswerOkDuring(s, th, op)
    case Credit(from, to) =>
      th.call.Transfer? && Attached(s, from) && Attached(s, to)
      && th.answer == Some(Balances(s.objs[from].balance, s.objs[to].balance + th.call.amount))
    case UnlockTo(_, _, result) => th.answer == Some(result)
    case Unlock(_, result) => th.answer == Some(result)
    case Finished(result) => th.answer == Some(result)
    case _ => th.answer == None
  }

  ghost predicate AnswerOkDuring(s: State, th: Thread, op: StoreOp) {
    match op
    case Update(obj) => Attached(s, obj) && th.answer == Some(Balance(s.objs[obj].balance))
    case UpdateFrom(from, to) =>
      Attached(s, from) && Attached(s, to) && th.answer == Some(Balances(s.objs[from].balance, s.objs[to].balance))
    case UpdateTo(from, to) =>
      Attached(s, from) && Attached(s, to) && th.answer == Some(Balances(s.objs[from].balance, s.objs[to].balance))
    case Delete(obj) => Attached(s, obj) && th.answer == None
    case _ => th.answer == None
  }

  ghost predicate AnswersOk(s: State) {
    forall t: Tid | t < |s.threads| :: AnswerOk(s, s.threads[t])
  }

  ghost predicate Logged(log: seq<Entry>, t: Tid) {
    exists k: nat :: k < |log| && log[k].tid == t
  }

  /** The order holds each decided call exactly once, with its answer. */
  ghost predicate HoldsDecided(s: State, order: seq<Entry>) {
    (forall k: nat | k < |order| ::
       order[k].tid < |s.threads| && s.threads[order[k].tid].call == order[k].call
       && s.threads[order[k].tid].answer == Some(order[k].result))
    && (forall i: nat, j: nat | i < j < |order| :: order[i].tid != order[j].tid)
    && (forall t: Tid | t < |s.threads| && s.threads[t].answer.Some? :: Logged(order, t))
  }

  ghost predicate LogMatches(s: State) {
    HoldsDecided(s, s.log)
  }

  ghost predicate Linear(s: State) {
    Legal(s.log) && After(CallsOf(s.log)) == Abs(s) && LogMatches(s) && AnswersOk(s)
  }

  // ----- the two kinds of step -----

  /** The step decides nothing and leaves the bank as it is. */
  ghost predicate Silent(s: State, s': State, t: Tid) {
    Moves(s, s', t) && s'.log == s.log && s'.threads[t].answer == s.threads[t].answer && Abs(s') == Abs(s)
  }

  /** The step decides the call, and changes the bank as the call made alone would. */
  ghost predicate Decisive(s: State, s': State, t: Tid) {
    Moves(s, s', t) && s.threads[t].answer == None
    && var c := s.threads[t].call;
       s'.threads[t].answer == Some(Apply(Abs(s), c).1) && Abs(s') == Apply(Abs(s), c).0
       && s'.log == s.log + [Entry(t, c, Apply(Abs(s), c).1)]
  }

  lemma SilentKeeps(s: State, s': State, t: Tid)
    requires Silent(s, s', t) && Legal(s.log) && After(CallsOf(s.log)) == Abs(s) && LogMatches(s)
    ensures Legal(s'.log) && After(CallsOf(s'.log)) == Abs(s') && LogMatches(s')
  {
    hide Legal, After, CallsOf, Abs;
  }

  lemma DecisiveKeeps(s: State, s': State, t: Tid)
    requires Decisive(s, s', t) && Legal(s.log) && After(CallsOf(s.log)) == Abs(s) && LogMatches(s)
    ensures Legal(s'.log) && After(CallsOf(s'.log)) == Abs(s') && LogMatches(s')
  {
    hide Legal, After, CallsOf, Abs, Apply;
    var e := s'.log[|s.log|];
    AfterSnoc(s.log, e);
    LegalSnoc(s.log, e);
    forall u: Tid | u < |s'.threads| && s'.threads[u].answer.Some? ensures Logged(s'.log, u) {
      if u != t {
        var k: nat :| k < |s.log| && s.log[k].tid == u;
        assert s'.log[k].tid == u;
      } else {
        assert s'.log[|s.log|].tid == u;
      }
    }
  }

  /** The step changes no account the moving thread does not hold, and detaches none of them. */
  ghost predicate TouchesOwn(s: State, s': State, t: Tid) {
    t < |s.threads| && |s.objs| <= |s'.objs|
    && forall o: Obj | o < |s.objs| && o !in Held(s.objs, s.threads[t].point) ::
         s'.objs[o] == s.objs[o] && (Attached(s, o) ==> Attached(s', o))
  }

  /** What other threads hold is not touched, so their answers still fit. */
  lemma OthersStillOk(s: State, s': State, t: Tid, u: Tid)
    requires Inv(s) && Moves(s, s', t) && TouchesOwn(s, s', t) && u < |s.threads| && u != t
    requires AnswerOk(s, s.threads[u])
    ensures AnswerOk(s', s'.threads[u])
  {
    hide NumbersMatch, Counted, StoreLockOk;
    assert PointOk(s.objs, s.threads[u].call, s.threads[u].point);
    forall o | o in Held(s.objs, s.threads[u].point) ensures o !in Held(s.objs, s.threads[t].point) {
      assert Holds(s, u, o) && (o in Held(s.objs, s.threads[t].point) ==> Holds(s, t, o));
    }
  }

  // ----- each step is silent or decisive -----

  ghost predicate StepOk(s: State, s': State, t: Tid) {
    (Silent(s, s', t) || Decisive(s, s', t)) && TouchesOwn(s, s', t) && AnswerOk(s', s'.threads[t])
  }

  /** Mutexes of other threads stay where they are. */
  ghost predicate OwnersAgree(s: State, s': State, t: Tid) {
    (forall o <- s.owner | s.owner[o] != t :: o in s'.owner && s'.owner[o] == s.owner[o])
    && (forall o <- s'.owner | s'.owner[o] != t :: o in s.owner && s.owner[o] == s'.owner[o])
  }

  lemma NothingInFlight(s: State, s': State, t: Tid)
    requires Moves(s, s', t) && OwnersAgree(s, s', t)
    requires !s.threads[t].point.Credit? && !s'.threads[t].point.Credit?
    ensures forall o: Obj :: InFlight(s', o) == InFlight(s, o)
  {
  }

  /** Steps that move no money and change no record leave the abstract bank alone. */
  lemma AbsSame(s: State, s': State, t: Tid)
    requires Moves(s, s', t) && OwnersAgree(s, s', t)
    requires !s.threads[t].point.Credit? && !s'.threads[t].point.Credit?
    requires s'.objs == s.objs && s'.live == s.live && s'.nextId == s.nextId
    ensures Abs(s') == Abs(s)
  {
    NothingInFlight(s, s', t);
  }

  /** An attached account is what the abstract bank holds under its number. */
  lemma AbsAt(s: State, o: Obj)
    requires NumbersMatch(s) && Attached(s, o)
    ensures s.objs[o].number in Abs(s).accounts && Abs(s).accounts[s.objs[o].number] == View(s, o)
  {
  }

  lemma NotInFlight(s: State, t: Tid, o: Obj)
    requires MutexesOk(s) && Holds(s, t, o) && !s.threads[t].point.Credit?
    ensures InFlight(s, o) == 0.0
  {
  }

  lemma StartLinear(s: State, t: Tid)
    requires Inv(s) && t < |s.threads| && s.threads[t].point.Start? && AnswerOk(s, s.threads[t])
    ensures StepOk(s, StartStep(s, t), t)
  {
    hide Inv;
    StartFrame(s, t);
    AbsSame(s, StartStep(s, t), t);
  }

  lemma AbsCreate(s: State, s': State, t: Tid, a: Account)
    requires NumbersMatch(s) && Moves(s, s', t) && s'.owner == s.owner && |s.objs| !in s.owner
    requires !s.threads[t].point.Credit? && !s'.threads[t].point.Credit?
    requires s'.objs == s.objs + [a] && s'.live == s.live[s.nextId := |s.objs|]
    ensures Abs(s').accounts == Abs(s).accounts[s.nextId := a]
  {
    NothingInFlight(s, s', t);
  }

  lemma HeldInRange(s: State, t: Tid)
    requires PointsOk(s) && t < |s.threads|
    ensures forall o <- Held(s.objs, s.threads[t].point) :: o < |s.objs|
  {
    assert PointOk(s.objs, s.threads[t].call, s.threads[t].point);
  }

  lemma NewObjectIsFree(s: State)
    requires PointsOk(s) && MutexesOk(s)
    ensures |s.objs| !in s.owner
  {
    if |s.objs| in s.owner {
      var t := s.owner[|s.objs|];
      assert Holds(s, t, |s.objs|);
      HeldInRange(s, t);
    }
  }

  lemma CreateLinear(s: State, t: Tid)
    requires Inv(s) && t < |s.threads| && s.threads[t].point == Inside(Create) && AnswerOk(s, s.threads[t])
    ensures StepOk(s, StoreStep(s, t, Create), t)
  {
    hide Counted, StoreLockOk, MutexesOk, Abs;
    assert PointOk(s.objs, s.threads[t].call, s.threads[t].point);
    CreateFrame(s, t);
    NewObjectIsFree(s);
    var s', c := StoreStep(s, t, Create), s.threads[t].call;
    var a := Account(s.nextId, c.name, c.pw, c.currency, c.initial);
    AbsCreate(s, s', t, a);
    AbsNext(s);
    AbsNext(s');
  }

  lemma AbsNext(s: State)
    ensures Abs(s).nextId == s.nextId
  {
  }

  lemma GetLinear(s: State, t: Tid)
    requires Inv(s) && t < |s.threads| && s.threads[t].point == Inside(Get) && AnswerOk(s, s.threads[t])
    ensures StepOk(s, StoreStep(s, t, Get), t)
  {
    hide Counted, StoreLockOk, MutexesOk, Held;
    assert PointOk(s.objs, s.threads[t].call, s.threads[t].point);
    GetFrame(s, t);
    AbsSame(s, StoreStep(s, t, Get), t);
    if s.threads[t].call.id in s.live {
      AbsAt(s, s.live[s.threads[t].call.id]);
    }
  }

  /** The second lookup of a transfer, against the same call on a bank that agrees with the store on the
      two accounts, or lacks the first. */
  lemma GetToCases(s: State, t: Tid, from: Obj, b: Bank)
    requires t < |s.threads| && OpOk(s.objs, s.threads[t].call, GetTo(from)) && NumbersMatch(s)
    requires var c := s.threads[t].call;
             (c.to in b.accounts <==> c.to in s.live)
             && (c.to in s.live ==> b.accounts[c.to].currency == s.objs[s.live[c.to]].currency)
             && (if c.id in b.accounts then b.accounts[c.id].(balance := s.objs[from].balance) == s.objs[from]
                 else !LookupReports(s, c, from))
    ensures var s', c := StoreStep(s, t, GetTo(from)), s.threads[t].call;
            s'.objs == s.objs && s'.live == s.live && s'.nextId == s.nextId && s'.owner == s.owner
            && (if s'.threads[t].point.LockLow? then s'.log == s.log && s'.threads[t].answer == s.threads[t].answer
                else s'.threads[t].point == Finished(Apply(b, c).1) && s'.threads[t].answer == Some(Apply(b, c).1)
                     && Apply(b, c).0 == b && s'.log == s.log + [Entry(t, c, Apply(b, c).1)])
  {
  }

  lemma GetToLinear(s: State, t: Tid, from: Obj)
    requires Inv(s) && t < |s.threads| && s.threads[t].point == Inside(GetTo(from)) && AnswerOk(s, s.threads[t])
    requires !Stale(s, t)
    ensures StepOk(s, StoreStep(s, t, GetTo(from)), t)
  {
    hide Counted, StoreLockOk, MutexesOk, Held, InFlight, CheckAuth;
    assert PointOk(s.objs, s.threads[t].call, s.threads[t].point);
    GetToFrame(s, t, from);
    GetToCases(s, t, from, Abs(s));
    hide Abs, StoreStep, Apply, LookupReports, CheckAuth;
    AbsSame(s, StoreStep(s, t, GetTo(from)), t);
  }

  lemma UpdateLinear(s: State, t: Tid, op: StoreOp)
    requires Inv(s) && t < |s.threads| && s.threads[t].point == Inside(op) && AnswerOk(s, s.threads[t])
    requires op.Update? || op.UpdateFrom? || op.UpdateTo?
    ensures StepOk(s, StoreStep(s, t, op), t)
  {
    hide Counted, StoreLockOk, MutexesOk;
    assert PointOk(s.objs, s.threads[t].call, s.threads[t].point);
    WriteFrame(s, t, op);
    var s' := StoreStep(s, t, op);
    assert s'.live == s.live;
    AbsSame(s, s', t);
  }

  lemma AbsDelete(s: State, s': State, t: Tid, n: u32)
    requires Moves(s, s', t) && s'.owner == s.owner && s'.objs == s.objs && s'.live == s.live - {n}
    requires !s.threads[t].point.Credit? && !s'.threads[t].point.Credit?
    ensures Abs(s').accounts == Abs(s).accounts - {n}
  {
    NothingInFlight(s, s', t);
  }

  lemma DeleteLinear(s: State, t: Tid, obj: Obj)
    requires Inv(s) && t < |s.threads| && s.threads[t].point == Inside(Delete(obj)) && AnswerOk(s, s.threads[t])
    ensures StepOk(s, StoreStep(s, t, Delete(obj)), t)
  {
    hide Counted, StoreLockOk, MutexesOk, Abs;
    assert PointOk(s.objs, s.threads[t].call, s.threads[t].point);
    WriteFrame(s, t, Delete(obj));
    var s' := StoreStep(s, t, Delete(obj));
    AbsAt(s, obj);
    AbsDelete(s, s', t, s.threads[t].call.id);
    AbsNext(s);
    AbsNext(s');
  }

  /** One attached account changes. */
  lemma AbsChange(s: State, s': State, o: Obj)
    requires NumbersMatch(s) && Attached(s, o) && |s'.objs| == |s.objs| && s'.live == s.live && s'.nextId == s.nextId
    requires forall p: Obj | p < |s.objs| && p != o :: s'.objs[p] == s.objs[p] && InFlight(s', p) == InFlight(s, p)
    ensures Abs(s') == Abs(s).(accounts := Abs(s).accounts[s.objs[o].number := View(s', o)])
  {
  }

  lemma SectionLinear(s: State, t: Tid, obj: Obj)
    requires Inv(s) && t < |s.threads| && s.threads[t].point == Section(obj) && AnswerOk(s, s.threads[t])
    requires !Stale(s, t)
    ensures StepOk(s, SectionStep(s, t, obj), t)
  {
    hide Counted, StoreLockOk, Abs, MutexesOk;
    assert PointOk(s.objs, s.threads[t].call, s.threads[t].point);
    SectionFrame(s, t, obj);
    var s', c := SectionStep(s, t, obj), s.threads[t].call;
    assert Holds(s, t, obj);
    NotInFlight(s, t, obj);
    NothingInFlight(s, s', t);
    AbsAt(s, obj);
    hide InFlight;
    AbsChange(s, s', obj);
    SectionCases(s, t, obj, Abs(s));
    assert Abs(s).accounts[c.id := s.objs[obj]] == Abs(s).accounts;
  }

  /** What the section does to its one account, against the same call on a bank that holds it. */
  lemma SectionCases(s: State, t: Tid, obj: Obj, b: Bank)
    requires t < |s.threads| && Granted(s.objs, s.threads[t].call, obj) && !s.threads[t].call.Transfer?
    requires s.threads[t].call.id in b.accounts && b.accounts[s.threads[t].call.id] == s.objs[obj]
    ensures var s', c := SectionStep(s, t, obj), s.threads[t].call;
            Refusal(b, c) == None && |s'.objs| == |s.objs| && s'.threads[t].call == c
            && (c.Close? || (s'.threads[t].answer == Some(Apply(b, c).1)
                             && s'.log == s.log + [Entry(t, c, Apply(b, c).1)]
                             && Apply(b, c).0 == b.(accounts := b.accounts[c.id := s'.objs[obj]])))
  {
    var c := s.threads[t].call;
    assert b.accounts[c.id := s.objs[obj]] == b.accounts;
  }

  lemma DebitLinear(s: State, t: Tid, from: Obj, to: Obj)
    requires Inv(s) && t < |s.threads| && s.threads[t].point == TransferSection(from, to) && AnswerOk(s, s.threads[t])
    requires !Stale(s, t)
    ensures StepOk(s, DebitStep(s, t, from, to), t)
  {
    hide Counted, StoreLockOk, Abs, MutexesOk, Held, CheckAuth;
    assert PointOk(s.objs, s.threads[t].call, s.threads[t].point);
    TransferFrame(s, t, from, to);
    var s', c := DebitStep(s, t, from, to), s.threads[t].call;
    BothOwned(s, t, from, to);
    AbsAt(s, from);
    AbsAt(s, to);
    hide InFlight;
    if s.objs[from].balance < c.amount {
      AbsSame(s, s', t);
    } else {
      AbsDebit(s, t, from, to);
    }
  }

  lemma BothOwned(s: State, t: Tid, from: Obj, to: Obj)
    requires MutexesOk(s) && t < |s.threads| && s.threads[t].point == TransferSection(from, to)
    ensures from in s.owner && s.owner[from] == t && to in s.owner && s.owner[to] == t
    ensures InFlight(s, from) == 0.0 && InFlight(s, to) == 0.0
    ensures forall o: Obj :: o in Held(s.objs, s.threads[t].point) <==> o == from || o == to
  {
    assert Holds(s, t, from) && Holds(s, t, to);
  }

  lemma AbsDebit(s: State, t: Tid, from: Obj, to: Obj)
    requires NumbersMatch(s) && t < |s.threads| && s.threads[t].point == TransferSection(from, to)
    requires Attached(s, from) && Attached(s, to) && from != to && s.threads[t].call.Transfer?
    requires from in s.owner && s.owner[from] == t && to in s.owner && s.owner[to] == t
    requires s.objs[from].balance >= s.threads[t].call.amount
    ensures var a, x, y := s.threads[t].call.amount, s.objs[from], s.objs[to];
            Abs(DebitStep(s, t, from, to)) ==
            Abs(s).(accounts := Abs(s).accounts[x.number := x.(balance := x.balance - a)]
                                               [y.number := y.(balance := y.balance + a)])
  {
    var s' := DebitStep(s, t, from, to);
    DebitFlights(s, t, from, to);
    hide InFlight, DebitStep;
    assert Abs(s').nextId == Abs(s).nextId;
  }

  lemma DebitFlights(s: State, t: Tid, from: Obj, to: Obj)
    requires t < |s.threads| && s.threads[t].point == TransferSection(from, to) && from < |s.objs| && to < |s.objs|
    requires from != to
    requires from in s.owner && s.owner[from] == t && to in s.owner && s.owner[to] == t
    requires s.threads[t].call.Transfer? && s.objs[from].balance >= s.threads[t].call.amount
    ensures var s', a := DebitStep(s, t, from, to), s.threads[t].call.amount;
            InFlight(s', to) == a && InFlight(s, to) == 0.0 && InFlight(s, from) == 0.0
            && (forall o: Obj | o != to :: InFlight(s', o) == InFlight(s, o))
            && s'.objs == s.objs[from := s.objs[from].(balance := s.objs[from].balance - a)]
            && s'.live == s.live && s'.nextId == s.nextId
  {
  }

  lemma AbsCredit(s: State, t: Tid, from: Obj, to: Obj)
    requires t < |s.threads| && s.threads[t].point == Credit(from, to) && s.threads[t].call.Transfer?
    requires from < |s.objs| && to < |s.objs| && to in s.owner && s.owner[to] == t
    ensures Abs(CreditStep(s, t, from, to)) == Abs(s)
  {
    var s' := CreditStep(s, t, from, to);
    assert InFlight(s, to) == s.threads[t].call.amount && InFlight(s', to) == 0.0;
    forall o: Obj | o != to ensures InFlight(s', o) == InFlight(s, o) {
    }
  }

  lemma CreditLinear(s: State, t: Tid, from: Obj, to: Obj)
    requires Inv(s) && t < |s.threads| && s.threads[t].point == Credit(from, to) && AnswerOk(s, s.threads[t])
    ensures StepOk(s, CreditStep(s, t, from, to), t)
  {
    hide Counted, StoreLockOk, Abs, NumbersMatch;
    assert PointOk(s.objs, s.threads[t].call, s.threads[t].point);
    TransferFrame(s, t, from, to);
    assert Holds(s, t, to);
    AbsCredit(s, t, from, to);
  }

  lemma LockLinear(s: State, t: Tid)
    requires Inv(s) && Enabled(s, t) && IsLockPoint(s.threads[t].point) && AnswerOk(s, s.threads[t])
    ensures StepOk(s, LockStep(s, t), t)
  {
    hide Counted, StoreLockOk, NumbersMatch;
    assert PointOk(s.objs, s.threads[t].call, s.threads[t].point);
    LockFrame(s, t);
    var s' := LockStep(s, t);
    if s.threads[t].point.UnlockTo? {
      assert Holds(s, t, s.threads[t].point.to);
    } else if s.threads[t].point.Unlock? {
      assert Holds(s, t, s.threads[t].point.obj);
    }
    AbsSame(s, s', t);
  }

  lemma StepLinear(s: State, t: Tid)
    requires Inv(s) && Enabled(s, t) && !Stale(s, t) && AnswerOk(s, s.threads[t])
    ensures StepOk(s, Step(s, t), t)
  {
    hide StoreStep, StartStep, SectionStep, DebitStep, CreditStep, LockStep, Held, StepOk, AnswerOk, Stale;
    assert PointOk(s.objs, s.threads[t].call, s.threads[t].point);
    match s.threads[t].point
    case Start => StartLinear(s, t);
    case Inside(op) =>
      match op {
        case Create => CreateLinear(s, t);
        case Get => GetLinear(s, t);
        case GetTo(from) => GetToLinear(s, t, from);
        case Delete(obj) => DeleteLinear(s, t, obj);
        case _ => UpdateLinear(s, t, op);
      }
    case Section(obj) => SectionLinear(s, t, obj);
    case TransferSection(from, to) => DebitLinear(s, t, from, to);
    case Credit(from, to) => CreditLinear(s, t, from, to);
    case _ => LockLinear(s, t);
  }

  lemma StepKeepsLinear(s: State, t: Tid)
    requires Inv(s) && Enabled(s, t) && !Stale(s, t) && Linear(s)
    ensures Linear(Step(s, t))
  {
    hide Step, Inv, Enabled, Stale, AnswerOk, Silent, Decisive, TouchesOwn, Abs, Legal, After, LogMatches;
    var s' := Step(s, t);
    StepMoves(s, t);
    StepLinear(s, t);
    if Silent(s, s', t) {
      SilentKeeps(s, s', t);
    } else {
      DecisiveKeeps(s, s', t);
    }
    forall u: Tid | u < |s'.threads| ensures AnswerOk(s', s'.threads[u]) {
      if u != t {
        OthersStillOk(s, s', t, u);
      }
    }
  }

  // ----- runs -----

  /** No turn of the schedule relies on an account closed since it was looked up. */
  predicate NeverStale(s: State, schedule: Schedule)
    requires Runs(s, schedule)
    decreases |schedule|
  {
    schedule == [] || (!Stale(s, schedule[0]) && NeverStale(Step(s, schedule[0]), schedule[1..]))
  }

  lemma {:induction false} RunKeepsLinear(s: State, schedule: Schedule)
    requires Inv(s) && Linear(s) && Runs(s, schedule) && NeverStale(s, schedule)
    ensures Inv(Exec(s, schedule)) && Linear(Exec(s, schedule)) && s.log <= Exec(s, schedule).log
    decreases |schedule|
  {
    if schedule != [] {
      hide Step, Inv, Linear, Stale;
      StepKeepsInv(s, schedule[0]);
      StepKeepsLinear(s, schedule[0]);
      LogGrows(s, schedule[0]);
      RunKeepsLinear(Step(s, schedule[0]), schedule[1..]);
    }
  }

  lemma StoreLogGrows(s: State, t: Tid, op: StoreOp)
    requires t < |s.threads| && OpInRange(|s.objs|, op)
    ensures s.log <= StoreStep(s, t, op).log
  {
    hide CheckAuth;
  }

  lemma LogGrows(s: State, t: Tid)
    requires Enabled(s, t)
    ensures s.log <= Step(s, t).log
  {
    hide StoreStep, Lower, Higher;
    if s.threads[t].point.Inside? {
      StoreLogGrows(s, t, s.threads[t].point.op);
    }
  }

  lemma InitialLinear(calls: seq<Call>)
    ensures Linear(Initial(calls))
  {
    assert Abs(Initial(calls)).accounts == map[];
  }

  /** The accounts as the store holds them. */
  function Stored(s: State): Bank {
    Bank(map n: u32 | n in s.live && s.live[n] < |s.objs| :: s.objs[s.live[n]], s.nextId)
  }

  ghost predicate AllFinished(s: State) {
    forall t: Tid | t < |s.threads| :: s.threads[t].point.Finished?
  }

  lemma NothingInFlightAtRest(s: State)
    requires Inv(s) && AllFinished(s)
    ensures Stored(s) == Abs(s)
  {
    forall o: Obj ensures InFlight(s, o) == 0.0 {
    }
    assert Stored(s).accounts == Abs(s).accounts;
  }

  /** The log is an order of the decided calls in which, made one at a time on an empty bank, each
      returns what it returned; every finished call is in it; and once all have finished the store
      is what those calls leave. */
  ghost predicate Linearized(s: State) {
    LogMatches(s)
    && (forall k: nat | k < |s.log| :: s.log[k].result == Apply(After(CallsOf(s.log[..k])), s.log[k].call).1)
    && (forall t: Tid | t < |s.threads| && s.threads[t].point.Finished? ::
          s.threads[t].answer == Some(s.threads[t].point.result) && Logged(s.log, t))
    && (AllFinished(s) ==> Stored(s) == After(CallsOf(s.log)))
  }

  lemma FinishedAreLogged(s: State, t: Tid)
    requires AnswersOk(s) && LogMatches(s) && t < |s.threads| && s.threads[t].point.Finished?
    ensures s.threads[t].answer == Some(s.threads[t].point.result) && Logged(s.log, t)
  {
    hide Logged;
    assert AnswerOk(s, s.threads[t]);
  }

  lemma LinearStatesAreLinearized(s: State)
    requires Inv(s) && Linear(s)
    ensures Linearized(s)
  {
    hide Inv, Abs, Stored, After, CallsOf, Logged, Apply, LogMatches, AnswersOk, AllFinished;
    if AllFinished(s) {
      NothingInFlightAtRest(s);
    }
    forall t: Tid | t < |s.threads| && s.threads[t].point.Finished?
      ensures s.threads[t].answer == Some(s.threads[t].point.result) && Logged(s.log, t)
    {
      FinishedAreLogged(s, t);
    }
  }

  // ----- linearisability, whatever the order -----

  /** The state after the first k turns of a run. */
  function StateAt(s: State, schedule: Schedule, k: nat): State
    requires Runs(s, schedule) && k <= |schedule|
    decreases k
  {
    if k == 0 then s else StateAt(Step(s, schedule[0]), schedule[1..], k - 1)
  }

  predicate Ended(s: State, t: Tid) {
    t < |s.threads| && s.threads[t].point.Finished?
  }

  predicate Unbegun(s: State, t: Tid) {
    t < |s.threads| && s.threads[t].point == Start
  }

  /** At every moment of the run, calls that have finished are ordered before calls that have not begun. */
  ghost predicate InRealTime(s: State, schedule: Schedule, order: seq<Entry>)
    requires Runs(s, schedule)
  {
    forall k: nat, i: nat, j: nat | k <= |schedule| && i < |order| && j < |order|
      && Ended(StateAt(s, schedule, k), order[i].tid) && Unbegun(StateAt(s, schedule, k), order[j].tid) :: i < j
  }

  /** The run's calls made one at a time in this order, on an empty bank: each returns what is noted
      with it, which is what it returned in the run if it finished; only calls that had begun are
      made and no finished call is left out; the order respects real time; and if all calls
      finished, the store is what they leave. */
  ghost predicate Explains(calls: seq<Call>, schedule: Schedule, order: seq<Entry>)
    requires Runs(Initial(calls), schedule)
  {
    var s := Exec(Initial(calls), schedule);
    (forall k: nat | k < |order| ::
       order[k].tid < |s.threads| && !Unbegun(s, order[k].tid) && s.threads[order[k].tid].call == order[k].call
       && (Ended(s, order[k].tid) ==> order[k].result == s.threads[order[k].tid].point.result))
    && (forall i: nat, j: nat | i < j < |order| :: order[i].tid != order[j].tid)
    && (forall t: Tid | Ended(s, t) :: Logged(order, t))
    && Legal(order)
    && InRealTime(Initial(calls), schedule, order)
    && (AllFinished(s) ==> Stored(s) == After(CallsOf(order)))
  }

  /** Some order explains the run. */
  ghost predicate IsLinearizable(calls: seq<Call>, schedule: Schedule)
    requires Runs(Initial(calls), schedule)
  {
    exists order: seq<Entry> :: Explains(calls, schedule, order)
  }

  /** An order that holds the decided calls explains the run, if it is legal, respects real time and
      leads to the bank the state stands for. */
  lemma OrderExplains(calls: seq<Call>, schedule: Schedule, order: seq<Entry>)
    requires Runs(Initial(calls), schedule)
    requires var s := Exec(Initial(calls), schedule);
             Inv(s) && AnswersOk(s) && HoldsDecided(s, order) && Legal(order) && After(CallsOf(order)) == Abs(s)
    requires InRealTime(Initial(calls), schedule, order)
    ensures Explains(calls, schedule, order)
  {
    hide Inv, Abs, Stored, After, CallsOf, Apply, AllFinished, Legal, InRealTime, Exec, Runs, Initial, Logged;
    var s := Exec(Initial(calls), schedule);
    forall t: Tid | t < |s.threads| ensures AnswerOk(s, s.threads[t]) {
    }
    if AllFinished(s) {
      NothingInFlightAtRest(s);
    }
  }

  /** Calls that had finished are logged before what is logged later. */
  lemma FinishedComeFirst(s: State, later: State, t: Tid, u: Tid, i: nat, j: nat)
    requires AnswersOk(s) && LogMatches(s) && LogMatches(later) && s.log <= later.log
    requires Ended(s, t) && Unbegun(s, u)
    requires i < |later.log| && j < |later.log| && later.log[i].tid == t && later.log[j].tid == u
    ensures i < j
  {
    assert AnswerOk(s, s.threads[t]) && AnswerOk(s, s.threads[u]) && Logged(s.log, t);
    var k: nat :| k < |s.log| && s.log[k].tid == t;
    assert later.log[k] == s.log[k] && i == k;
  }

  lemma {:induction false} LinearThroughout(s: State, schedule: Schedule, k: nat)
    requires Inv(s) && Linear(s) && Runs(s, schedule) && NeverStale(s, schedule) && k <= |schedule|
    ensures Linear(StateAt(s, schedule, k)) && StateAt(s, schedule, k).log <= Exec(s, schedule).log
    decreases k
  {
    hide Step, Inv, Linear, Stale;
    if k == 0 {
      RunKeepsLinear(s, schedule);
    } else {
      StepKeepsInv(s, schedule[0]);
      StepKeepsLinear(s, schedule[0]);
      LinearThroughout(Step(s, schedule[0]), schedule[1..], k - 1);
    }
  }

  /** The order of the log respects real time. */
  lemma {:induction false} RealTimeOrder(calls: seq<Call>, schedule: Schedule)
    requires |OpenCalls(calls)| < ID_SPACE - FIRST_ID
    requires Runs(Initial(calls), schedule) && NeverStale(Initial(calls), schedule)
    ensures InRealTime(Initial(calls), schedule, Exec(Initial(calls), schedule).log)
  {
    InitialInv(calls);
    InitialLinear(calls);
    hide Inv, Exec, Runs, NeverStale, Legal, After, CallsOf, Abs, Initial, AnswersOk, LogMatches, Ended, Unbegun;
    var s := Initial(calls);
    var later := Exec(s, schedule);
    RunKeepsLinear(s, schedule);
    forall k: nat, i: nat, j: nat | k <= |schedule| && i < |later.log| && j < |later.log|
      && Ended(StateAt(s, schedule, k), later.log[i].tid) && Unbegun(StateAt(s, schedule, k), later.log[j].tid)
      ensures i < j
    {
      LinearThroughout(s, schedule, k);
      FinishedComeFirst(StateAt(s, schedule, k), later, later.log[i].tid, later.log[j].tid, i, j);
    }
  }

  /** Every run in which no thread relies on an account closed since it looked it up is linearisable,
      and its log, the order of the decisive steps, explains it. */
  lemma {:induction false} Linearizable(calls: seq<Call>, schedule: Schedule)
    requires |OpenCalls(calls)| < ID_SPACE - FIRST_ID
    requires Runs(Initial(calls), schedule) && NeverStale(Initial(calls), schedule)
    ensures Linearized(Exec(Initial(calls), schedule))
    ensures Explains(calls, schedule, Exec(Initial(calls), schedule).log)
  {
    InitialInv(calls);
    InitialLinear(calls);
    RunKeepsLinear(Initial(calls), schedule);
    RealTimeOrder(calls, schedule);
    hide Inv, Linearized, Explains, Exec, Runs, NeverStale, Initial, Legal, AnswersOk, Abs, After, CallsOf;
    hide HoldsDecided;
    LinearStatesAreLinearized(Exec(Initial(calls), schedule));
    OrderExplains(calls, schedule, Exec(Initial(calls), schedule).log);
  }

  // ----- without closes every run qualifies -----

  ghost predicate NothingCloses(s: State) {
    (forall t: Tid | t < |s.threads| :: !s.threads[t].call.Close?)
    && (forall o: Obj | o < |s.objs| :: s.objs[o].number in s.live)
  }

  /** Only a close takes a number out of the store, and a new object is stored at once. */
  lemma StoreKeepsLive(s: State, t: Tid, op: StoreOp)
    requires t < |s.threads| && OpOk(s.objs, s.threads[t].call, op) && !s.threads[t].call.Close? && NumbersMatch(s)
    ensures var s' := StoreStep(s, t, op);
            (forall n <- s.live :: n in s'.live) && (op.Create? ==> s.nextId in s'.live)
            && (!op.Create? ==> |s'.objs| == |s.objs|)
            && (forall o: Obj | o < |s'.objs| ::
                  s'.objs[o].number == if o < |s.objs| then s.objs[o].number else s.nextId)
  {
  }

  lemma StepClosesNothing(s: State, t: Tid)
    requires Inv(s) && Enabled(s, t) && NothingCloses(s)
    ensures !Stale(s, t) && NothingCloses(Step(s, t))
  {
    hide StoreStep, StartStep, SectionStep, DebitStep, CreditStep, LockStep, Held;
    assert PointOk(s.objs, s.threads[t].call, s.threads[t].point);
    match s.threads[t].point
    case Start => StartFrame(s, t);
    case Inside(op) => StoreFrame(s, t, op); StoreKeepsLive(s, t, op);
    case Section(obj) => SectionFrame(s, t, obj);
    case TransferSection(from, to) => TransferFrame(s, t, from, to);
    case Credit(from, to) => TransferFrame(s, t, from, to);
    case _ => LockFrame(s, t);
  }

  lemma {:induction false} NoCloseNeverStale(s: State, schedule: Schedule)
    requires Inv(s) && NothingCloses(s) && Runs(s, schedule)
    ensures NeverStale(s, schedule)
    decreases |schedule|
  {
    if schedule != [] {
      hide Step, Inv, NothingCloses, Stale;
      StepKeepsInv(s, schedule[0]);
      StepClosesNothing(s, schedule[0]);
      NoCloseNeverStale(Step(s, schedule[0]), schedule[1..]);
    }
  }

  /** With no CloseAccount among the calls, every run is linearisable in the order of its log, real
      time included. */
  lemma {:induction false} LinearizableWithoutClose(calls: seq<Call>, schedule: Schedule)
    requires |OpenCalls(calls)| < ID_SPACE - FIRST_ID && Runs(Initial(calls), schedule)
    requires forall c <- calls :: !c.Close?
    ensures Linearized(Exec(Initial(calls), schedule))
    ensures Explains(calls, schedule, Exec(Initial(calls), schedule).log)
  {
    InitialInv(calls);
    NoCloseNeverStale(Initial(calls), schedule);
    hide Inv, Initial, Exec, Runs, NeverStale, Linearized, Explains;
    Linearizable(calls, schedule);
  }
}
