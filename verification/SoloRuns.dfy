/** What one thread does when it is given several turns in a row while no lock is taken. */
module SoloRuns {
  import opened Bytes
  import opened Bank
  import opened ConcurrentBank
  import opened Linearizability

  predicate StoreFree(s: State) {
    s.writer == None && s.readers == {}
  }

  predicate Idle(s: State) {
    StoreFree(s) && s.owner == map[]
  }

  /** Thread t has moved to p. */
  function At(s: State, t: Tid, p: Point): State
    requires t < |s.threads|
  {
    s.(threads := s.threads[t := s.threads[t].(point := p)])
  }

  lemma {:induction false} Sequenced(s: State, a: Schedule, b: Schedule)
    requires Runs(s, a) && Runs(Exec(s, a), b)
    ensures Runs(s, a + b) && Exec(s, a + b) == Exec(Exec(s, a), b)
    decreases |a|
  {
    if a == [] {
      assert a + b == b;
    } else {
      hide Step, Enabled;
      assert (a + b)[1..] == a[1..] + b;
      Sequenced(Step(s, a[0]), a[1..], b);
    }
  }

  lemma OneStep(s: State, t: Tid)
    requires Enabled(s, t)
    ensures Runs(s, [t]) && Exec(s, [t]) == Step(s, t)
  {
    assert [t][1..] == [];
    assert Runs(Step(s, t), []) && Exec(Step(s, t), []) == Step(s, t);
  }

  /** The thread takes one more turn. */
  lemma OneMore(s: State, a: Schedule, s': State, t: Tid, s'': State)
    requires Runs(s, a) && Exec(s, a) == s' && Enabled(s', t) && Step(s', t) == s''
    ensures Runs(s, a + [t]) && Exec(s, a + [t]) == s''
  {
    hide Step, Enabled;
    OneStep(s', t);
    Sequenced(s, a, [t]);
  }

  /** Taking the store's lock, doing the work inside, and what is left of the lock afterwards. */
  lemma StoreTurns(s: State, t: Tid, op: StoreOp)
    requires StoreFree(s) && t < |s.threads| && s.threads[t].point == Wanting(op) && OpInRange(|s.objs|, op)
    ensures Runs(s, [t, t]) && Exec(s, [t, t]) == StoreStep(EnterStore(At(s, t, Inside(op)), t, op), t, op)
  {
    hide StoreStep;
    OneStep(s, t);
    assert [t] + [t] == [t, t];
    OneMore(s, [t], LockStep(s, t), t, StoreStep(LockStep(s, t), t, op));
  }

  lemma LockComesBack(s: State, t: Tid, op: StoreOp)
    requires StoreFree(s)
    ensures LeaveStore(EnterStore(s, t, op), t, op) == s
  {
    assert s.readers + {t} - {t} == {};
  }

  lemma AtTwice(s: State, t: Tid, p: Point, q: Point)
    requires t < |s.threads|
    ensures At(At(s, t, p), t, q) == At(s, t, q)
  {
  }

  lemma StartThenStore(s: State, t: Tid, op: StoreOp)
    requires Idle(s) && t < |s.threads| && s.threads[t].point.Start? && StartStep(s, t) == At(s, t, Wanting(op))
    requires OpInRange(|s.objs|, op)
    ensures Runs(s, [t, t, t]) && Exec(s, [t, t, t]) == StoreStep(EnterStore(At(s, t, Inside(op)), t, op), t, op)
  {
    hide StartStep, StoreStep, EnterStore, Runs, Exec;
    OneStep(s, t);
    var s1 := At(s, t, Wanting(op));
    StoreTurns(s1, t, op);
    AtTwice(s, t, Wanting(op), Inside(op));
    Sequenced(s, [t], [t, t]);
    assert [t] + [t, t] == [t, t, t];
  }

  /** The account has been created under the next number and the opening has finished. */
  function AfterOpening(s: State, t: Tid): State
    requires t < |s.threads| && s.threads[t].call.Open?
  {
    var c, n := s.threads[t].call, s.nextId;
    Decide(s.(objs := s.objs + [Account(n, c.name, c.pw, c.currency, c.initial)], live := s.live[n := |s.objs|],
              nextId := (n + 1) % ID_SPACE),
           t, Finished(Opened(n)), Opened(n))
  }

  lemma CreateAlone(s: State, t: Tid)
    requires StoreFree(s) && t < |s.threads| && s.threads[t].call.Open?
    ensures StoreStep(EnterStore(At(s, t, Inside(Create)), t, Create), t, Create) == AfterOpening(s, t)
  {
    LockComesBack(At(s, t, Inside(Create)), t, Create);
    hide EnterStore, LeaveStore;
  }

  lemma OpenRuns(s: State, t: Tid)
    requires Idle(s) && t < |s.threads| && s.threads[t].point.Start? && s.threads[t].call.Open?
    ensures Runs(s, [t, t, t]) && Exec(s, [t, t, t]) == AfterOpening(s, t)
  {
    hide EnterStore, StoreStep, AfterOpening, Runs, Exec;
    StartThenStore(s, t, Create);
    CreateAlone(s, t);
  }

  /** A caller who is the holder and names a positive amount, if any, gets as far as the mutex. */
  lemma LookupRuns(s: State, t: Tid, o: Obj)
    requires Idle(s) && t < |s.threads| && s.threads[t].point.Start? && o < |s.objs|
    requires var c := s.threads[t].call;
             (c.Close? || c.CheckBalance? || (c.Deposit? && c.amount > 0.0)) && c.id in s.live && s.live[c.id] == o
             && CheckAuth(s.objs[o], c.name, c.pw) == None
    ensures Runs(s, [t, t, t]) && Exec(s, [t, t, t]) == At(s, t, LockOne(o))
  {
    StartThenStore(s, t, Get);
    LockComesBack(At(s, t, Inside(Get)), t, Get);
    hide EnterStore, LeaveStore, Runs, Exec;
  }

  /** From the mutex wanted to the section under it. */
  lemma LockTurn(s: State, t: Tid, o: Obj)
    requires Idle(s) && t < |s.threads| && s.threads[t].point == LockOne(o) && o < |s.objs|
    ensures Runs(s, [t]) && Exec(s, [t]) == At(s, t, Section(o)).(owner := map[o := t])
  {
    OneStep(s, t);
  }

  /** The last turn gives the mutex back. */
  lemma UnlockTurn(s: State, t: Tid, o: Obj, r: Return)
    requires t < |s.threads| && s.threads[t].point == Unlock(o, r) && o < |s.objs| && s.owner == map[o := t]
    ensures Runs(s, [t]) && Exec(s, [t]) == At(s, t, Finished(r)).(owner := map[])
  {
    OneStep(s, t);
    assert s.owner - {o} == map[];
  }

  lemma SectionTurn(s: State, t: Tid, o: Obj)
    requires t < |s.threads| && s.threads[t].point == Section(o) && o < |s.objs|
    ensures Runs(s, [t]) && Exec(s, [t]) == SectionStep(s, t, o)
  {
    OneStep(s, t);
  }

  /** Lock, work, unlock. */
  lemma ThreeTurns(s: State, t: Tid, s1: State, s2: State, s3: State)
    requires Runs(s, [t]) && Exec(s, [t]) == s1 && Runs(s1, [t]) && Exec(s1, [t]) == s2 && Runs(s2, [t])
    requires Exec(s2, [t]) == s3
    ensures Runs(s, [t, t, t]) && Exec(s, [t, t, t]) == s3
  {
    hide Runs, Exec;
    Sequenced(s, [t], [t]);
    Sequenced(s, [t] + [t], [t]);
    assert [t] + [t] + [t] == [t, t, t];
  }

  /** Lock, work, two turns in the store, unlock. */
  lemma FiveTurns(s: State, t: Tid, s1: State, s2: State, s3: State, s4: State)
    requires Runs(s, [t]) && Exec(s, [t]) == s1 && Runs(s1, [t]) && Exec(s1, [t]) == s2
    requires Runs(s2, [t, t]) && Exec(s2, [t, t]) == s3 && Runs(s3, [t]) && Exec(s3, [t]) == s4
    ensures Runs(s, [t, t, t, t, t]) && Exec(s, [t, t, t, t, t]) == s4
  {
    hide Runs, Exec;
    Sequenced(s, [t], [t]);
    Sequenced(s, [t] + [t], [t, t]);
    Sequenced(s, [t] + [t] + [t, t], [t]);
    assert [t] + [t] + [t, t] + [t] == [t, t, t, t, t];
  }

  lemma CheckRuns(s: State, t: Tid, o: Obj)
    requires Idle(s) && t < |s.threads| && s.threads[t].point == LockOne(o) && o < |s.objs|
    requires s.threads[t].call.CheckBalance?
    ensures Runs(s, [t, t, t])
    ensures var r := Balance(s.objs[o].balance); Exec(s, [t, t, t]) == Decide(s, t, Finished(r), r)
  {
    hide Runs, Exec;
    var r := Balance(s.objs[o].balance);
    LockTurn(s, t, o);
    var s1 := At(s, t, Section(o)).(owner := map[o := t]);
    SectionTurn(s1, t, o);
    var s2 := Decide(s1, t, Unlock(o, r), r);
    UnlockTurn(s2, t, o, r);
    ThreeTurns(s, t, s1, s2, At(s2, t, Finished(r)).(owner := map[]));
  }

  lemma CloseRuns(s: State, t: Tid, o: Obj)
    requires Idle(s) && t < |s.threads| && s.threads[t].point == LockOne(o) && o < |s.objs|
    requires s.threads[t].call.Close? && s.threads[t].call.id in s.live
    ensures Runs(s, [t, t, t, t, t])
    ensures Exec(s, [t, t, t, t, t]) == Decide(s.(live := s.live - {s.threads[t].call.id}), t, Finished(Closed), Closed)
  {
    hide Runs, Exec, EnterStore, LeaveStore;
    LockTurn(s, t, o);
    var s1 := At(s, t, Section(o)).(owner := map[o := t]);
    SectionTurn(s1, t, o);
    var s2 := At(s1, t, Wanting(Delete(o)));
    StoreTurns(s2, t, Delete(o));
    LockComesBack(At(s2, t, Inside(Delete(o))), t, Delete(o));
    var s3 := Decide(s1.(live := s.live - {s.threads[t].call.id}), t, Unlock(o, Closed), Closed);
    UnlockTurn(s3, t, o, Closed);
    FiveTurns(s, t, s1, s2, s3, At(s3, t, Finished(Closed)).(owner := map[]));
  }

  /** A deposit that finds, when it stores the account back, that the number is gone. */
  lemma LateDepositRuns(s: State, t: Tid, o: Obj)
    requires Idle(s) && t < |s.threads| && s.threads[t].point == LockOne(o) && o < |s.objs|
    requires s.threads[t].call.Deposit? && s.threads[t].call.currency == s.objs[o].currency
    requires s.objs[o].number !in s.live
    ensures Runs(s, [t, t, t, t, t])
    ensures var a := s.threads[t].call.amount;
            Exec(s, [t, t, t, t, t])
            == Decide(AddTo(s, o, a), t, Finished(Failed(StoreNotFound)), Balance(s.objs[o].balance + a))
  {
    hide Runs, Exec, EnterStore, LeaveStore;
    var a, r := s.threads[t].call.amount, Balance(s.objs[o].balance + s.threads[t].call.amount);
    LockTurn(s, t, o);
    var s1 := At(s, t, Section(o)).(owner := map[o := t]);
    SectionTurn(s1, t, o);
    var s2 := Decide(AddTo(s1, o, a), t, Wanting(Update(o)), r);
    StoreTurns(s2, t, Update(o));
    LockComesBack(At(s2, t, Inside(Update(o))), t, Update(o));
    var s3 := Decide(AddTo(s1, o, a), t, Unlock(o, Failed(StoreNotFound)), r);
    UnlockTurn(s3, t, o, Failed(StoreNotFound));
    FiveTurns(s, t, s1, s2, s3, At(s3, t, Finished(Failed(StoreNotFound))).(owner := map[]));
  }

  // ----- transfers -----

  /** The holder of the first account asks for a transfer of a positive amount to the second, in the
      currency of both. */
  predicate Asks(s: State, c: Call, from: Obj, to: Obj) {
    c.Transfer? && c.amount > 0.0 && c.id != c.to && from < |s.objs| && to < |s.objs|
    && s.objs[from].number == c.id && s.objs[to].number == c.to && CheckAuth(s.objs[from], c.name, c.pw) == None
    && s.objs[from].currency == c.currency && s.objs[to].currency == c.currency
  }

  lemma GetAlone(s: State, t: Tid, from: Obj, to: Obj)
    requires StoreFree(s) && t < |s.threads| && Asks(s, s.threads[t].call, from, to)
    requires s.threads[t].call.id in s.live && s.live[s.threads[t].call.id] == from
    ensures StoreStep(EnterStore(At(s, t, Inside(Get)), t, Get), t, Get) == At(s, t, Wanting(GetTo(from)))
  {
    LockComesBack(At(s, t, Inside(Get)), t, Get);
    hide EnterStore, LeaveStore, CheckAuth;
  }

  lemma GetToAlone(s: State, t: Tid, from: Obj, to: Obj)
    requires StoreFree(s) && t < |s.threads| && Asks(s, s.threads[t].call, from, to)
    requires s.threads[t].call.to in s.live && s.live[s.threads[t].call.to] == to
    ensures var op := GetTo(from);
            StoreStep(EnterStore(At(s, t, Inside(op)), t, op), t, op) == At(s, t, LockLow(from, to))
  {
    LockComesBack(At(s, t, Inside(GetTo(from))), t, GetTo(from));
    hide EnterStore, LeaveStore, CheckAuth;
  }

  lemma TransferLookupRuns(s: State, t: Tid, from: Obj, to: Obj)
    requires Idle(s) && t < |s.threads| && s.threads[t].point.Start? && Asks(s, s.threads[t].call, from, to)
    requires var c := s.threads[t].call; c.id in s.live && s.live[c.id] == from && c.to in s.live && s.live[c.to] == to
    ensures Runs(s, [t, t, t, t, t]) && Exec(s, [t, t, t, t, t]) == At(s, t, LockLow(from, to))
  {
    hide EnterStore, StoreStep, Runs, Exec, CheckAuth;
    StartThenStore(s, t, Get);
    GetAlone(s, t, from, to);
    var s1 := At(s, t, Wanting(GetTo(from)));
    StoreTurns(s1, t, GetTo(from));
    AtTwice(s, t, Wanting(GetTo(from)), Inside(GetTo(from)));
    GetToAlone(s, t, from, to);
    Sequenced(s, [t, t, t], [t, t]);
    assert [t, t, t] + [t, t] == [t, t, t, t, t];
  }

  lemma LockBothRuns(s: State, t: Tid, from: Obj, to: Obj)
    requires Idle(s) && t < |s.threads| && s.threads[t].point == LockLow(from, to)
    requires from < |s.objs| && to < |s.objs| && from != to
    ensures Runs(s, [t, t])
    ensures Exec(s, [t, t]) == At(s, t, TransferSection(from, to)).(owner := map[from := t, to := t])
  {
    hide Runs, Exec;
    var low, high := Lower(s, from, to), Higher(s, from, to);
    OneStep(s, t);
    var s1 := At(s, t, LockHigh(from, to)).(owner := map[low := t]);
    assert Step(s, t) == s1;
    OneStep(s1, t);
    assert map[low := t][high := t] == map[from := t, to := t];
    assert Step(s1, t) == At(s, t, TransferSection(from, to)).(owner := map[from := t, to := t]);
    Sequenced(s, [t], [t]);
    assert [t] + [t] == [t, t];
  }

  /** The amount has been moved and the answer decided. */
  function Moved(s: State, t: Tid, from: Obj, to: Obj, p: Point): State
    requires t < |s.threads| && s.threads[t].call.Transfer? && from < |s.objs| && to < |s.objs|
  {
    var a := s.threads[t].call.amount;
    Decide(AddTo(AddTo(s, from, -a), to, a), t, p, Balances(s.objs[from].balance - a, s.objs[to].balance + a))
  }

  lemma MovedElsewhere(s: State, t: Tid, from: Obj, to: Obj, p: Point, q: Point, owner: map<Obj, Tid>)
    requires t < |s.threads| && s.threads[t].call.Transfer? && from < |s.objs| && to < |s.objs|
    ensures Moved(At(s, t, q).(owner := owner), t, from, to, p) == Moved(s, t, from, to, p).(owner := owner)
  {
  }

  /** Both mutexes taken, the money moved: from the lower mutex wanted to the first update wanted. */
  lemma MoveRuns(s: State, t: Tid, from: Obj, to: Obj)
    requires Idle(s) && t < |s.threads| && s.threads[t].point == LockLow(from, to) && s.threads[t].call.Transfer?
    requires from < |s.objs| && to < |s.objs| && from != to && s.objs[from].balance >= s.threads[t].call.amount
    ensures Runs(s, [t, t, t, t])
    ensures Exec(s, [t, t, t, t])
         == Moved(s, t, from, to, Wanting(UpdateFrom(from, to))).(owner := map[from := t, to := t])
  {
    hide Runs, Exec, Moved;
    LockBothRuns(s, t, from, to);
    var s2 := At(s, t, TransferSection(from, to)).(owner := map[from := t, to := t]);
    ThenDebit(s2, t, from, to);
    MovedElsewhere(s, t, from, to, Wanting(UpdateFrom(from, to)), TransferSection(from, to), map[from := t, to := t]);
    Sequenced(s, [t, t], [t, t]);
    assert [t, t] + [t, t] == [t, t, t, t];
  }

  lemma ThenDebit(s: State, t: Tid, from: Obj, to: Obj)
    requires t < |s.threads| && s.threads[t].point == TransferSection(from, to) && s.threads[t].call.Transfer?
    requires from < |s.objs| && to < |s.objs| && from != to && s.objs[from].balance >= s.threads[t].call.amount
    ensures Runs(s, [t, t]) && Exec(s, [t, t]) == Moved(s, t, from, to, Wanting(UpdateFrom(from, to)))
  {
    hide Runs, Exec;
    OneStep(s, t);
    OneStep(DebitStep(s, t, from, to), t);
    Sequenced(s, [t], [t]);
    assert [t] + [t] == [t, t];
  }

  lemma LateUpdateRuns(s: State, t: Tid, from: Obj, to: Obj)
    requires StoreFree(s) && t < |s.threads| && s.threads[t].point == Wanting(UpdateFrom(from, to))
    requires from < |s.objs| && to < |s.objs| && s.objs[from].number !in s.live
    ensures Runs(s, [t, t]) && Exec(s, [t, t]) == At(s, t, Wanting(UpdateTo(from, to)))
  {
    hide Runs, Exec;
    StoreTurns(s, t, UpdateFrom(from, to));
    LockComesBack(At(s, t, Inside(UpdateFrom(from, to))), t, UpdateFrom(from, to));
    hide EnterStore, LeaveStore;
  }

  lemma UpdateRuns(s: State, t: Tid, from: Obj, to: Obj)
    requires StoreFree(s) && t < |s.threads| && s.threads[t].point == Wanting(UpdateTo(from, to))
    requires from < |s.objs| && to < |s.objs| && s.objs[to].number in s.live && s.live[s.objs[to].number] == to
    ensures Runs(s, [t, t])
    ensures Exec(s, [t, t]) == At(s, t, UnlockTo(from, to, Balances(s.objs[from].balance, s.objs[to].balance)))
  {
    hide Runs, Exec;
    StoreTurns(s, t, UpdateTo(from, to));
    LockComesBack(At(s, t, Inside(UpdateTo(from, to))), t, UpdateTo(from, to));
    hide EnterStore, LeaveStore;
  }

  lemma UnlockBothRuns(s: State, t: Tid, from: Obj, to: Obj, r: Return)
    requires t < |s.threads| && s.threads[t].point == UnlockTo(from, to, r)
    requires from < |s.objs| && to < |s.objs| && from != to && s.owner == map[from := t, to := t]
    ensures Runs(s, [t, t]) && Exec(s, [t, t]) == At(s, t, Finished(r)).(owner := map[])
  {
    hide Runs, Exec;
    OneStep(s, t);
    var s1 := At(s, t, Unlock(from, r)).(owner := map[from := t]);
    assert s.owner - {to} == map[from := t];
    assert Step(s, t) == s1;
    UnlockTurn(s1, t, from, r);
    Sequenced(s, [t], [t]);
    assert [t] + [t] == [t, t];
  }

  /** The two updates, of which the first finds its number gone, and the two unlocks. */
  lemma LateUpdatesRun(s: State, t: Tid, from: Obj, to: Obj)
    requires StoreFree(s) && t < |s.threads| && s.threads[t].point == Wanting(UpdateFrom(from, to))
    requires from < |s.objs| && to < |s.objs| && from != to && s.owner == map[from := t, to := t]
    requires s.objs[from].number !in s.live && s.objs[to].number in s.live && s.live[s.objs[to].number] == to
    ensures Runs(s, [t, t, t, t, t, t])
    ensures Exec(s, [t, t, t, t, t, t])
            == At(s, t, Finished(Balances(s.objs[from].balance, s.objs[to].balance))).(owner := map[])
  {
    hide Runs, Exec, StateAt;
    var r := Balances(s.objs[from].balance, s.objs[to].balance);
    LateUpdateRuns(s, t, from, to);
    var s1 := At(s, t, Wanting(UpdateTo(from, to)));
    UpdateRuns(s1, t, from, to);
    var s2 := At(s1, t, UnlockTo(from, to, r));
    UnlockBothRuns(s2, t, from, to, r);
    var s3 := At(s2, t, Finished(r)).(owner := map[]);
    assert s3 == At(s, t, Finished(r)).(owner := map[]);
    Joined(s, t, s1, s2, s3);
  }

  lemma Joined(s: State, t: Tid, s1: State, s2: State, s3: State)
    requires Runs(s, [t, t]) && Exec(s, [t, t]) == s1 && Runs(s1, [t, t]) && Exec(s1, [t, t]) == s2
    requires Runs(s2, [t, t]) && Exec(s2, [t, t]) == s3
    ensures Runs(s, [t, t, t, t, t, t]) && Exec(s, [t, t, t, t, t, t]) == s3
  {
    hide Runs, Exec, StateAt;
    Sequenced(s, [t, t], [t, t]);
    Sequenced(s, [t, t] + [t, t], [t, t]);
    assert [t, t] + [t, t] + [t, t] == [t, t, t, t, t, t];
  }

  lemma MovedOn(s: State, t: Tid, from: Obj, to: Obj, p: Point, q: Point, owner: map<Obj, Tid>)
    requires t < |s.threads| && s.threads[t].call.Transfer? && from < |s.objs| && to < |s.objs| && from != to
    ensures var s', a := Moved(s, t, from, to, p), s.threads[t].call.amount;
            At(s'.(owner := owner), t, q).(owner := map[]) == Moved(s, t, from, to, q).(owner := map[])
            && s'.objs[from] == s.objs[from].(balance := s.objs[from].balance - a)
            && s'.objs[to] == s.objs[to].(balance := s.objs[to].balance + a)
            && s'.threads[t].point == p && |s'.threads| == |s.threads| && |s'.objs| == |s.objs|
            && s'.live == s.live && s'.writer == s.writer && s'.readers == s.readers
            && Moved(s, t, from, to, q).owner == s.owner
  {
  }

  /** A transfer from an account closed after it was looked up: it succeeds all the same. */
  lemma LateTransferRuns(s: State, t: Tid, from: Obj, to: Obj)
    requires Idle(s) && t < |s.threads| && s.threads[t].point == LockLow(from, to) && s.threads[t].call.Transfer?
    requires from < |s.objs| && to < |s.objs| && from != to && s.objs[from].balance >= s.threads[t].call.amount
    requires s.objs[from].number !in s.live && s.objs[to].number in s.live && s.live[s.objs[to].number] == to
    ensures Runs(s, [t, t, t, t] + [t, t, t, t, t, t])
    ensures var a := s.threads[t].call.amount;
            Exec(s, [t, t, t, t] + [t, t, t, t, t, t])
            == Moved(s, t, from, to, Finished(Balances(s.objs[from].balance - a, s.objs[to].balance + a)))
  {
    hide Runs, Exec, Moved, At;
    var a := s.threads[t].call.amount;
    var q := Finished(Balances(s.objs[from].balance - a, s.objs[to].balance + a));
    MoveRuns(s, t, from, to);
    MovedOn(s, t, from, to, Wanting(UpdateFrom(from, to)), q, map[from := t, to := t]);
    var s1 := Moved(s, t, from, to, Wanting(UpdateFrom(from, to))).(owner := map[from := t, to := t]);
    LateUpdatesRun(s1, t, from, to);
    Sequenced(s, [t, t, t, t], [t, t, t, t, t, t]);
  }
}
