/** Who may do what to an account in whatever interleaving: taking money, closing and every successful answer
    need the account's password and its holder's name, whether or not the account is closed meanwhile. */
module ConcurrentBankRules {
  import opened Bytes
  import opened Bank
  import opened ConcurrentBank
  import opened ConcurrentBankProofs

  /** The call names this account, its password and its holder. */
  predicate IsHolders(c: Call, a: Account) {
    !c.Open? && c.id == a.number && c.pw == a.password && c.name == a.holder
  }

  ghost predicate HasHolders(s: State, c: Call) {
    exists o: Obj :: o < |s.objs| && IsHolders(c, s.objs[o])
  }

  /** What a step made for call c may do to an account: take the amount from the holder's own, or add it, to the
      holder's own in a deposit and to the account named in a transfer. Nothing else about it ever changes. */
  ghost predicate MayChange(s: State, c: Call, before: Account, after: Account) {
    after == before.(balance := after.balance)
    && (after.balance < before.balance ==>
          (c.Withdraw? || c.Transfer?) && IsHolders(c, before) && c.currency == before.currency
          && after.balance == before.balance - c.amount)
    && (after.balance > before.balance ==>
          (c.Deposit? || c.Transfer?) && c.currency == before.currency && after.balance == before.balance + c.amount
          && (c.Deposit? ==> IsHolders(c, before))
          && (c.Transfer? ==> before.number == c.to && HasHolders(s, c)))
  }

  ghost predicate MayStep(s: State, s': State, c: Call) {
    |s.objs| <= |s'.objs|
    && (forall o: Obj | o < |s.objs| :: MayChange(s, c, s.objs[o], s'.objs[o]))
    && (forall n <- s.live | n !in s'.live :: c.Close? && s.live[n] < |s.objs| && IsHolders(c, s.objs[s.live[n]]))
  }

  lemma GrantedIsHolders(objs: seq<Account>, c: Call, o: Obj)
    requires Granted(objs, c, o)
    ensures IsHolders(c, objs[o])
  {
  }

  lemma StoreMay(s: State, t: Tid, op: StoreOp)
    requires t < |s.threads| && OpOk(s.objs, s.threads[t].call, op) && NumbersMatch(s)
    ensures MayStep(s, StoreStep(s, t, op), s.threads[t].call)
  {
    hide CheckAuth, IsHolders, Granted, GrantedBoth;
    if op.Delete? {
      NamesItsObject(s, s.threads[t].call, op.obj);
    }
  }

  /** A live number the caller was granted leads to the object it was granted. */
  lemma NamesItsObject(s: State, c: Call, o: Obj)
    requires Granted(s.objs, c, o) && NumbersMatch(s)
    ensures c.id in s.live ==> s.live[c.id] == o && IsHolders(c, s.objs[o])
  {
    GrantedIsHolders(s.objs, c, o);
  }

  lemma SectionMay(s: State, t: Tid, o: Obj)
    requires t < |s.threads| && s.threads[t].point == Section(o) && PointOk(s.objs, s.threads[t].call, Section(o))
    ensures MayStep(s, SectionStep(s, t, o), s.threads[t].call)
  {
    GrantedIsHolders(s.objs, s.threads[t].call, o);
    hide CheckAuth, IsHolders, HasHolders;
  }

  lemma TransferMay(s: State, t: Tid, from: Obj, to: Obj)
    requires t < |s.threads| && GrantedBoth(s.objs, s.threads[t].call, from, to)
    ensures MayStep(s, DebitStep(s, t, from, to), s.threads[t].call)
    ensures MayStep(s, CreditStep(s, t, from, to), s.threads[t].call)
  {
    GrantedIsHolders(s.objs, s.threads[t].call, from);
    hide CheckAuth, IsHolders;
  }

  lemma StepMay(s: State, t: Tid)
    requires Enabled(s, t) && Inv(s)
    ensures MayStep(s, Step(s, t), s.threads[t].call)
  {
    hide StoreStep, SectionStep, DebitStep, CreditStep, Lower, Higher, Held, CheckAuth;
    assert PointOk(s.objs, s.threads[t].call, s.threads[t].point);
    match s.threads[t].point
    case Inside(op) => StoreMay(s, t, op);
    case Section(o) => SectionMay(s, t, o);
    case TransferSection(from, to) => TransferMay(s, t, from, to);
    case Credit(from, to) => TransferMay(s, t, from, to);
    case _ =>
  }

  /** In every reachable state of every interleaving, closing included: no enabled step takes money from an account,
      adds any, or removes one from the store, unless its thread's call is entitled to. */
  lemma {:induction false} OnlyTheHolderTakes(calls: seq<Call>, schedule: Schedule, t: Tid)
    requires |OpenCalls(calls)| < ID_SPACE - FIRST_ID && Runs(Initial(calls), schedule)
    requires Enabled(Exec(Initial(calls), schedule), t)
    ensures var s := Exec(Initial(calls), schedule); MayStep(s, Step(s, t), s.threads[t].call)
  {
    hide Inv, Runs, Exec, Initial, Step, MayStep;
    InitialInv(calls);
    RunKeepsInv(Initial(calls), schedule);
    StepMay(Exec(Initial(calls), schedule), t);
  }

  // ----- nobody else is answered -----

  /** Every thread that finished a call on an account without an error was its holder. */
  ghost predicate Earned(s: State) {
    forall t: Tid | t < |s.threads| && Succeeded(s.threads[t]) :: HasHolders(s, s.threads[t].call)
  }

  lemma HasHoldersStays(s: State, s': State, c: Call)
    requires Extends(s.objs, s'.objs) && HasHolders(s, c)
    ensures HasHolders(s', c)
  {
    var o: Obj :| o < |s.objs| && IsHolders(c, s.objs[o]);
    assert IsHolders(c, s'.objs[o]);
  }

  /** Finished, on an account and without an error. */
  predicate Succeeded(th: Thread) {
    th.point.Finished? && !th.point.result.Failed? && !th.call.Open?
  }

  lemma StoreDoesNotFinish(s: State, t: Tid, op: StoreOp)
    requires t < |s.threads| && OpOk(s.objs, s.threads[t].call, op) && s.threads[t].point == Inside(op)
    ensures var s' := StoreStep(s, t, op); |s'.threads| == |s.threads| && !Succeeded(s'.threads[t])
  {
    hide CheckAuth;
  }

  lemma FinishingStep(s: State, s': State, t: Tid)
    requires Enabled(s, t) && PointsOk(s) && s' == Step(s, t) && Moves(s, s', t) && Succeeded(s'.threads[t])
    ensures HasHolders(s, s.threads[t].call)
  {
    hide StoreStep, Lower, Higher, Held, CheckAuth;
    assert PointOk(s.objs, s.threads[t].call, s.threads[t].point);
    if s.threads[t].point.Unlock? {
      GrantedIsHolders(s.objs, s.threads[t].call, s.threads[t].point.obj);
    } else if s.threads[t].point.Inside? {
      StoreDoesNotFinish(s, t, s.threads[t].point.op);
      assert false;
    }
  }

  lemma StepKeepsEarned(s: State, t: Tid)
    requires Enabled(s, t) && Inv(s) && Earned(s)
    ensures Earned(Step(s, t))
  {
    hide Step, HasHolders, Enabled, NumbersMatch, Counted, PointsOk, MutexesOk, StoreLockOk;
    var s' := Step(s, t);
    StepMoves(s, t);
    forall u: Tid | u < |s'.threads| && Succeeded(s'.threads[u])
      ensures HasHolders(s', s'.threads[u].call)
    {
      if u == t {
        FinishingStep(s, s', t);
      }
      HasHoldersStays(s, s', s'.threads[u].call);
    }
  }

  lemma {:induction false} RunKeepsEarned(s: State, schedule: Schedule)
    requires Inv(s) && Earned(s) && Runs(s, schedule)
    ensures Earned(Exec(s, schedule))
    decreases |schedule|
  {
    hide Step, Inv, Earned;
    if schedule != [] {
      StepKeepsInv(s, schedule[0]);
      StepKeepsEarned(s, schedule[0]);
      RunKeepsEarned(Step(s, schedule[0]), schedule[1..]);
    }
  }

  /** In every interleaving a call on an account that returned anything but an error named that account's password
      and holder. */
  lemma {:induction false} OnlyTheHolderIsAnswered(calls: seq<Call>, schedule: Schedule, t: Tid)
    requires |OpenCalls(calls)| < ID_SPACE - FIRST_ID && Runs(Initial(calls), schedule)
    requires var s := Exec(Initial(calls), schedule);
             t < |s.threads| && s.threads[t].point.Finished? && !s.threads[t].point.result.Failed?
             && !s.threads[t].call.Open?
    ensures var s, c := Exec(Initial(calls), schedule), Exec(Initial(calls), schedule).threads[t].call;
            exists o: Obj :: o < |s.objs| && c.id == s.objs[o].number && c.pw == s.objs[o].password
                             && c.name == s.objs[o].holder
  {
    InitialInv(calls);
    assert Earned(Initial(calls));
    hide Inv, Runs, Exec, Initial;
    RunKeepsEarned(Initial(calls), schedule);
    var s, c := Exec(Initial(calls), schedule), Exec(Initial(calls), schedule).threads[t].call;
    assert HasHolders(s, c);
    var o: Obj :| o < |s.objs| && IsHolders(c, s.objs[o]);
    assert c.id == s.objs[o].number;
  }
}
