/** Races with a closing, for every account and amount: an account is closed between another call's
    lookup and its lock. */
module CloseRace {
  import opened Bytes
  import opened Bank
  import opened ConcurrentBank
  import opened ConcurrentBankProofs
  import opened Linearizability
  import opened LinearizabilityLimits
  import opened Reordering
  import opened SoloRuns

  /** An opening, then another call on the account it makes and the closing of that account. */
  function RacingCalls(a: Account, c: Call): seq<Call> {
    [Open(a.holder, a.password, a.currency, a.balance), c, Close(a.holder, FIRST_ID, a.password)]
  }

  /** A call by the account's holder that goes as far as the mutex. */
  predicate Races(a: Account, c: Call) {
    a.number == FIRST_ID && (c.CheckBalance? || (c.Deposit? && c.amount > 0.0 && c.currency == a.currency))
    && c.id == FIRST_ID && c.name == a.holder && c.pw == a.password
  }

  /** The opening runs; the call looks the account up; the closing runs. */
  const UNTIL_CLOSED: Schedule := [0, 0, 0] + [1, 1, 1] + [2, 2, 2] + [2, 2, 2, 2, 2]

  lemma UntilClosed(a: Account, c: Call)
    requires Races(a, c)
    ensures Runs(Initial(RacingCalls(a, c)), UNTIL_CLOSED)
    ensures var cs := RacingCalls(a, c);
            var s := Exec(Initial(cs), UNTIL_CLOSED);
            Idle(s) && s.objs == [a] && s.live == map[]
            && s.threads == [Thread(cs[0], Finished(Opened(FIRST_ID)), Some(Opened(FIRST_ID))),
                             Thread(c, LockOne(0), None),
                             Thread(cs[2], Finished(Closed), Some(Closed))]
  {
    hide Runs, Exec, StateAt;
    var s0 := Initial(RacingCalls(a, c));
    OpenRuns(s0, 0);
    var s1 := AfterOpening(s0, 0);
    assert s1.objs == [a];
    LookupRuns(s1, 1, 0);
    Sequenced(s0, [0, 0, 0], [1, 1, 1]);
    var s2 := At(s1, 1, LockOne(0));
    LookupRuns(s2, 2, 0);
    Sequenced(s0, [0, 0, 0] + [1, 1, 1], [2, 2, 2]);
    var s3 := At(s2, 2, LockOne(0));
    CloseRuns(s3, 2, 0);
    Sequenced(s0, [0, 0, 0] + [1, 1, 1] + [2, 2, 2], [2, 2, 2, 2, 2]);
  }

  /** A deposit can lose the race: it fails with the store's not-found error although the closed account
      has been credited. No order of the three calls explains the run. */
  lemma DepositLosesRace(a: Account, c: Call)
    requires Races(a, c) && c.Deposit?
    ensures var cs, schedule := RacingCalls(a, c), UNTIL_CLOSED + [1, 1, 1, 1, 1];
            Runs(Initial(cs), schedule)
            && var s := Exec(Initial(cs), schedule);
               AllFinished(s) && |s.threads| == 3 && s.threads[1].point == Finished(Failed(StoreNotFound))
               && s.objs == [a.(balance := a.balance + c.amount)] && s.live == map[]
               && !IsLinearizable(cs, schedule)
  {
    var cs := RacingCalls(a, c);
    UntilClosed(a, c);
    hide Runs, Exec, StateAt, IsLinearizable;
    var s := Exec(Initial(cs), UNTIL_CLOSED);
    LateDepositRuns(s, 1, 0);
    Sequenced(Initial(cs), UNTIL_CLOSED, [1, 1, 1, 1, 1]);
    StoreErrorIsUnexplained(cs, UNTIL_CLOSED + [1, 1, 1, 1, 1], 1);
  }

  lemma {:induction false} StaleLater(s: State, a: Schedule, b: Schedule)
    requires Runs(s, a) && Runs(Exec(s, a), b) && Runs(s, a + b) && !NeverStale(Exec(s, a), b)
    ensures !NeverStale(s, a + b)
    decreases |a|
  {
    if a == [] {
      assert a + b == b;
    } else {
      hide Step, Enabled, Stale;
      assert (a + b)[1..] == a[1..] + b;
      StaleLater(Step(s, a[0]), a[1..], b);
    }
  }

  /** A balance enquiry does not lose it: it reads the closed account, so the order of the decisive steps
      does not explain the run, but another order does. */
  lemma EnquirySurvivesRace(a: Account, c: Call)
    requires Races(a, c) && c.CheckBalance?
    ensures var cs, schedule := RacingCalls(a, c), UNTIL_CLOSED + [1, 1, 1];
            Runs(Initial(cs), schedule)
            && var s := Exec(Initial(cs), schedule);
               AllFinished(s) && |s.threads| == 3 && s.threads[1].point == Finished(Balance(a.balance))
               && !NeverStale(Initial(cs), schedule) && !Linearized(s) && IsLinearizable(cs, schedule)
  {
    var cs, schedule := RacingCalls(a, c), UNTIL_CLOSED + [1, 1, 1];
    UntilClosed(a, c);
    var s := Exec(Initial(cs), UNTIL_CLOSED);
    StaleEnquiry(s, a);
    hide Runs, Exec, StateAt, IsLinearizable, NeverStale, Linearized;
    CheckRuns(s, 1, 0);
    Sequenced(Initial(cs), UNTIL_CLOSED, [1, 1, 1]);
    StaleLater(Initial(cs), UNTIL_CLOSED, [1, 1, 1]);
    assert OpenCalls(cs) == {0};
    LinearizableExactly(cs, schedule);
    LinearizableWithoutTransfer(cs, schedule);
  }

  lemma StaleEnquiry(s: State, a: Account)
    requires Idle(s) && s.objs == [a] && s.live == map[] && |s.threads| == 3
    requires s.threads[1].point == LockOne(0) && s.threads[1].call.CheckBalance?
    ensures Runs(s, [1, 1, 1]) && !NeverStale(s, [1, 1, 1])
  {
    CheckRuns(s, 1, 0);
    assert [1, 1, 1][1..] == [1, 1] && [1, 1][0] == 1;
    assert Stale(Step(s, 1), 1);
  }
}
