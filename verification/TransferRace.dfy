/** Why transfers have no such rule: of two runs of the same calls, in both of which a transfer takes
    money from an account closed since it was looked up and nothing is refused by the store, one is
    explained by an order and the other by none. What decides is what another call saw meanwhile. */
module TransferRace {
  import opened Bytes
  import opened Bank
  import opened ConcurrentBank
  import opened ConcurrentBankProofs
  import opened ConcurrentBankTheorems
  import opened Linearizability
  import opened Reordering
  import opened SoloRuns

  const SECOND_ID: u32 := FIRST_ID + 1

  /** Two openings, a transfer between the accounts, the closing of the first and an enquiry about the second. */
  function RacingCalls(a: Account, b: Account, amount: real): seq<Call> {
    [Open(a.holder, a.password, a.currency, a.balance), Open(b.holder, b.password, b.currency, b.balance),
     Transfer(a.holder, FIRST_ID, a.password, SECOND_ID, a.currency, amount), Close(a.holder, FIRST_ID, a.password),
     CheckBalance(b.holder, SECOND_ID, b.password)]
  }

  predicate Races(a: Account, b: Account, amount: real) {
    a.number == FIRST_ID && b.number == SECOND_ID && a.currency == b.currency && 0.0 < amount <= a.balance
  }

  /** The openings run, the transfer looks both accounts up, the closing runs. */
  const UNTIL_CLOSED: Schedule := [0, 0, 0] + [1, 1, 1] + [2, 2, 2, 2, 2] + [3, 3, 3] + [3, 3, 3, 3, 3]

  const TRANSFER: Schedule := [2, 2, 2, 2] + [2, 2, 2, 2, 2, 2]

  const ENQUIRY: Schedule := [4, 4, 4] + [4, 4, 4]

  function Answered(c: Call, r: Return): Thread {
    Thread(c, Finished(r), Some(r))
  }

  lemma BothOpened(a: Account, b: Account, amount: real)
    requires Races(a, b, amount)
    ensures var cs := RacingCalls(a, b, amount);
            Runs(Initial(cs), [0, 0, 0] + [1, 1, 1])
            && var s := Exec(Initial(cs), [0, 0, 0] + [1, 1, 1]);
               Idle(s) && s.objs == [a, b] && s.live == map[FIRST_ID := 0, SECOND_ID := 1] && s.nextId == SECOND_ID + 1
               && s.threads == [Answered(cs[0], Opened(FIRST_ID)), Answered(cs[1], Opened(SECOND_ID)),
                                Thread(cs[2], Start, None), Thread(cs[3], Start, None), Thread(cs[4], Start, None)]
  {
    hide Runs, Exec, StateAt;
    var s0 := Initial(RacingCalls(a, b, amount));
    OpenRuns(s0, 0);
    var s1 := AfterOpening(s0, 0);
    OpenRuns(s1, 1);
    Sequenced(s0, [0, 0, 0], [1, 1, 1]);
  }

  lemma BothLookedUp(a: Account, b: Account, amount: real)
    requires Races(a, b, amount)
    ensures var cs := RacingCalls(a, b, amount);
            Runs(Initial(cs), [0, 0, 0] + [1, 1, 1] + [2, 2, 2, 2, 2])
            && var s := Exec(Initial(cs), [0, 0, 0] + [1, 1, 1] + [2, 2, 2, 2, 2]);
               Idle(s) && s.objs == [a, b] && s.live == map[FIRST_ID := 0, SECOND_ID := 1] && s.nextId == SECOND_ID + 1
               && s.threads == [Answered(cs[0], Opened(FIRST_ID)), Answered(cs[1], Opened(SECOND_ID)),
                                Thread(cs[2], LockLow(0, 1), None), Thread(cs[3], Start, None),
                                Thread(cs[4], Start, None)]
  {
    BothOpened(a, b, amount);
    hide Runs, Exec, StateAt;
    var s0 := Initial(RacingCalls(a, b, amount));
    var s1 := Exec(s0, [0, 0, 0] + [1, 1, 1]);
    TransferLookupRuns(s1, 2, 0, 1);
    Sequenced(s0, [0, 0, 0] + [1, 1, 1], [2, 2, 2, 2, 2]);
  }

  lemma UntilClosed(a: Account, b: Account, amount: real)
    requires Races(a, b, amount)
    ensures var cs := RacingCalls(a, b, amount);
            Runs(Initial(cs), UNTIL_CLOSED)
            && var s := Exec(Initial(cs), UNTIL_CLOSED);
               Idle(s) && s.objs == [a, b] && s.live == map[SECOND_ID := 1] && s.nextId == SECOND_ID + 1
               && s.threads == [Answered(cs[0], Opened(FIRST_ID)), Answered(cs[1], Opened(SECOND_ID)),
                                Thread(cs[2], LockLow(0, 1), None), Answered(cs[3], Closed), Thread(cs[4], Start, None)]
  {
    BothLookedUp(a, b, amount);
    hide Runs, Exec, StateAt;
    var s0 := Initial(RacingCalls(a, b, amount));
    var s2 := Exec(s0, [0, 0, 0] + [1, 1, 1] + [2, 2, 2, 2, 2]);
    LookupRuns(s2, 3, 0);
    Sequenced(s0, [0, 0, 0] + [1, 1, 1] + [2, 2, 2, 2, 2], [3, 3, 3]);
    var s3 := At(s2, 3, LockOne(0));
    CloseRuns(s3, 3, 0);
    Sequenced(s0, [0, 0, 0] + [1, 1, 1] + [2, 2, 2, 2, 2] + [3, 3, 3], [3, 3, 3, 3, 3]);
    assert map[FIRST_ID := 0, SECOND_ID := 1] - {FIRST_ID} == map[SECOND_ID := 1];
  }

  /** The enquiry alone. */
  lemma EnquiryRuns(s: State, t: Tid, b: Account)
    requires Idle(s) && t < |s.threads| && s.threads[t].point.Start? && |s.objs| == 2 && s.live == map[SECOND_ID := 1]
    requires s.objs[1] == b && s.threads[t].call == CheckBalance(b.holder, SECOND_ID, b.password)
    ensures Runs(s, [t, t, t] + [t, t, t])
    ensures Exec(s, [t, t, t] + [t, t, t]) == Decide(s, t, Finished(Balance(b.balance)), Balance(b.balance))
  {
    hide Runs, Exec, StateAt;
    LookupRuns(s, t, 1);
    var s1 := At(s, t, LockOne(1));
    CheckRuns(s1, t, 1);
    Sequenced(s, [t, t, t], [t, t, t]);
  }

  /** Both runs end like this, but for what the enquiry returned. */
  ghost predicate EndsWith(s: State, a: Account, b: Account, amount: real, seen: real) {
    var cs := RacingCalls(a, b, amount);
    Idle(s) && s.objs == [a.(balance := a.balance - amount), b.(balance := b.balance + amount)]
    && s.live == map[SECOND_ID := 1] && s.nextId == SECOND_ID + 1
    && s.threads == [Answered(cs[0], Opened(FIRST_ID)), Answered(cs[1], Opened(SECOND_ID)),
                     Answered(cs[2], Balances(a.balance - amount, b.balance + amount)), Answered(cs[3], Closed),
                     Answered(cs[4], Balance(seen))]
  }

  lemma EnquiryFirst(a: Account, b: Account, amount: real)
    requires Races(a, b, amount)
    ensures var cs := RacingCalls(a, b, amount);
            Runs(Initial(cs), UNTIL_CLOSED + ENQUIRY + TRANSFER)
            && EndsWith(Exec(Initial(cs), UNTIL_CLOSED + ENQUIRY + TRANSFER), a, b, amount, b.balance)
  {
    UntilClosed(a, b, amount);
    hide Runs, Exec, StateAt;
    var s0 := Initial(RacingCalls(a, b, amount));
    var s1 := Exec(s0, UNTIL_CLOSED);
    EnquiryRuns(s1, 4, b);
    Sequenced(s0, UNTIL_CLOSED, ENQUIRY);
    var s2 := Decide(s1, 4, Finished(Balance(b.balance)), Balance(b.balance));
    LateTransferRuns(s2, 2, 0, 1);
    Sequenced(s0, UNTIL_CLOSED + ENQUIRY, TRANSFER);
  }

  lemma TransferFirst(a: Account, b: Account, amount: real)
    requires Races(a, b, amount)
    ensures var cs := RacingCalls(a, b, amount);
            Runs(Initial(cs), UNTIL_CLOSED + TRANSFER + ENQUIRY)
            && EndsWith(Exec(Initial(cs), UNTIL_CLOSED + TRANSFER + ENQUIRY), a, b, amount, b.balance + amount)
  {
    UntilClosed(a, b, amount);
    hide Runs, Exec, StateAt;
    var s0 := Initial(RacingCalls(a, b, amount));
    var s1 := Exec(s0, UNTIL_CLOSED);
    LateTransferRuns(s1, 2, 0, 1);
    Sequenced(s0, UNTIL_CLOSED, TRANSFER);
    var s2 := Exec(s0, UNTIL_CLOSED + TRANSFER);
    EnquiryRuns(s2, 4, b.(balance := b.balance + amount));
    Sequenced(s0, UNTIL_CLOSED + TRANSFER, ENQUIRY);
  }

  // ----- the run that no order explains -----

  lemma {:induction false} StateAtPrefix(s: State, a: Schedule, schedule: Schedule)
    requires a <= schedule && Runs(s, schedule)
    ensures Runs(s, a) && StateAt(s, schedule, |a|) == Exec(s, a)
    decreases |a|
  {
    if a != [] {
      hide Step, Enabled;
      StateAtPrefix(Step(s, a[0]), a[1..], schedule[1..]);
    }
  }

  /** Where the five calls stand in an order of them. */
  ghost predicate Positions(order: seq<Entry>, k: seq<nat>) {
    |k| == 5 && (forall i: nat | i < 5 :: k[i] < |order| && order[k[i]].tid == i)
    && (forall i: nat | i < |order| :: order[i].tid < 5)
    && (forall i: nat, j: nat | i < j < |order| :: order[i].tid != order[j].tid)
  }

  lemma FivePlaces(order: seq<Entry>, k: seq<nat>)
    requires Positions(order, k) && k[0] < k[1] && k[1] < k[2] && k[1] < k[3] < k[4]
    ensures |order| == 5 && k[0] == 0 && k[1] == 1
    ensures (k[2] == 2 && k[3] == 3 && k[4] == 4) || (k[2] > 2 && k[3] == 2)
  {
    forall i: nat | i < |order| ensures order[i].tid < 5 && k[order[i].tid] == i {
    }
    if |order| > 5 {
      SixInFive(order[0].tid, order[1].tid, order[2].tid, order[3].tid, order[4].tid, order[5].tid);
    }
    assert k[order[0].tid] == 0 && k[order[1].tid] == 1 && k[order[2].tid] == 2;
  }

  lemma SixInFive(a: nat, b: nat, c: nat, d: nat, e: nat, f: nat)
    requires a < 5 && b < 5 && c < 5 && d < 5 && e < 5 && f < 5
    ensures a == b || a == c || a == d || a == e || a == f || b == c || b == d || b == e || b == f || c == d || c == e
            || c == f || d == e || d == f || e == f
  {
  }

  // ----- what the calls return in the orders that remain -----

  function BothOpen(a: Account, b: Account): Bank {
    Bank(map[FIRST_ID := a, SECOND_ID := b], SECOND_ID + 1)
  }

  lemma AfterOpenings(a: Account, b: Account, amount: real, order: seq<Entry>)
    requires Races(a, b, amount) && |order| >= 2
    requires var cs := RacingCalls(a, b, amount); order[0].call == cs[0] && order[1].call == cs[1]
    ensures After(CallsOf(order[..2])) == BothOpen(a, b)
  {
    hide CallsOf;
    assert order[..0] == [] && order[..1] == order[..0] + [order[0]] && order[..2] == order[..1] + [order[1]];
    AfterSnoc(order[..0], order[0]);
    AfterSnoc(order[..1], order[1]);
    assert CallsOf([]) == [] by { NoCalls(); }
  }

  lemma NoCalls()
    ensures CallsOf([]) == []
  {
  }

  /** After the transfer the second account has the money, whatever the closing does. */
  lemma SeenAfterTransfer(a: Account, b: Account, amount: real, order: seq<Entry>)
    requires Races(a, b, amount) && |order| == 5
    requires var cs := RacingCalls(a, b, amount); forall i: nat | i < 5 :: order[i].call == cs[i]
    ensures Apply(After(CallsOf(order[..4])), order[4].call).1 == Balance(b.balance + amount)
  {
    CallsInTurn(a, b, amount);
    hide CallsOf, After, Apply, BothOpen;
    AfterOpenings(a, b, amount, order);
    assert order[..3] == order[..2] + [order[2]] && order[..4] == order[..3] + [order[3]];
    AfterSnoc(order[..2], order[2]);
    AfterSnoc(order[..3], order[3]);
  }

  /** After the closing there is nothing to take the money from. */
  lemma TransferAfterClosing(a: Account, b: Account, amount: real, order: seq<Entry>, k: nat)
    requires Races(a, b, amount) && |order| == 5 && (k == 3 || k == 4)
    requires var cs := RacingCalls(a, b, amount);
             order[0].call == cs[0] && order[1].call == cs[1] && order[2].call == cs[3] && order[k].call == cs[2]
             && (k == 4 ==> order[3].call == cs[4])
    ensures Apply(After(CallsOf(order[..k])), order[k].call).1 == Failed(InvalidCredentials)
  {
    hide CallsOf, After;
    AfterOpenings(a, b, amount, order);
    assert order[..3] == order[..2] + [order[2]] && order[..4] == order[..3] + [order[3]];
    AfterSnoc(order[..2], order[2]);
    AfterSnoc(order[..3], order[3]);
  }

  lemma FirstOpened(a: Account, b: Account, amount: real)
    requires Races(a, b, amount)
    ensures Runs(Initial(RacingCalls(a, b, amount)), [0, 0, 0])
    ensures var s := Exec(Initial(RacingCalls(a, b, amount)), [0, 0, 0]); Ended(s, 0) && Unbegun(s, 1)
  {
    OpenRuns(Initial(RacingCalls(a, b, amount)), 0);
    hide Runs, Exec;
  }

  /** What real time asks of any order that explains a run which begins like these. */
  lemma RealTimeAsks(a: Account, b: Account, amount: real, schedule: Schedule, order: seq<Entry>, i: nat, j: nat)
    requires Races(a, b, amount) && UNTIL_CLOSED <= schedule && Runs(Initial(RacingCalls(a, b, amount)), schedule)
    requires InRealTime(Initial(RacingCalls(a, b, amount)), schedule, order)
    requires i < |order| && j < |order|
    requires (order[i].tid == 0 && order[j].tid == 1) || (order[i].tid == 1 && 2 <= order[j].tid <= 4)
             || (order[i].tid == 3 && order[j].tid == 4)
    ensures i < j
  {
    FirstOpened(a, b, amount);
    BothOpened(a, b, amount);
    UntilClosed(a, b, amount);
    hide Runs, Exec, StateAt, Initial;
    var s0 := Initial(RacingCalls(a, b, amount));
    var first, both: Schedule := [0, 0, 0], [0, 0, 0] + [1, 1, 1];
    assert first <= schedule && both <= schedule;
    StateAtPrefix(s0, first, schedule);
    StateAtPrefix(s0, both, schedule);
    StateAtPrefix(s0, UNTIL_CLOSED, schedule);
    var k := if order[i].tid == 0 then |first| else if order[i].tid == 1 then |both| else |UNTIL_CLOSED|;
    assert Ended(StateAt(s0, schedule, k), order[i].tid) && Unbegun(StateAt(s0, schedule, k), order[j].tid);
  }

  lemma PlaceOf(cs: seq<Call>, schedule: Schedule, order: seq<Entry>, t: Tid) returns (k: nat)
    requires Runs(Initial(cs), schedule) && Explains(cs, schedule, order) && Ended(Exec(Initial(cs), schedule), t)
    ensures k < |order| && order[k].tid == t && order[k].result == Exec(Initial(cs), schedule).threads[t].point.result
  {
    hide Runs, Exec, StateAt, Initial, Legal, InRealTime, Stored, After, CallsOf;
    assert Logged(order, t);
    k :| k < |order| && order[k].tid == t;
  }

  lemma ExplainedIs(cs: seq<Call>, schedule: Schedule, order: seq<Entry>)
    requires Runs(Initial(cs), schedule) && Explains(cs, schedule, order)
    ensures Legal(order) && InRealTime(Initial(cs), schedule, order)
    ensures forall i: nat, j: nat | i < j < |order| :: order[i].tid != order[j].tid
    ensures forall i: nat | i < |order| ::
              order[i].tid < |Exec(Initial(cs), schedule).threads|
              && order[i].call == Exec(Initial(cs), schedule).threads[order[i].tid].call
  {
    hide Runs, Exec, StateAt, Initial, After, CallsOf, Apply, InRealTime;
  }

  lemma PlacesOf(a: Account, b: Account, amount: real, seen: real, schedule: Schedule, order: seq<Entry>)
    returns (k: seq<nat>)
    requires Races(a, b, amount) && UNTIL_CLOSED <= schedule && Runs(Initial(RacingCalls(a, b, amount)), schedule)
    requires EndsWith(Exec(Initial(RacingCalls(a, b, amount)), schedule), a, b, amount, seen)
    requires Explains(RacingCalls(a, b, amount), schedule, order)
    ensures Positions(order, k) && k[0] < k[1] && k[1] < k[2] && k[1] < k[3] < k[4]
    ensures forall i: nat | i < |order| :: order[i].call == RacingCalls(a, b, amount)[order[i].tid]
    ensures order[k[2]].result == Balances(a.balance - amount, b.balance + amount)
    ensures order[k[4]].result == Balance(seen)
  {
    hide Runs, Exec, StateAt, Initial, Legal, InRealTime, Explains;
    var cs := RacingCalls(a, b, amount);
    ExplainedIs(cs, schedule, order);
    var k0 := PlaceOf(cs, schedule, order, 0);
    var k1 := PlaceOf(cs, schedule, order, 1);
    var k2 := PlaceOf(cs, schedule, order, 2);
    var k3 := PlaceOf(cs, schedule, order, 3);
    var k4 := PlaceOf(cs, schedule, order, 4);
    k := [k0, k1, k2, k3, k4];
    RealTimeAsks(a, b, amount, schedule, order, k0, k1);
    RealTimeAsks(a, b, amount, schedule, order, k1, k2);
    RealTimeAsks(a, b, amount, schedule, order, k1, k3);
    RealTimeAsks(a, b, amount, schedule, order, k3, k4);
  }

  lemma NoneExplains(a: Account, b: Account, amount: real, schedule: Schedule, order: seq<Entry>)
    requires Races(a, b, amount) && UNTIL_CLOSED <= schedule && Runs(Initial(RacingCalls(a, b, amount)), schedule)
    requires EndsWith(Exec(Initial(RacingCalls(a, b, amount)), schedule), a, b, amount, b.balance)
    ensures !Explains(RacingCalls(a, b, amount), schedule, order)
  {
    hide Runs, Exec, StateAt, Initial, After, CallsOf, Apply, Explains, EndsWith, InRealTime;
    if Explains(RacingCalls(a, b, amount), schedule, order) {
      ExplainedIs(RacingCalls(a, b, amount), schedule, order);
      var k := PlacesOf(a, b, amount, b.balance, schedule, order);
      FivePlaces(order, k);
      if k[2] == 2 {
        SeenAfterTransfer(a, b, amount, order);
        assert false;
      } else {
        TransferAfterClosing(a, b, amount, order, k[2]);
        assert false;
      }
    }
  }

  lemma NothingRefused(s: State, a: Account, b: Account, amount: real, seen: real)
    requires EndsWith(s, a, b, amount, seen)
    ensures AllFinished(s) && NoStoreError(s)
  {
  }

  /** The enquiry came after the closing and before the money: no order explains the run, although every
      call was answered and none was refused by the store. */
  lemma SeenTooEarly(a: Account, b: Account, amount: real)
    requires Races(a, b, amount)
    ensures var cs, schedule := RacingCalls(a, b, amount), UNTIL_CLOSED + ENQUIRY + TRANSFER;
            Runs(Initial(cs), schedule)
            && AllFinished(Exec(Initial(cs), schedule)) && NoStoreError(Exec(Initial(cs), schedule))
            && !NoTransferStale(Initial(cs), schedule) && !IsLinearizable(cs, schedule)
  {
    var cs, schedule := RacingCalls(a, b, amount), UNTIL_CLOSED + ENQUIRY + TRANSFER;
    EnquiryFirst(a, b, amount);
    assert OpenCalls(cs) == {0, 1};
    hide Runs, Exec, StateAt, Initial, Explains, NoTransferStale, EndsWith, AllFinished, NoStoreError, RacingCalls;
    NothingRefused(Exec(Initial(cs), schedule), a, b, amount, b.balance);
    forall order: seq<Entry> ensures !Explains(cs, schedule, order) {
      NoneExplains(a, b, amount, schedule, order);
    }
    if NoTransferStale(Initial(cs), schedule) {
      LinearizableUnlessRefused(cs, schedule);
    }
  }

  // ----- the run that an order explains -----

  /** A turn always takes its thread off the start, to which nothing leads back. */
  lemma BeginsOnce(s: State, t: Tid, u: Tid)
    requires Inv(s) && Enabled(s, t) && u < |s.threads|
    ensures u < |Step(s, t).threads| && (Unbegun(Step(s, t), u) <==> Unbegun(s, u) && u != t)
  {
    StepMoves(s, t);
    StepProgresses(s, t, {});
    hide Step, Inv, Enabled, Sum;
  }

  lemma {:induction false} StaysBegun(s: State, schedule: Schedule, k: nat, u: Tid)
    requires Inv(s) && Runs(s, schedule) && k <= |schedule| && u < |s.threads| && !Unbegun(s, u)
    ensures !Unbegun(StateAt(s, schedule, k), u)
    decreases k
  {
    if k > 0 {
      hide Step, Enabled, Unbegun, Inv;
      StepKeepsInv(s, schedule[0]);
      BeginsOnce(s, schedule[0], u);
      StaysBegun(Step(s, schedule[0]), schedule[1..], k - 1, u);
    }
  }

  /** A call has begun once its thread has had a turn. */
  lemma {:induction false} BegunByTurn(s: State, schedule: Schedule, k: nat, u: Tid)
    requires Inv(s) && Runs(s, schedule) && k <= |schedule| && u < |s.threads| && Unbegun(s, u)
    ensures Unbegun(StateAt(s, schedule, k), u) <==> u !in schedule[..k]
    decreases k
  {
    hide Step, Enabled, Unbegun, Inv;
    if k > 0 {
      var t := schedule[0];
      assert schedule[..k] == [t] + schedule[1..][..k - 1];
      StepKeepsInv(s, t);
      BeginsOnce(s, t, u);
      if u != t {
        BegunByTurn(Step(s, t), schedule[1..], k - 1, u);
      } else {
        StaysBegun(Step(s, t), schedule[1..], k - 1, u);
      }
    }
  }

  /** The turn in which each of the five calls begins. */
  const FIRST_TURNS: seq<nat> := [0, 3, 6, 11, 29]

  lemma BeginInTurn(i: nat, j: nat, k: nat)
    requires j < i < 5 && k <= |UNTIL_CLOSED + TRANSFER + ENQUIRY| && i in (UNTIL_CLOSED + TRANSFER + ENQUIRY)[..k]
    ensures j in (UNTIL_CLOSED + TRANSFER + ENQUIRY)[..k]
  {
    var schedule := UNTIL_CLOSED + TRANSFER + ENQUIRY;
    assert forall x: nat | x < FIRST_TURNS[i] :: schedule[x] < i;
    assert schedule[FIRST_TURNS[j]] == j;
    var x: nat :| x < k && schedule[x] == i;
    assert FIRST_TURNS[j] < FIRST_TURNS[i] <= x;
    assert schedule[..k][FIRST_TURNS[j]] == j;
  }

  /** The calls begin in the order of their threads, so that order respects real time. */
  lemma {:induction false} ThreadOrderInRealTime(a: Account, b: Account, amount: real, order: seq<Entry>)
    requires Races(a, b, amount) && |order| == 5 && forall i: nat | i < 5 :: order[i].tid == i
    requires Runs(Initial(RacingCalls(a, b, amount)), UNTIL_CLOSED + TRANSFER + ENQUIRY)
    ensures InRealTime(Initial(RacingCalls(a, b, amount)), UNTIL_CLOSED + TRANSFER + ENQUIRY, order)
  {
    var s0, schedule := Initial(RacingCalls(a, b, amount)), UNTIL_CLOSED + TRANSFER + ENQUIRY;
    assert OpenCalls(RacingCalls(a, b, amount)) == {0, 1};
    InitialInv(RacingCalls(a, b, amount));
    assert forall i: nat | i < 5 :: Unbegun(s0, i);
    hide Runs, StateAt, Initial, Inv;
    forall k: nat, i: nat, j: nat | k <= |schedule| && i < |order| && j < |order|
      && Ended(StateAt(s0, schedule, k), order[i].tid) && Unbegun(StateAt(s0, schedule, k), order[j].tid)
      ensures i < j
    {
      BegunByTurn(s0, schedule, k, i);
      BegunByTurn(s0, schedule, k, j);
      if j < i {
        BeginInTurn(i, j, k);
      }
    }
  }

  function SecondOnly(b: Account, amount: real): Bank {
    Bank(map[SECOND_ID := b.(balance := b.balance + amount)], SECOND_ID + 1)
  }

  /** The five calls made one at a time in the order of their threads. */
  lemma CallsInTurn(a: Account, b: Account, amount: real)
    requires Races(a, b, amount)
    ensures var cs, one := RacingCalls(a, b, amount), Bank(map[FIRST_ID := a], SECOND_ID);
            Apply(NEW_BANK, cs[0]) == (one, Opened(FIRST_ID))
            && Apply(one, cs[1]) == (BothOpen(a, b), Opened(SECOND_ID))
    ensures var cs, paid := RacingCalls(a, b, amount), a.(balance := a.balance - amount);
            var moved := BothOpen(paid, b.(balance := b.balance + amount));
            Apply(BothOpen(a, b), cs[2]) == (moved, Balances(a.balance - amount, b.balance + amount))
            && Apply(moved, cs[3]) == (SecondOnly(b, amount), Closed)
            && Apply(SecondOnly(b, amount), cs[4]) == (SecondOnly(b, amount), Balance(b.balance + amount))
  {
    var paid := a.(balance := a.balance - amount);
    var moved := BothOpen(paid, b.(balance := b.balance + amount));
    var richer := b.(balance := b.balance + amount);
    assert map[FIRST_ID := a, SECOND_ID := b][FIRST_ID := paid][SECOND_ID := richer] == moved.accounts;
    assert moved.accounts - {FIRST_ID} == SecondOnly(b, amount).accounts;
  }

  lemma {:induction false} ThreadOrderIsLegal(a: Account, b: Account, amount: real)
    requires Races(a, b, amount)
    ensures Legal(ThreadOrder(a, b, amount)) && After(CallsOf(ThreadOrder(a, b, amount))) == SecondOnly(b, amount)
  {
    CallsInTurn(a, b, amount);
    EmptyIsLegal();
    var order := ThreadOrder(a, b, amount);
    FivePrefixes(order);
    hide CallsOf, After, Apply, Legal, BothOpen, SecondOnly, RacingCalls;
    AddCall(order[..0], order[0]);
    AddCall(order[..1], order[1]);
    AddCall(order[..2], order[2]);
    AddCall(order[..3], order[3]);
    AddCall(order[..4], order[4]);
  }

  lemma FivePrefixes(order: seq<Entry>)
    requires |order| == 5
    ensures order[..0] == [] && order[..5] == order
    ensures order[..1] == order[..0] + [order[0]] && order[..2] == order[..1] + [order[1]]
    ensures order[..3] == order[..2] + [order[2]] && order[..4] == order[..3] + [order[3]]
    ensures order[..5] == order[..4] + [order[4]]
  {
  }

  lemma EmptyIsLegal()
    ensures Legal([]) && After(CallsOf([])) == NEW_BANK
  {
    NoCalls();
  }

  lemma AddCall(order: seq<Entry>, e: Entry)
    requires Legal(order) && e.result == Apply(After(CallsOf(order)), e.call).1
    ensures Legal(order + [e]) && After(CallsOf(order + [e])) == Apply(After(CallsOf(order)), e.call).0
  {
    AfterSnoc(order, e);
    LegalSnoc(order, e);
  }

  function ThreadOrder(a: Account, b: Account, amount: real): seq<Entry> {
    var cs := RacingCalls(a, b, amount);
    [Entry(0, cs[0], Opened(FIRST_ID)), Entry(1, cs[1], Opened(SECOND_ID)),
     Entry(2, cs[2], Balances(a.balance - amount, b.balance + amount)), Entry(3, cs[3], Closed),
     Entry(4, cs[4], Balance(b.balance + amount))]
  }

  lemma ThreadOrderFits(s: State, a: Account, b: Account, amount: real)
    requires EndsWith(s, a, b, amount, b.balance + amount)
    ensures var order := ThreadOrder(a, b, amount);
            forall k: nat | k < |order| ::
              order[k].tid < |s.threads| && Ended(s, order[k].tid) && s.threads[order[k].tid].call == order[k].call
              && order[k].result == s.threads[order[k].tid].point.result
    ensures var order := ThreadOrder(a, b, amount);
            forall i: nat, j: nat | i < j < |order| :: order[i].tid != order[j].tid
    ensures forall t: Tid | Ended(s, t) :: Logged(ThreadOrder(a, b, amount), t)
    ensures AllFinished(s) && NoStoreError(s)
  {
    var order := ThreadOrder(a, b, amount);
    forall t: Tid | Ended(s, t) ensures Logged(order, t) {
      assert order[t].tid == t;
    }
  }

  lemma FinalStore(s: State, a: Account, b: Account, amount: real)
    requires Races(a, b, amount) && EndsWith(s, a, b, amount, b.balance + amount)
    ensures Stored(s) == SecondOnly(b, amount)
  {
    assert Stored(s).accounts == map[SECOND_ID := b.(balance := b.balance + amount)];
  }

  lemma {:induction false} StaleFromThere(s: State, a: Schedule, b: Schedule)
    requires Runs(s, a + b)
    ensures Runs(s, a) && Runs(Exec(s, a), b)
    ensures NoTransferStale(s, a + b) ==> NoTransferStale(Exec(s, a), b)
    decreases |a|
  {
    if a == [] {
      assert a + b == b;
    } else {
      hide Step, Enabled, Stale;
      assert (a + b)[1..] == a[1..] + b;
      StaleFromThere(Step(s, a[0]), a[1..], b);
    }
  }

  lemma LateTransferIsStale(a: Account, b: Account, amount: real)
    requires Races(a, b, amount) && Runs(Initial(RacingCalls(a, b, amount)), UNTIL_CLOSED + TRANSFER + ENQUIRY)
    ensures !NoTransferStale(Initial(RacingCalls(a, b, amount)), UNTIL_CLOSED + TRANSFER + ENQUIRY)
  {
    var s0, rest := Initial(RacingCalls(a, b, amount)), [2, 2] + [2, 2, 2, 2, 2, 2] + ENQUIRY;
    UntilClosed(a, b, amount);
    var s1 := Exec(s0, UNTIL_CLOSED);
    LockBothRuns(s1, 2, 0, 1);
    var s2 := Exec(s1, [2, 2]);
    assert Stale(s2, 2) && s2.threads[2].call.Transfer? && rest[0] == 2;
    assert UNTIL_CLOSED + TRANSFER + ENQUIRY == UNTIL_CLOSED + ([2, 2] + rest);
    hide Runs, Exec, Stale, Initial;
    StaleFromThere(s0, UNTIL_CLOSED, [2, 2] + rest);
    StaleFromThere(s1, [2, 2], rest);
  }

  /** The enquiry came after the money: the same calls, with the transfer as late, are explained by the
      order in which they began. */
  lemma SeenLater(a: Account, b: Account, amount: real)
    requires Races(a, b, amount)
    ensures var cs, schedule := RacingCalls(a, b, amount), UNTIL_CLOSED + TRANSFER + ENQUIRY;
            Runs(Initial(cs), schedule)
            && AllFinished(Exec(Initial(cs), schedule)) && NoStoreError(Exec(Initial(cs), schedule))
            && !NoTransferStale(Initial(cs), schedule) && IsLinearizable(cs, schedule)
  {
    var cs, schedule := RacingCalls(a, b, amount), UNTIL_CLOSED + TRANSFER + ENQUIRY;
    var order := ThreadOrder(a, b, amount);
    TransferFirst(a, b, amount);
    LateTransferIsStale(a, b, amount);
    ThreadOrderInRealTime(a, b, amount, order);
    ThreadOrderIsLegal(a, b, amount);
    hide Runs, Exec, StateAt, Initial, InRealTime, Legal, After, CallsOf, ThreadOrder, Stored, EndsWith, AllFinished;
    hide NoStoreError, Logged, NoTransferStale;
    var s := Exec(Initial(cs), schedule);
    ThreadOrderFits(s, a, b, amount);
    FinalStore(s, a, b, amount);
    assert Explains(cs, schedule, order);
  }
}
