/** Termination, money and account numbers under every interleaving, CloseAccount included. */
module ConcurrentBankTheorems {
  import opened Bytes
  import opened Bank
  import opened ConcurrentBank
  import opened ConcurrentBankProofs

  // ----- sums over sequences -----

  function Sum<T>(xs: seq<T>, f: T -> real): real {
    if xs == [] then 0.0 else Sum(xs[..|xs| - 1], f) + f(xs[|xs| - 1])
  }

  lemma {:induction false} SumUpdate<T>(xs: seq<T>, f: T -> real, i: nat, x: T)
    requires i < |xs|
    ensures Sum(xs[i := x], f) == Sum(xs, f) - f(xs[i]) + f(x)
  {
    var n := |xs| - 1;
    if i == n {
      assert xs[i := x][..n] == xs[..n];
    } else {
      assert xs[i := x][..n] == xs[..n][i := x];
      SumUpdate(xs[..n], f, i, x);
    }
  }

  lemma SumAppend<T>(xs: seq<T>, f: T -> real, x: T)
    ensures Sum(xs + [x], f) == Sum(xs, f) + f(x)
  {
    assert (xs + [x])[..|xs|] == xs;
  }

  lemma {:induction false} SumBound<T>(xs: seq<T>, f: T -> real, most: real)
    requires forall x <- xs :: 0.0 <= f(x) <= most
    ensures 0.0 <= Sum(xs, f) <= |xs| as real * most
  {
    if xs != [] {
      SumBound(xs[..|xs| - 1], f, most);
      assert |xs| as real * most == (|xs| - 1) as real * most + most;
    }
  }

  // ----- steps left to make -----

  /** Steps a thread at this point can still make. */
  function Remaining(p: Point): nat {
    match p
    case Start => 15
    case Wanting(op) => 1 + RemainingInside(op)
    case Inside(op) => RemainingInside(op)
    case LockOne(_) => 5
    case LockLow(_, _) => 10
    case LockHigh(_, _) => 9
    case Section(_) => 4
    case TransferSection(_, _) => 8
    case Credit(_, _) => 7
    case UnlockTo(_, _, _) => 2
    case Unlock(_, _) => 1
    case Finished(_) => 0
  }

  function RemainingInside(op: StoreOp): nat {
    match op
    case Create => 1
    case Get => 13
    case GetTo(_) => 11
    case Update(_) => 2
    case UpdateFrom(_, _) => 5
    case UpdateTo(_, _) => 3
    case Delete(_) => 2
  }

  function StepsLeft(th: Thread): real {
    Remaining(th.point) as real
  }

  // ----- the ledger -----

  /** An account's balance, if it is in one of these currencies. */
  function BalanceIn(currencies: set<byte>): Account -> real {
    (a: Account) => if a.currency in currencies then a.balance else 0.0
  }

  /** Whether a deposit or withdrawal has changed its account. One that then fails with the store's
      not-found error has changed an account that was closed under it. */
  predicate Applied(p: Point) {
    match p
    case Wanting(op) => op.Update?
    case Inside(op) => op.Update?
    case Unlock(_, result) => result.Balance? || result == Failed(StoreNotFound)
    case Finished(result) => result.Balance? || result == Failed(StoreNotFound)
    case _ => false
  }

  /** What a thread has so far brought into the bank. A transfer between its two writes has taken
      its amount out. */
  function Contribution(th: Thread): real {
    match th.call
    case Open(_, _, _, initial) => if th.point.Finished? then initial else 0.0
    case Deposit(_, _, _, _, amount) => if Applied(th.point) then amount else 0.0
    case Withdraw(_, _, _, _, amount) => if Applied(th.point) then -amount else 0.0
    case Transfer(_, _, _, _, _, amount) => if th.point.Credit? then -amount else 0.0
    case _ => 0.0
  }

  function ContributionIn(currencies: set<byte>): Thread -> real {
    (th: Thread) => if !th.call.Close? && !th.call.CheckBalance?
    && th.call.currency in currencies then Contribution(th) else 0.0
  }

  /** Thread t spends a step, and the total in these currencies changes as its contribution does. */
  ghost predicate Progresses(s: State, s': State, t: Tid, currencies: set<byte>) {
    Moves(s, s', t) && Remaining(s'.threads[t].point) < Remaining(s.threads[t].point)
    && Sum(s'.objs, BalanceIn(currencies)) - Sum(s.objs, BalanceIn(currencies))
       == ContributionIn(currencies)(s'.threads[t]) - ContributionIn(currencies)(s.threads[t])
  }

  lemma StartProgress(s: State, t: Tid, currencies: set<byte>)
    requires t < |s.threads| && s.threads[t].point.Start?
    ensures Progresses(s, StartStep(s, t), t, currencies)
  {
    StartFrame(s, t);
  }

  lemma CreateProgress(s: State, t: Tid, currencies: set<byte>)
    requires t < |s.threads| && s.threads[t].point == Inside(Create) && OpOk(s.objs, s.threads[t].call, Create)
    ensures Progresses(s, StoreStep(s, t, Create), t, currencies)
  {
    hide Held, PointOk;
    CreateFrame(s, t);
    var s' := StoreStep(s, t, Create);
    SumAppend(s.objs, BalanceIn(currencies), s'.objs[|s.objs|]);
  }

  lemma ReadProgress(s: State, t: Tid, op: StoreOp, currencies: set<byte>)
    requires t < |s.threads| && s.threads[t].point == Inside(op) && IsRead(op)
    requires OpOk(s.objs, s.threads[t].call, op) && NumbersMatch(s)
    ensures Progresses(s, StoreStep(s, t, op), t, currencies)
  {
    hide Held, PointOk;
    if op.Get? { GetFrame(s, t); } else { GetToFrame(s, t, op.from); }
  }

  lemma WriteProgress(s: State, t: Tid, op: StoreOp, currencies: set<byte>)
    requires t < |s.threads| && s.threads[t].point == Inside(op) && !IsRead(op) && !op.Create?
    requires OpOk(s.objs, s.threads[t].call, op)
    ensures Progresses(s, StoreStep(s, t, op), t, currencies)
  {
    hide Held, PointOk;
    WriteFrame(s, t, op);
  }

  lemma SectionProgress(s: State, t: Tid, obj: Obj, currencies: set<byte>)
    requires t < |s.threads| && s.threads[t].point == Section(obj) && PointOk(s.objs, s.threads[t].call, Section(obj))
    ensures Progresses(s, SectionStep(s, t, obj), t, currencies)
  {
    hide Held, Sum, CheckAuth;
    SectionFrame(s, t, obj);
    var s' := SectionStep(s, t, obj);
    SumUpdate(s.objs, BalanceIn(currencies), obj, s'.objs[obj]);
    assert s'.objs == s.objs[obj := s'.objs[obj]];
  }

  lemma TransferProgress(s: State, t: Tid, from: Obj, to: Obj, currencies: set<byte>)
    requires t < |s.threads| && GrantedBoth(s.objs, s.threads[t].call, from, to)
    requires s.threads[t].point == TransferSection(from, to) || s.threads[t].point == Credit(from, to)
    ensures Progresses(s, if s.threads[t].point.Credit? then CreditStep(s, t, from, to) else DebitStep(s, t, from, to),
                       t, currencies)
  {
    hide Held, Sum, CheckAuth;
    TransferFrame(s, t, from, to);
    var obj := if s.threads[t].point.Credit? then to else from;
    var s' := if s.threads[t].point.Credit? then CreditStep(s, t, from, to) else DebitStep(s, t, from, to);
    SumUpdate(s.objs, BalanceIn(currencies), obj, s'.objs[obj]);
    assert s'.objs == s.objs[obj := s'.objs[obj]];
  }

  lemma LockProgress(s: State, t: Tid, currencies: set<byte>)
    requires t < |s.threads| && InRange(|s.objs|, s.threads[t].point) && IsLockPoint(s.threads[t].point)
    requires PointOk(s.objs, s.threads[t].call, s.threads[t].point)
    ensures Progresses(s, LockStep(s, t), t, currencies)
  {
    hide Held;
    LockFrame(s, t);
  }

  lemma StepProgresses(s: State, t: Tid, currencies: set<byte>)
    requires Enabled(s, t) && Inv(s)
    ensures Progresses(s, Step(s, t), t, currencies)
  {
    hide StoreStep, StartStep, SectionStep, DebitStep, CreditStep, LockStep, Held, Sum, Progresses;
    assert PointOk(s.objs, s.threads[t].call, s.threads[t].point);
    match s.threads[t].point
    case Start => StartProgress(s, t, currencies);
    case Inside(op) =>
      if op.Create? {
        CreateProgress(s, t, currencies);
      } else if IsRead(op) {
        ReadProgress(s, t, op, currencies);
      } else {
        WriteProgress(s, t, op, currencies);
      }
    case Section(obj) => SectionProgress(s, t, obj, currencies);
    case TransferSection(from, to) => TransferProgress(s, t, from, to, currencies);
    case Credit(from, to) => TransferProgress(s, t, from, to, currencies);
    case _ => LockProgress(s, t, currencies);
  }

  // ----- every run ends -----

  lemma {:induction false} RunShrinks(s: State, schedule: Schedule)
    requires Inv(s) && Runs(s, schedule)
    ensures |schedule| as real + Sum(Exec(s, schedule).threads, StepsLeft) <= Sum(s.threads, StepsLeft)
    decreases |schedule|
  {
    if schedule != [] {
      hide Step, Inv;
      var t := schedule[0];
      StepProgresses(s, t, {});
      SumUpdate(s.threads, StepsLeft, t, Step(s, t).threads[t]);
      StepKeepsInv(s, t);
      RunShrinks(Step(s, t), schedule[1..]);
    }
  }

  /** A run of n calls makes at most 15 n steps, whatever the schedule. */
  lemma {:induction false} RunsAreShort(calls: seq<Call>, schedule: Schedule)
    requires |OpenCalls(calls)| < ID_SPACE - FIRST_ID && Runs(Initial(calls), schedule)
    ensures |schedule| <= 15 * |calls|
  {
    InitialInv(calls);
    RunShrinks(Initial(calls), schedule);
    hide Inv, Runs, Exec, Sum;
    AtMostFifteen(Initial(calls).threads);
    AtMostFifteen(Exec(Initial(calls), schedule).threads);
  }

  lemma AtMostFifteen(threads: seq<Thread>)
    ensures 0.0 <= Sum(threads, StepsLeft) <= |threads| as real * 15.0
  {
    hide Sum;
    SumBound(threads, StepsLeft, 15.0);
  }

  /** No run deadlocks: in every reachable state with an unfinished thread some thread can move, even
      when a waiting writer holds back readers. */
  lemma {:induction false} EveryRunCanGoOn(calls: seq<Call>, schedule: Schedule, t: Tid) returns (mover: Tid)
    requires |OpenCalls(calls)| < ID_SPACE - FIRST_ID && Runs(Initial(calls), schedule)
    requires Unfinished(Exec(Initial(calls), schedule), t)
    ensures MayMove(Exec(Initial(calls), schedule), mover)
  {
    InitialInv(calls);
    RunKeepsInv(Initial(calls), schedule);
    hide Inv, Runs, Exec, Initial, Unfinished, MayMove;
    mover := NoDeadlock(Exec(Initial(calls), schedule), t);
  }

  ghost predicate Balanced(s: State, currencies: set<byte>) {
    Sum(s.objs, BalanceIn(currencies)) == Sum(s.threads, ContributionIn(currencies))
  }

  lemma {:induction false} RunBalances(s: State, schedule: Schedule, currencies: set<byte>)
    requires Inv(s) && Balanced(s, currencies) && Runs(s, schedule)
    ensures Balanced(Exec(s, schedule), currencies)
    decreases |schedule|
  {
    if schedule != [] {
      hide Step, Inv, Contribution;
      var t := schedule[0];
      StepProgresses(s, t, currencies);
      SumUpdate(s.threads, ContributionIn(currencies), t, Step(s, t).threads[t]);
      StepKeepsInv(s, t);
      RunBalances(Step(s, t), schedule[1..], currencies);
    }
  }

  /** In every reachable state, in any one currency and in any set of currencies, the balances of all account
      objects ever created, live or detached, add up to the openings and applied deposits less the
      applied withdrawals and the amounts in transfer. */
  lemma {:induction false} Ledger(calls: seq<Call>, schedule: Schedule, currencies: set<byte>)
    requires |OpenCalls(calls)| < ID_SPACE - FIRST_ID && Runs(Initial(calls), schedule)
    ensures var s := Exec(Initial(calls), schedule);
            Sum(s.objs, BalanceIn(currencies)) == Sum(s.threads, ContributionIn(currencies))
  {
    InitialInv(calls);
    NothingContributed(Initial(calls).threads, currencies);
    RunBalances(Initial(calls), schedule, currencies);
  }

  lemma {:induction false} NothingContributed(threads: seq<Thread>, currencies: set<byte>)
    requires forall th <- threads :: th.point == Start
    ensures Sum(threads, ContributionIn(currencies)) == 0.0
  {
    if threads != [] {
      NothingContributed(threads[..|threads| - 1], currencies);
    }
  }

  // ----- no balance is ever driven below its floor -----

  /** Thread t opened the object. */
  predicate OpenedBy(s: State, o: Obj, t: Tid) {
    o < |s.objs| && t < |s.threads| && s.threads[t].call.Open?
    && s.threads[t].point == Finished(Opened(s.objs[o].number))
  }

  function FloorOf(initial: real): real {
    if initial < 0.0 then initial else 0.0
  }

  ghost predicate AboveFloor(s: State, o: Obj) {
    exists t: Tid :: OpenedBy(s, o, t) && s.objs[o].balance >= FloorOf(s.threads[t].call.initial)
  }

  /** No step takes a balance down but one that leaves it at nothing or above. */
  ghost predicate TakesOnlyWhatIsThere(s: State, s': State) {
    |s.objs| <= |s'.objs|
    && forall o: Obj | o < |s.objs| :: s'.objs[o].balance >= s.objs[o].balance || s'.objs[o].balance >= 0.0
  }

  lemma SectionTakes(s: State, t: Tid, obj: Obj)
    requires t < |s.threads| && s.threads[t].point == Section(obj) && PointOk(s.objs, s.threads[t].call, Section(obj))
    ensures TakesOnlyWhatIsThere(s, SectionStep(s, t, obj))
  {
  }

  lemma TransferTakes(s: State, t: Tid, from: Obj, to: Obj)
    requires t < |s.threads| && GrantedBoth(s.objs, s.threads[t].call, from, to)
    ensures TakesOnlyWhatIsThere(s, DebitStep(s, t, from, to)) && TakesOnlyWhatIsThere(s, CreditStep(s, t, from, to))
  {
  }

  lemma StoreTakes(s: State, t: Tid, op: StoreOp)
    requires t < |s.threads| && s.threads[t].point == Inside(op) && OpOk(s.objs, s.threads[t].call, op)
    ensures var s' := StoreStep(s, t, op);
            TakesOnlyWhatIsThere(s, s')
            && (|s'.objs| > |s.objs| ==>
                  |s'.objs| == |s.objs| + 1 && OpenedBy(s', |s.objs|, t)
                  && s'.objs[|s.objs|].balance == s'.threads[t].call.initial)
  {
    hide CheckAuth;
  }

  lemma StepKeepsFloor(s: State, t: Tid, o: Obj)
    requires Enabled(s, t) && Inv(s) && o < |Step(s, t).objs| && (o < |s.objs| ==> AboveFloor(s, o))
    ensures AboveFloor(Step(s, t), o)
  {
    hide StoreStep, StartStep, SectionStep, DebitStep, CreditStep, LockStep, Held, NumbersMatch, Counted, MutexesOk;
    hide StoreLockOk;
    assert PointOk(s.objs, s.threads[t].call, s.threads[t].point);
    StepMoves(s, t);
    var s' := Step(s, t);
    match s.threads[t].point {
      case Start => StartFrame(s, t);
      case Inside(op) => StoreTakes(s, t, op);
      case Section(obj) => SectionFrame(s, t, obj); SectionTakes(s, t, obj);
      case TransferSection(from, to) => TransferFrame(s, t, from, to); TransferTakes(s, t, from, to);
      case Credit(from, to) => TransferFrame(s, t, from, to); TransferTakes(s, t, from, to);
      case _ => LockFrame(s, t);
    }
    FloorFollows(s, s', t, o);
  }

  lemma FloorFollows(s: State, s': State, t: Tid, o: Obj)
    requires Moves(s, s', t) && TakesOnlyWhatIsThere(s, s') && !s.threads[t].point.Finished? && o < |s'.objs|
    requires o < |s.objs| ==> AboveFloor(s, o)
    requires o >= |s.objs| ==> OpenedBy(s', o, t) && s'.objs[o].balance == s'.threads[t].call.initial
    ensures AboveFloor(s', o)
  {
    if o < |s.objs| {
      var u: Tid :| OpenedBy(s, o, u) && s.objs[o].balance >= FloorOf(s.threads[u].call.initial);
      assert OpenedBy(s', o, u);
    } else {
      assert OpenedBy(s', o, t);
    }
  }

  lemma {:induction false} RunKeepsFloor(s: State, schedule: Schedule, o: Obj)
    requires Inv(s) && Runs(s, schedule) && o < |Exec(s, schedule).objs|
    requires forall p: Obj | p < |s.objs| :: AboveFloor(s, p)
    ensures AboveFloor(Exec(s, schedule), o)
    decreases |schedule|
  {
    if schedule != [] {
      hide Step, Inv, AboveFloor, Enabled;
      var t := schedule[0];
      StepKeepsInv(s, t);
      forall p: Obj | p < |Step(s, t).objs| ensures AboveFloor(Step(s, t), p) {
        StepKeepsFloor(s, t, p);
      }
      RunKeepsFloor(Step(s, t), schedule[1..], o);
    }
  }

  /** In every reachable state, closings included, no account object is in debt unless it was opened in
      debt, and never further than it was opened: no interleaving overdraws an account. */
  lemma {:induction false} FloorUnderInterleaving(calls: seq<Call>, schedule: Schedule, o: Obj) returns (opener: Tid)
    requires |OpenCalls(calls)| < ID_SPACE - FIRST_ID && Runs(Initial(calls), schedule)
    requires o < |Exec(Initial(calls), schedule).objs|
    ensures var s := Exec(Initial(calls), schedule);
            OpenedBy(s, o, opener)
            && s.objs[o].balance >= if s.threads[opener].call.initial < 0.0 then s.threads[opener].call.initial else 0.0
  {
    InitialInv(calls);
    RunKeepsFloor(Initial(calls), schedule, o);
    hide Inv, Runs, Exec, Initial;
    var s := Exec(Initial(calls), schedule);
    opener :| OpenedBy(s, o, opener) && s.objs[o].balance >= FloorOf(s.threads[opener].call.initial);
  }

  // ----- closed numbers stay closed -----

  lemma StepKeepsDead(s: State, t: Tid, n: u32)
    requires Enabled(s, t) && Inv(s) && n < s.nextId && n !in s.live
    ensures n < Step(s, t).nextId && n !in Step(s, t).live
  {
    hide Held, CheckAuth, Lower, Higher, Counted, MutexesOk, StoreLockOk;
    assert PointOk(s.objs, s.threads[t].call, s.threads[t].point);
    if s.threads[t].point == Inside(Create) {
      NumberLeft(s, t);
    }
  }

  ghost predicate HasClosed(th: Thread, n: u32) {
    th.call.Close? && th.call.id == n
    && (th.point == Finished(Closed) || (th.point.Unlock? && th.point.result == Closed))
  }

  /** A thread that closed a number leaves it dead, and no two threads close the same number. */
  ghost predicate ClosedOnce(s: State) {
    (forall t: Tid | t < |s.threads| && s.threads[t].call.Close? && HasClosed(s.threads[t], s.threads[t].call.id) ::
       s.threads[t].call.id < s.nextId && s.threads[t].call.id !in s.live)
    && (forall t: Tid, u: Tid | t < u < |s.threads| && s.threads[t].call.Close? ::
          !(HasClosed(s.threads[t], s.threads[t].call.id) && HasClosed(s.threads[u], s.threads[t].call.id)))
  }

  /** The only step that makes a thread a closer removes a number that was live. */
  lemma ClosingStep(s: State, t: Tid)
    requires Enabled(s, t) && Inv(s) && s.threads[t].call.Close?
    ensures var n, s' := s.threads[t].call.id, Step(s, t);
            HasClosed(s'.threads[t], n) ==>
              if HasClosed(s.threads[t], n) then s'.live == s.live else n in s.live && n !in s'.live && n < s'.nextId
  {
    hide Held;
    assert PointOk(s.objs, s.threads[t].call, s.threads[t].point);
  }

  lemma StepClosedOnce(s: State, t: Tid)
    requires Enabled(s, t) && Inv(s) && ClosedOnce(s)
    ensures ClosedOnce(Step(s, t))
  {
    hide Step, Inv, Enabled;
    var s' := Step(s, t);
    StepMoves(s, t);
    if s.threads[t].call.Close? {
      ClosingStep(s, t);
    }
    forall u: Tid | u < |s'.threads| && s'.threads[u].call.Close? && HasClosed(s'.threads[u], s'.threads[u].call.id)
      ensures s'.threads[u].call.id < s'.nextId && s'.threads[u].call.id !in s'.live
    {
      var n := s'.threads[u].call.id;
      if u != t || HasClosed(s.threads[t], n) {
        assert HasClosed(s.threads[u], n);
        StepKeepsDead(s, t, n);
      }
    }
  }

  /** In every interleaving: each live number leads to the object created with it; a number once
      given out and not live stays dead, so no pending update revives it; and at most one close of
      a number succeeds. */
  lemma {:induction false} NoResurrection(s: State, schedule: Schedule, n: u32)
    requires Inv(s) && ClosedOnce(s) && Runs(s, schedule)
    ensures var s' := Exec(s, schedule);
            (forall k <- s'.live :: s'.live[k] < |s'.objs| && s'.objs[s'.live[k]].number == k)
            && (n < s.nextId && n !in s.live ==> n !in s'.live)
            && ClosedOnce(s')
    decreases |schedule|
  {
    if schedule != [] {
      hide Step, ClosedOnce;
      var t := schedule[0];
      StepKeepsInv(s, t);
      StepClosedOnce(s, t);
      if n < s.nextId && n !in s.live {
        StepKeepsDead(s, t, n);
      }
      NoResurrection(Step(s, t), schedule[1..], n);
    }
  }

  /** The same from the start of any run: whatever happens between two moments of it. */
  lemma {:induction false} ClosedNumbersStayClosed(calls: seq<Call>, before: Schedule, after: Schedule, n: u32)
    requires |OpenCalls(calls)| < ID_SPACE - FIRST_ID && Runs(Initial(calls), before)
    requires Runs(Exec(Initial(calls), before), after)
    ensures var s := Exec(Initial(calls), before);
            var s' := Exec(s, after);
            (forall k <- s'.live :: s'.live[k] < |s'.objs| && s'.objs[s'.live[k]].number == k)
            && (n < s.nextId && n !in s.live ==> n !in s'.live)
            && ClosedOnce(s')
  {
    InitialInv(calls);
    RunKeepsInv(Initial(calls), before);
    assert ClosedOnce(Initial(calls));
    hide Inv, ClosedOnce, Runs, Exec, Initial;
    NoResurrection(Initial(calls), before, n);
    NoResurrection(Exec(Initial(calls), before), after, n);
  }
}
