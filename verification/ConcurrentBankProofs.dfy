/** Facts about every interleaving of the concurrent bank. */
module ConcurrentBankProofs {
  import opened Bytes
  import opened Bank
  import opened ConcurrentBank

  // ----- what one step leaves alone -----

  /** An object keeps everything but its balance for ever. */
  ghost predicate Extends(objs: seq<Account>, objs': seq<Account>) {
    |objs| <= |objs'| && forall o: Obj | o < |objs| :: objs'[o] == objs[o].(balance := objs'[o].balance)
  }

  /** Only thread t moves, and it keeps its call. */
  ghost predicate Moves(s: State, s': State, t: Tid) {
    t < |s.threads| && |s'.threads| == |s.threads| && s'.threads == s.threads[t := s'.threads[t]]
    && s'.threads[t].call == s.threads[t].call && Extends(s.objs, s'.objs)
  }

  /** Neither mutexes nor the store's lock change hands. */
  ghost predicate SameLocks(s: State, s': State) {
    s'.owner == s.owner && s'.writer == s.writer && s'.readers == s.readers
  }

  lemma StartFrame(s: State, t: Tid)
    requires t < |s.threads| && s.threads[t].point.Start?
    ensures var s' := StartStep(s, t);
            Moves(s, s', t) && SameLocks(s, s') && s'.objs == s.objs && s'.live == s.live && s'.nextId == s.nextId
            && !s'.threads[t].point.Inside? && Held(s'.objs, s'.threads[t].point) == {}
            && PointOk(s'.objs, s'.threads[t].call, s'.threads[t].point)
  {
  }

  ghost predicate LeavesStore(s: State, s': State, t: Tid, op: StoreOp) {
    Moves(s, s', t) && SameLocks(LeaveStore(s, t, op), s') && !s'.threads[t].point.Inside?
    && Held(s'.objs, s'.threads[t].point) == HeldDuring(op)
    && PointOk(s'.objs, s'.threads[t].call, s'.threads[t].point)
  }

  lemma CreateFrame(s: State, t: Tid)
    requires t < |s.threads| && OpOk(s.objs, s.threads[t].call, Create)
    ensures LeavesStore(s, StoreStep(s, t, Create), t, Create)
  {
  }

  lemma GetFrame(s: State, t: Tid)
    requires t < |s.threads| && OpOk(s.objs, s.threads[t].call, Get) && NumbersMatch(s)
    ensures LeavesStore(s, StoreStep(s, t, Get), t, Get)
  {
  }

  lemma GetToFrame(s: State, t: Tid, from: Obj)
    requires t < |s.threads| && OpOk(s.objs, s.threads[t].call, GetTo(from)) && NumbersMatch(s)
    ensures LeavesStore(s, StoreStep(s, t, GetTo(from)), t, GetTo(from))
  {
  }

  lemma WriteFrame(s: State, t: Tid, op: StoreOp)
    requires t < |s.threads| && OpOk(s.objs, s.threads[t].call, op) && !IsRead(op) && !op.Create?
    ensures LeavesStore(s, StoreStep(s, t, op), t, op)
  {
  }

  lemma StoreFrame(s: State, t: Tid, op: StoreOp)
    requires t < |s.threads| && OpOk(s.objs, s.threads[t].call, op) && NumbersMatch(s)
    ensures LeavesStore(s, StoreStep(s, t, op), t, op)
  {
    hide LeavesStore, StoreStep;
    match op
    case Create => CreateFrame(s, t);
    case Get => GetFrame(s, t);
    case GetTo(from) => GetToFrame(s, t, from);
    case _ => WriteFrame(s, t, op);
  }

  lemma SectionFrame(s: State, t: Tid, obj: Obj)
    requires t < |s.threads| && s.threads[t].point == Section(obj) && PointOk(s.objs, s.threads[t].call, Section(obj))
    ensures var s' := SectionStep(s, t, obj);
            Moves(s, s', t) && SameLocks(s, s') && |s'.objs| == |s.objs| && s'.live == s.live && s'.nextId == s.nextId
            && !s'.threads[t].point.Inside? && Held(s'.objs, s'.threads[t].point) == {obj}
            && PointOk(s'.objs, s'.threads[t].call, s'.threads[t].point)
  {
    hide CheckAuth;
    PointStillOk(s.objs, SectionStep(s, t, obj).objs, s.threads[t].call, Section(obj));
  }

  lemma TransferFrame(s: State, t: Tid, from: Obj, to: Obj)
    requires t < |s.threads| && GrantedBoth(s.objs, s.threads[t].call, from, to)
    requires s.threads[t].point == TransferSection(from, to) || s.threads[t].point == Credit(from, to)
    ensures var s' := if s.threads[t].point.Credit? then CreditStep(s, t, from, to) else DebitStep(s, t, from, to);
            Moves(s, s', t) && SameLocks(s, s') && |s'.objs| == |s.objs| && s'.live == s.live && s'.nextId == s.nextId
            && !s'.threads[t].point.Inside? && Held(s'.objs, s'.threads[t].point) == {from, to}
            && PointOk(s'.objs, s'.threads[t].call, s'.threads[t].point)
  {
  }

  /** The points from which a thread only takes or gives back a lock. */
  predicate IsLockPoint(p: Point) {
    p.Wanting? || p.LockOne? || p.LockLow? || p.LockHigh? || p.UnlockTo? || p.Unlock?
  }

  lemma LockFrame(s: State, t: Tid)
    requires t < |s.threads| && InRange(|s.objs|, s.threads[t].point) && IsLockPoint(s.threads[t].point)
    requires PointOk(s.objs, s.threads[t].call, s.threads[t].point)
    ensures var s' := LockStep(s, t);
            Moves(s, s', t) && s'.objs == s.objs && s'.live == s.live && s'.nextId == s.nextId && s'.log == s.log
            && s'.threads[t].answer == s.threads[t].answer
            && PointOk(s'.objs, s.threads[t].call, s'.threads[t].point)
            && (if s.threads[t].point.Wanting? then
                  s' == EnterStore(s, t, s.threads[t].point.op).(threads := s'.threads)
                  && s'.threads[t].point == Inside(s.threads[t].point.op)
                else s'.writer == s.writer && s'.readers == s.readers && !s'.threads[t].point.Inside?)
  {
  }

  lemma StepMoves(s: State, t: Tid)
    requires Enabled(s, t) && Inv(s)
    ensures Moves(s, Step(s, t), t) && PointOk(Step(s, t).objs, s.threads[t].call, Step(s, t).threads[t].point)
  {
    hide StoreStep, StartStep, SectionStep, DebitStep, CreditStep, LockStep, Held;
    assert PointOk(s.objs, s.threads[t].call, s.threads[t].point);
    match s.threads[t].point
    case Start => StartFrame(s, t);
    case Inside(op) => StoreFrame(s, t, op);
    case Section(obj) => SectionFrame(s, t, obj);
    case TransferSection(from, to) => TransferFrame(s, t, from, to);
    case Credit(from, to) => TransferFrame(s, t, from, to);
    case _ => LockFrame(s, t);
  }

  lemma PointStillOk(objs: seq<Account>, objs': seq<Account>, c: Call, p: Point)
    requires Extends(objs, objs') && PointOk(objs, c, p)
    ensures PointOk(objs', c, p) && Held(objs', p) == Held(objs, p)
  {
  }

  lemma StepPoints(s: State, t: Tid)
    requires Enabled(s, t) && Inv(s)
    ensures PointsOk(Step(s, t))
  {
    hide Step, PointOk, Enabled;
    var s' := Step(s, t);
    StepMoves(s, t);
    forall u: Tid | u < |s'.threads| ensures PointOk(s'.objs, s'.threads[u].call, s'.threads[u].point) {
      if u != t {
        PointStillOk(s.objs, s'.objs, s.threads[u].call, s.threads[u].point);
      }
    }
  }

  lemma KeepStoreLock(s: State, s': State, t: Tid)
    requires StoreLockOk(s) && Moves(s, s', t) && s'.writer == s.writer && s'.readers == s.readers
    requires !s.threads[t].point.Inside? && !s'.threads[t].point.Inside?
    ensures StoreLockOk(s')
  {
  }

  lemma EnterStoreLock(s: State, s': State, t: Tid, op: StoreOp)
    requires StoreLockOk(s) && Moves(s, s', t) && SameLocks(EnterStore(s, t, op), s')
    requires s.writer == None && (IsRead(op) || s.readers == {})
    requires !s.threads[t].point.Inside? && s'.threads[t].point == Inside(op)
    ensures StoreLockOk(s')
  {
  }

  lemma LeaveStoreLock(s: State, s': State, t: Tid, op: StoreOp)
    requires StoreLockOk(s) && Moves(s, s', t) && SameLocks(LeaveStore(s, t, op), s')
    requires s.threads[t].point == Inside(op) && !s'.threads[t].point.Inside?
    ensures StoreLockOk(s')
  {
  }

  lemma StepStoreLock(s: State, t: Tid)
    requires Enabled(s, t) && Inv(s)
    ensures StoreLockOk(Step(s, t))
  {
    hide StoreStep, StartStep, SectionStep, DebitStep, CreditStep, LockStep, Held, StoreLockOk;
    assert PointOk(s.objs, s.threads[t].call, s.threads[t].point);
    var s' := Step(s, t);
    match s.threads[t].point
    case Start => StartFrame(s, t); KeepStoreLock(s, s', t);
    case Wanting(op) => LockFrame(s, t); EnterStoreLock(s, s', t, op);
    case Inside(op) => StoreFrame(s, t, op); LeaveStoreLock(s, s', t, op);
    case Section(obj) => SectionFrame(s, t, obj); KeepStoreLock(s, s', t);
    case TransferSection(from, to) => TransferFrame(s, t, from, to); KeepStoreLock(s, s', t);
    case Credit(from, to) => TransferFrame(s, t, from, to); KeepStoreLock(s, s', t);
    case _ => LockFrame(s, t); KeepStoreLock(s, s', t);
  }

  lemma HeldStillSame(s: State, s': State)
    requires PointsOk(s) && Extends(s.objs, s'.objs)
    ensures forall u: Tid | u < |s.threads| :: Held(s'.objs, s.threads[u].point) == Held(s.objs, s.threads[u].point)
  {
    forall u: Tid | u < |s.threads| ensures Held(s'.objs, s.threads[u].point) == Held(s.objs, s.threads[u].point) {
      PointStillOk(s.objs, s'.objs, s.threads[u].call, s.threads[u].point);
    }
  }

  /** The three ways a step treats mutexes. */
  lemma KeepMutexes(s: State, s': State, t: Tid)
    requires PointsOk(s) && MutexesOk(s) && Moves(s, s', t) && s'.owner == s.owner
    requires Held(s'.objs, s'.threads[t].point) == Held(s.objs, s.threads[t].point)
    ensures MutexesOk(s')
  {
    hide Held;
    HeldStillSame(s, s');
    assert forall u: Tid, o: Obj :: Holds(s', u, o) == Holds(s, u, o);
  }

  lemma TakeMutex(s: State, s': State, t: Tid, o: Obj)
    requires PointsOk(s) && MutexesOk(s) && Moves(s, s', t) && o !in s.owner && s'.owner == s.owner[o := t]
    requires Held(s'.objs, s'.threads[t].point) == Held(s.objs, s.threads[t].point) + {o}
    ensures MutexesOk(s')
  {
    hide Held;
    HeldStillSame(s, s');
    assert forall u: Tid, k: Obj :: Holds(s', u, k) == (Holds(s, u, k) || (u == t && k == o));
  }

  lemma DropMutex(s: State, s': State, t: Tid, o: Obj)
    requires PointsOk(s) && MutexesOk(s) && Moves(s, s', t) && s'.owner == s.owner - {o}
    requires o in Held(s.objs, s.threads[t].point)
    requires Held(s'.objs, s'.threads[t].point) == Held(s.objs, s.threads[t].point) - {o}
    ensures MutexesOk(s')
  {
    hide Held;
    HeldStillSame(s, s');
    assert Holds(s, t, o);
    assert forall u: Tid, k: Obj :: Holds(s', u, k) == (Holds(s, u, k) && !(u == t && k == o));
  }

  lemma AcquireStep(s: State, t: Tid)
    requires Enabled(s, t) && Inv(s)
    requires s.threads[t].point.LockOne? || s.threads[t].point.LockLow? || s.threads[t].point.LockHigh?
    ensures MutexesOk(Step(s, t))
  {
    hide MutexesOk, NumbersMatch, Counted, StoreLockOk, Moves;
    StepMoves(s, t);
    assert PointOk(s.objs, s.threads[t].call, s.threads[t].point);
    match s.threads[t].point
    case LockOne(obj) => TakeMutex(s, Step(s, t), t, obj);
    case LockLow(from, to) => TakeMutex(s, Step(s, t), t, Lower(s, from, to));
    case LockHigh(from, to) => TakeMutex(s, Step(s, t), t, Higher(s, from, to));
  }

  lemma ReleaseStep(s: State, t: Tid)
    requires Enabled(s, t) && Inv(s)
    requires s.threads[t].point.UnlockTo? || s.threads[t].point.Unlock?
    ensures MutexesOk(Step(s, t))
  {
    hide MutexesOk, NumbersMatch, Counted, StoreLockOk, Moves;
    StepMoves(s, t);
    assert PointOk(s.objs, s.threads[t].call, s.threads[t].point);
    match s.threads[t].point
    case UnlockTo(from, to, _) => DropMutex(s, Step(s, t), t, to);
    case Unlock(obj, _) => DropMutex(s, Step(s, t), t, obj);
  }

  lemma StepMutexes(s: State, t: Tid)
    requires Enabled(s, t) && Inv(s)
    ensures MutexesOk(Step(s, t))
  {
    hide StoreStep, StartStep, SectionStep, DebitStep, CreditStep, MutexesOk;
    assert PointOk(s.objs, s.threads[t].call, s.threads[t].point);
    var s' := Step(s, t);
    match s.threads[t].point
    case Start => StartFrame(s, t); KeepMutexes(s, s', t);
    case Inside(op) => StoreFrame(s, t, op); KeepMutexes(s, s', t);
    case Section(obj) => SectionFrame(s, t, obj); KeepMutexes(s, s', t);
    case TransferSection(from, to) => TransferFrame(s, t, from, to); KeepMutexes(s, s', t);
    case Credit(from, to) => TransferFrame(s, t, from, to); KeepMutexes(s, s', t);
    case Wanting(op) => StepMoves(s, t); KeepMutexes(s, s', t);
    case UnlockTo(_, _, _) => ReleaseStep(s, t);
    case Unlock(_, _) => ReleaseStep(s, t);
    case _ => AcquireStep(s, t);
  }

  lemma SubsetSize<T>(a: set<T>, b: set<T>)
    requires a <= b
    ensures |a| <= |b|
  {
    if a != {} {
      var x :| x in a;
      SubsetSize(a - {x}, b - {x});
    }
  }

  /** A thread about to create an account has not finished, so a number is left for it. */
  lemma NumberLeft(s: State, t: Tid)
    requires Inv(s) && t < |s.threads| && s.threads[t].point == Inside(Create)
    ensures |s.objs| + 1 < ID_SPACE - FIRST_ID
  {
    assert PointOk(s.objs, s.threads[t].call, s.threads[t].point);
    SubsetSize(OpenersDone(s) + {t}, Openers(s));
  }

  lemma StepCounted(s: State, t: Tid)
    requires Enabled(s, t) && Inv(s)
    ensures Counted(Step(s, t))
  {
    hide StartStep, SectionStep, DebitStep, CreditStep, LockStep, Held;
    assert PointOk(s.objs, s.threads[t].call, s.threads[t].point);
    var s' := Step(s, t);
    StepMoves(s, t);
    assert Openers(s') == Openers(s);
    CreatesOne(s, t);
    if s.threads[t].point == Inside(Create) {
      assert OpenersDone(s') == OpenersDone(s) + {t};
    } else {
      assert OpenersDone(s') == OpenersDone(s);
    }
  }

  /** Only the creating step adds an object, and it finishes the opening. */
  lemma CreatesOne(s: State, t: Tid)
    requires Enabled(s, t) && PointOk(s.objs, s.threads[t].call, s.threads[t].point) && NumbersMatch(s)
    ensures var s' := Step(s, t);
            if s.threads[t].point == Inside(Create) then
              |s'.objs| == |s.objs| + 1 && s'.threads[t].point.Finished? && s.threads[t].call.Open?
            else |s'.objs| == |s.objs| && (s.threads[t].call.Open? ==> !s'.threads[t].point.Finished?)
  {
  }

  lemma ReadNumbers(s: State, t: Tid, op: StoreOp)
    requires t < |s.threads| && OpOk(s.objs, s.threads[t].call, op) && IsRead(op)
    ensures var s' := StoreStep(s, t, op); s'.objs == s.objs && s'.live == s.live && s'.nextId == s.nextId
  {
    hide CheckAuth;
  }

  lemma WriteNumbers(s: State, t: Tid, op: StoreOp)
    requires t < |s.threads| && OpOk(s.objs, s.threads[t].call, op) && NumbersMatch(s) && !IsRead(op)
    requires op.Create? ==> |s.objs| + 1 < ID_SPACE - FIRST_ID
    ensures NumbersMatch(StoreStep(s, t, op))
  {
    hide CheckAuth;
  }

  lemma StoreNumbers(s: State, t: Tid, op: StoreOp)
    requires t < |s.threads| && OpOk(s.objs, s.threads[t].call, op) && NumbersMatch(s)
    requires op.Create? ==> |s.objs| + 1 < ID_SPACE - FIRST_ID
    ensures NumbersMatch(StoreStep(s, t, op))
  {
    hide StoreStep;
    if IsRead(op) { ReadNumbers(s, t, op); } else { WriteNumbers(s, t, op); }
  }

  lemma StepNumbers(s: State, t: Tid)
    requires Enabled(s, t) && Inv(s)
    ensures NumbersMatch(Step(s, t))
  {
    hide StoreStep, StartStep, SectionStep, DebitStep, CreditStep, LockStep, Held;
    assert PointOk(s.objs, s.threads[t].call, s.threads[t].point);
    match s.threads[t].point
    case Start => StartFrame(s, t);
    case Inside(op) =>
      if op.Create? { NumberLeft(s, t); }
      StoreNumbers(s, t, op);
    case Section(obj) => SectionFrame(s, t, obj);
    case TransferSection(from, to) => TransferFrame(s, t, from, to);
    case Credit(from, to) => TransferFrame(s, t, from, to);
    case _ => LockFrame(s, t);
  }

  lemma StepKeepsInv(s: State, t: Tid)
    requires Enabled(s, t) && Inv(s)
    ensures Inv(Step(s, t))
  {
    hide Step, NumbersMatch, Counted, PointsOk, MutexesOk, StoreLockOk;
    StepNumbers(s, t);
    StepCounted(s, t);
    StepPoints(s, t);
    StepMutexes(s, t);
    StepStoreLock(s, t);
  }

  function OpenCalls(calls: seq<Call>): set<nat> {
    set i: nat | i < |calls| && calls[i].Open?
  }

  lemma InitialInv(calls: seq<Call>)
    requires |OpenCalls(calls)| < ID_SPACE - FIRST_ID
    ensures Inv(Initial(calls))
  {
    var s := Initial(calls);
    assert Openers(s) == OpenCalls(calls);
    assert OpenersDone(s) == {};
  }

  /** The invariant holds in every reachable state. */
  lemma {:induction false} RunKeepsInv(s: State, schedule: Schedule)
    requires Inv(s) && Runs(s, schedule)
    ensures Inv(Exec(s, schedule))
    decreases |schedule|
  {
    if schedule != [] {
      hide Inv, Step;
      StepKeepsInv(s, schedule[0]);
      RunKeepsInv(Step(s, schedule[0]), schedule[1..]);
    }
  }

  // ----- deadlock freedom and termination -----

  ghost predicate Unfinished(s: State, t: Tid) {
    t < |s.threads| && !s.threads[t].point.Finished?
  }

  /** Like Enabled, but a waiting writer holds back new readers, as Go's read-write lock does. */
  ghost predicate MayMove(s: State, t: Tid) {
    Enabled(s, t)
    && (s.threads[t].point.Wanting? && IsRead(s.threads[t].point.op) ==>
          forall u: Tid | u < |s.threads| && s.threads[u].point.Wanting? :: IsRead(s.threads[u].point.op))
  }

  /** The mutex a thread is waiting for. */
  function WaitsFor(s: State, t: Tid): Option<Obj>
    requires t < |s.threads| && InRange(|s.objs|, s.threads[t].point)
  {
    match s.threads[t].point
    case LockOne(obj) => Some(obj)
    case LockLow(from, to) => Some(Lower(s, from, to))
    case LockHigh(from, to) => Some(Higher(s, from, to))
    case _ => None
  }

  lemma PointsInRange(s: State, t: Tid)
    requires Inv(s) && t < |s.threads|
    ensures InRange(|s.objs|, s.threads[t].point)
  {
    assert PointOk(s.objs, s.threads[t].call, s.threads[t].point);
  }

  /** Follows the owners of the mutexes waited for: each waits for a higher one. */
  lemma {:induction false} FollowOwners(s: State, t: Tid) returns (mover: Tid)
    requires Inv(s) && t < |s.threads| && InRange(|s.objs|, s.threads[t].point) && WaitsFor(s, t).Some?
    requires forall u: Tid | u < |s.threads| :: !s.threads[u].point.Wanting?
    ensures MayMove(s, mover)
    decreases |s.objs| - WaitsFor(s, t).value
  {
    var o := WaitsFor(s, t).value;
    if o !in s.owner {
      mover := t;
    } else {
      var u := s.owner[o];
      assert Holds(s, u, o);
      PointsInRange(s, u);
      assert PointOk(s.objs, s.threads[u].call, s.threads[u].point);
      if WaitsFor(s, u).Some? {
        assert o < WaitsFor(s, u).value;
        mover := FollowOwners(s, u);
      } else {
        mover := u;
      }
    }
  }

  /** No deadlock: while any thread is unfinished, some thread can move. */
  lemma NoDeadlock(s: State, t: Tid) returns (mover: Tid)
    requires Inv(s) && Unfinished(s, t)
    ensures MayMove(s, mover)
  {
    PointsInRange(s, t);
    if s.writer.Some? {
      mover := s.writer.value;
      PointsInRange(s, mover);
    } else if s.readers != {} {
      mover :| mover in s.readers;
      PointsInRange(s, mover);
    } else if u: Tid :| u < |s.threads| && s.threads[u].point.Wanting? && !IsRead(s.threads[u].point.op) {
      mover := u;
      PointsInRange(s, mover);
    } else if u: Tid :| u < |s.threads| && s.threads[u].point.Wanting? {
      mover := u;
      PointsInRange(s, mover);
    } else if WaitsFor(s, t).Some? {
      mover := FollowOwners(s, t);
    } else {
      mover := t;
    }
  }
}
