/** When calls that overlap a closing still act as if made one at a time in the order of their decisive
    steps: exactly when no step relies on an account closed since it was looked up. Other orders are
    the subject of Reordering. */
module LinearizabilityLimits {
  import opened Bytes
  import opened Bank
  import opened ConcurrentBank
  import opened ConcurrentBankProofs
  import opened ConcurrentBankTheorems
  import opened Linearizability

  lemma LegalPrefix(log: seq<Entry>, longer: seq<Entry>)
    requires log <= longer && Legal(longer)
    ensures Legal(log)
  {
    forall k: nat | k < |log| ensures log[k].result == Apply(After(CallsOf(log[..k])), log[k].call).1 {
      assert longer[..k] == log[..k] && longer[k] == log[k];
    }
  }

  /** A call that the store will refuse, or has refused, because the account was closed under it. */
  ghost predicate Lost(s: State, t: Tid) {
    t < |s.threads| &&
    match s.threads[t].point
    case Wanting(op) => (op.Update? || op.Delete?) && Gone(s, op.obj)
    case Inside(op) => (op.Update? || op.Delete?) && Gone(s, op.obj)
    case Unlock(_, result) => result == Failed(StoreNotFound)
    case Finished(result) => result == Failed(StoreNotFound)
    case _ => false
  }

  lemma LostMoves(s: State, t: Tid)
    requires Inv(s) && Enabled(s, t) && Lost(s, t)
    ensures Lost(Step(s, t), t) && (s.threads[t].call.Close? ==> Step(s, t).threads[t].answer == s.threads[t].answer)
  {
    hide Held, Counted, MutexesOk, StoreLockOk, CheckAuth;
    assert PointOk(s.objs, s.threads[t].call, s.threads[t].point);
  }

  lemma GoneForGood(s: State, t: Tid, o: Obj)
    requires Inv(s) && Enabled(s, t) && Gone(s, o)
    ensures Gone(Step(s, t), o)
  {
    hide Step, Enabled, Counted, PointsOk, MutexesOk, StoreLockOk;
    StepMoves(s, t);
    StepKeepsDead(s, t, s.objs[o].number);
  }

  lemma LostStays(s: State, t: Tid, u: Tid)
    requires Inv(s) && Enabled(s, t) && Lost(s, u)
    ensures Lost(Step(s, t), u)
    ensures s.threads[u].call.Close? ==> Step(s, t).threads[u].answer == s.threads[u].answer
    ensures Step(s, t).threads[u].call == s.threads[u].call
  {
    StepMoves(s, t);
    if u == t {
      LostMoves(s, t);
    } else {
      hide Step, Inv, Enabled, Gone;
      forall o: Obj | Gone(s, o) ensures Gone(Step(s, t), o) {
        GoneForGood(s, t, o);
      }
    }
  }

  /** A close that finds its account already gone: it will end undecided. */
  ghost predicate Doomed(s: State, t: Tid) {
    Lost(s, t) && s.threads[t].call.Close? && s.threads[t].answer == None
  }

  ghost predicate Spoiled(s: State) {
    !Legal(s.log) || exists t: Tid :: Doomed(s, t)
  }

  lemma {:induction false} SpoiledForGood(s: State, schedule: Schedule)
    requires Inv(s) && Spoiled(s) && Runs(s, schedule)
    ensures Spoiled(Exec(s, schedule)) && Inv(Exec(s, schedule))
    decreases |schedule|
  {
    if schedule != [] {
      hide Step, Inv, Legal, Lost, Enabled;
      var t, s' := schedule[0], Step(s, schedule[0]);
      StepKeepsInv(s, t);
      if u: Tid :| Doomed(s, u) {
        LostStays(s, t, u);
        assert Doomed(s', u);
      } else {
        LogGrows(s, t);
        if Legal(s'.log) {
          LegalPrefix(s.log, s'.log);
        }
      }
      SpoiledForGood(s', schedule[1..]);
    }
  }

  /** A spoiled run is not explained in the order of its log once all its calls have finished. */
  lemma SpoiledIsNotLinearized(s: State)
    requires Spoiled(s) && AllFinished(s)
    ensures !Linearized(s)
  {
    hide Stored, After, CallsOf, Apply, Logged;
  }

  /** What a stale decision answers is not what the call made then would return. */
  ghost predicate AnswersWrongly(s: State, s': State, t: Tid) {
    t < |s.threads| && |s'.log| == |s.log| + 1 && s'.log[..|s.log|] == s.log
    && var e := s'.log[|s.log|]; e.call == s.threads[t].call && e.result != Apply(Abs(s), e.call).1
  }

  lemma WrongAnswersSpoil(s: State, s': State, t: Tid)
    requires Linear(s) && AnswersWrongly(s, s', t)
    ensures Spoiled(s')
  {
    hide Abs, After, Apply, LogMatches, AnswersOk, CallsOf;
    var k := |s.log|;
    assert s'.log[..k] == s.log;
  }

  lemma NotAttachedNotThere(s: State, o: Obj)
    requires o < |s.objs| && !Attached(s, o)
    ensures s.objs[o].number !in Abs(s).accounts
  {
  }

  lemma StaleSection(s: State, t: Tid, obj: Obj)
    requires t < |s.threads| && s.threads[t].point == Section(obj) && obj < |s.objs|
    requires Inv(s) && Linear(s) && !Attached(s, obj)
    ensures Spoiled(SectionStep(s, t, obj))
  {
    hide Legal, After, CallsOf, LogMatches, Counted, MutexesOk, StoreLockOk, Abs, Held;
    assert PointOk(s.objs, s.threads[t].call, s.threads[t].point);
    assert AnswerOk(s, s.threads[t]);
    var s' := SectionStep(s, t, obj);
    if s.threads[t].call.Close? {
      assert Doomed(s', t);
    } else {
      NotAttachedNotThere(s, obj);
      assert AnswersWrongly(s, s', t);
      hide AnswersWrongly, Linear, Spoiled;
      WrongAnswersSpoil(s, s', t);
    }
  }

  lemma StaleTransfer(s: State, t: Tid, from: Obj, to: Obj)
    requires t < |s.threads| && s.threads[t].point == TransferSection(from, to) && from < |s.objs| && to < |s.objs|
    requires Inv(s) && Linear(s) && (!Attached(s, from) || !Attached(s, to))
    ensures Spoiled(DebitStep(s, t, from, to))
  {
    hide Legal, After, CallsOf, LogMatches, AnswersOk, Counted, MutexesOk, StoreLockOk, Abs, Held;
    assert PointOk(s.objs, s.threads[t].call, s.threads[t].point);
    var s' := DebitStep(s, t, from, to);
    if !Attached(s, from) { NotAttachedNotThere(s, from); } else { NotAttachedNotThere(s, to); }
    assert AnswersWrongly(s, s', t);
    hide AnswersWrongly, Linear, Spoiled;
    WrongAnswersSpoil(s, s', t);
  }

  lemma StaleLookup(s: State, t: Tid, from: Obj)
    requires t < |s.threads| && s.threads[t].point == Inside(GetTo(from)) && from < |s.objs|
    requires Inv(s) && Linear(s) && !Attached(s, from) && LookupReports(s, s.threads[t].call, from)
    ensures Spoiled(StoreStep(s, t, GetTo(from)))
  {
    hide Legal, After, CallsOf, LogMatches, AnswersOk, Counted, MutexesOk, StoreLockOk, Abs, Held;
    assert PointOk(s.objs, s.threads[t].call, s.threads[t].point);
    var s' := StoreStep(s, t, GetTo(from));
    NotAttachedNotThere(s, from);
    assert AnswersWrongly(s, s', t);
    hide AnswersWrongly, Linear, Spoiled;
    WrongAnswersSpoil(s, s', t);
  }

  lemma StaleStepSpoils(s: State, t: Tid)
    requires Inv(s) && Linear(s) && Enabled(s, t) && Stale(s, t)
    ensures Spoiled(Step(s, t))
  {
    hide StoreStep, SectionStep, DebitStep, Spoiled, Inv, Linear, Attached, LookupReports;
    match s.threads[t].point
    case Section(obj) => StaleSection(s, t, obj);
    case TransferSection(from, to) => StaleTransfer(s, t, from, to);
    case Inside(op) => StaleLookup(s, t, op.from);
  }

  lemma {:induction false} StaleRunsAreSpoiled(s: State, schedule: Schedule)
    requires Inv(s) && Linear(s) && Runs(s, schedule) && !NeverStale(s, schedule)
    ensures Spoiled(Exec(s, schedule))
    decreases |schedule|
  {
    hide Step, Inv, Linear, Stale, Spoiled;
    var t := schedule[0];
    StepKeepsInv(s, t);
    if Stale(s, t) {
      StaleStepSpoils(s, t);
      SpoiledForGood(Step(s, t), schedule[1..]);
    } else {
      StepKeepsLinear(s, t);
      StaleRunsAreSpoiled(Step(s, t), schedule[1..]);
    }
  }

  /** A complete run has the results and leaves the store of its calls made one at a time, in the order
      of their decisive steps, exactly when no thread relied on an account closed since it looked
      it up. */
  lemma {:induction false} LinearizableExactly(calls: seq<Call>, schedule: Schedule)
    requires |OpenCalls(calls)| < ID_SPACE - FIRST_ID && Runs(Initial(calls), schedule)
    requires AllFinished(Exec(Initial(calls), schedule))
    ensures Linearized(Exec(Initial(calls), schedule)) <==> NeverStale(Initial(calls), schedule)
  {
    hide Inv, Linear, Linearized, Exec, Runs, NeverStale, Initial, Spoiled, AllFinished;
    if NeverStale(Initial(calls), schedule) {
      Linearizable(calls, schedule);
    } else {
      InitialInv(calls);
      InitialLinear(calls);
      StaleRunsAreSpoiled(Initial(calls), schedule);
      SpoiledIsNotLinearized(Exec(Initial(calls), schedule));
    }
  }
}
