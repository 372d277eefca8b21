/** Linearisability in any order, when accounts are closed. A call that only read an account closed
    since it looked it up can be moved to just before the closing; one that was refused by the store
    cannot be explained by any order. */
module Reordering {
  import opened Bytes
  import opened Bank
  import opened ConcurrentBank
  import opened ConcurrentBankProofs
  import opened ConcurrentBankTheorems
  import opened Linearizability
  import opened LinearizabilityLimits

  // ----- moving an entry that changes nothing -----

  function Insert(order: seq<Entry>, p: nat, e: Entry): (r: seq<Entry>)
    requires p <= |order|
    ensures |r| == |order| + 1 && r[p] == e
    ensures forall k: nat | k < p :: r[k] == order[k]
    ensures forall k: nat | p < k < |r| :: r[k] == order[k - 1]
  {
    order[..p] + [e] + order[p..]
  }

  /** The call returns what is noted with it after the first p calls of the order, and changes nothing. */
  ghost predicate FitsAt(order: seq<Entry>, p: nat, e: Entry)
    requires p <= |order|
  {
    Apply(After(CallsOf(order[..p])), e.call) == (After(CallsOf(order[..p])), e.result)
  }

  lemma {:induction false} AfterInsert(order: seq<Entry>, p: nat, e: Entry, k: nat)
    requires p <= k <= |order| && FitsAt(order, p, e)
    ensures After(CallsOf(Insert(order, p, e)[..k + 1])) == After(CallsOf(order[..k]))
    decreases k
  {
    hide After, CallsOf, Apply;
    var all := Insert(order, p, e);
    if k == p {
      assert all[..p + 1] == order[..p] + [e];
      AfterSnoc(order[..p], e);
    } else {
      AfterInsert(order, p, e, k - 1);
      assert all[..k + 1] == all[..k] + [order[k - 1]] && order[..k] == order[..k - 1] + [order[k - 1]];
      AfterSnoc(all[..k], order[k - 1]);
      AfterSnoc(order[..k - 1], order[k - 1]);
    }
  }

  lemma LegalInsert(order: seq<Entry>, p: nat, e: Entry)
    requires p <= |order| && Legal(order) && FitsAt(order, p, e)
    ensures Legal(Insert(order, p, e))
  {
    hide After, CallsOf, Apply;
    var all := Insert(order, p, e);
    forall k: nat | k < |all| ensures all[k].result == Apply(After(CallsOf(all[..k])), all[k].call).1 {
      if k <= p {
        assert all[..k] == order[..k];
      } else {
        AfterInsert(order, p, e, k - 1);
      }
    }
  }

  // ----- the order built along a run -----

  /** After the first p calls of the order the account was as its closed object still is. */
  ghost predicate WasThere(a: Account, order: seq<Entry>, p: nat) {
    p <= |order| && a.number in After(CallsOf(order[..p])).accounts
    && After(CallsOf(order[..p])).accounts[a.number] == a
  }

  /** `order` explains the state, and `at` says for each closed object where its closing stands. */
  ghost predicate Arranged(s: State, order: seq<Entry>, at: map<Obj, nat>) {
    Legal(order) && After(CallsOf(order)) == Abs(s) && HoldsDecided(s, order) && AnswersOk(s)
    && (forall o: Obj | Gone(s, o) :: o in at)
    && (forall o <- at :: Gone(s, o) && WasThere(s.objs[o], order, at[o]))
  }

  /** The account a thread has looked up and will rely on under its mutex. */
  function Relies(p: Point): Option<Obj> {
    match p
    case LockOne(obj) => Some(obj)
    case Section(obj) => Some(obj)
    case _ => None
  }

  /** What had ended at a moment is ordered before what had not begun. */
  ghost predicate EndedFirst(base: State, order: seq<Entry>) {
    forall i: nat, j: nat | i < |order| && j < |order| && Ended(base, order[i].tid) && Unbegun(base, order[j].tid) ::
      i < j
  }

  /** Seen from an earlier moment: what had ended by then is ordered before what had not begun, and
      before every closing since. */
  ghost predicate Since(base: State, s: State, order: seq<Entry>, at: map<Obj, nat>) {
    EndedFirst(base, order)
    && (forall o: Obj, i: nat | o in at && !Gone(base, o) && i < |order| && Ended(base, order[i].tid) :: i < at[o])
    && (forall t: Tid | t < |s.threads| && Unbegun(base, t) && Relies(s.threads[t].point).Some? ::
          !Gone(base, Relies(s.threads[t].point).value))
    && (forall t: Tid | Ended(base, t) :: Logged(order, t))
    && (forall o: Obj | Gone(base, o) :: Gone(s, o))
  }

  lemma SinceNow(s: State, order: seq<Entry>, at: map<Obj, nat>)
    requires Arranged(s, order, at)
    ensures Since(s, s, order, at)
  {
    hide Legal, After, CallsOf, Abs, WasThere, Logged, Attached;
    forall t: Tid | t < |s.threads| ensures AnswerOk(s, s.threads[t]) {
    }
  }

  // ----- one step that relies on nothing closed -----

  /** A closed object stays as it is. */
  ghost predicate ClosedStay(s: State, s': State) {
    forall o: Obj | Gone(s, o) :: Gone(s', o) && s'.objs[o] == s.objs[o]
  }

  /** Only a deletion closes, and it closes one object, under its mutex. */
  ghost predicate ClosesOne(s: State, s': State, t: Tid) {
    t < |s.threads|
    && forall o: Obj | Gone(s', o) && !Gone(s, o) ::
         Attached(s, o) && s'.objs[o] == s.objs[o] && s.threads[t].point == Inside(Delete(o)) && Holds(s, t, o)
  }

  /** What a thread comes to rely on is not closed then. */
  ghost predicate LooksUpOpen(s: State, s': State, t: Tid) {
    t < |s.threads| && t < |s'.threads|
    && (Relies(s'.threads[t].point).Some? ==>
          Relies(s'.threads[t].point) == Relies(s.threads[t].point) || !Gone(s, Relies(s'.threads[t].point).value))
  }

  lemma ReadCloses(s: State, t: Tid, op: StoreOp)
    requires t < |s.threads| && s.threads[t].point == Inside(op) && OpOk(s.objs, s.threads[t].call, op)
    requires NumbersMatch(s) && IsRead(op)
    ensures var s' := StoreStep(s, t, op);
            ClosedStay(s, s') && ClosesOne(s, s', t) && LooksUpOpen(s, s', t)
  {
    ReadNumbers(s, t, op);
    hide CheckAuth, Held;
  }

  lemma WriteCloses(s: State, t: Tid, op: StoreOp)
    requires t < |s.threads| && s.threads[t].point == Inside(op) && OpOk(s.objs, s.threads[t].call, op)
    requires NumbersMatch(s) && !IsRead(op)
    ensures var s' := StoreStep(s, t, op);
            ClosedStay(s, s') && ClosesOne(s, s', t) && LooksUpOpen(s, s', t)
  {
    hide CheckAuth;
  }

  lemma StoreClosing(s: State, t: Tid, op: StoreOp)
    requires t < |s.threads| && s.threads[t].point == Inside(op) && OpOk(s.objs, s.threads[t].call, op)
    requires NumbersMatch(s)
    ensures var s' := StoreStep(s, t, op);
            ClosedStay(s, s') && ClosesOne(s, s', t) && LooksUpOpen(s, s', t)
  {
    hide StoreStep, ClosedStay, ClosesOne, LooksUpOpen;
    if IsRead(op) { ReadCloses(s, t, op); } else { WriteCloses(s, t, op); }
  }

  /** Neither accounts nor the store's map change, and nothing new is relied on. */
  lemma NothingCloses(s: State, s': State, t: Tid)
    requires t < |s.threads| && t < |s'.threads| && s'.objs == s.objs && s'.live == s.live
    requires Relies(s'.threads[t].point).Some? ==> Relies(s'.threads[t].point) == Relies(s.threads[t].point)
    ensures ClosedStay(s, s') && ClosesOne(s, s', t) && LooksUpOpen(s, s', t)
  {
  }

  /** One attached account's balance changes. */
  lemma NothingClosesBut(s: State, s': State, t: Tid, obj: Obj)
    requires t < |s.threads| && t < |s'.threads| && Attached(s, obj) && s'.live == s.live
    requires |s'.objs| == |s.objs| && s'.objs == s.objs[obj := s.objs[obj].(balance := s'.objs[obj].balance)]
    requires Relies(s'.threads[t].point) == None
    ensures ClosedStay(s, s') && ClosesOne(s, s', t) && LooksUpOpen(s, s', t)
  {
  }

  lemma StartCloses(s: State, t: Tid)
    requires t < |s.threads| && s.threads[t].point.Start?
    ensures var s' := StartStep(s, t);
            ClosedStay(s, s') && ClosesOne(s, s', t) && LooksUpOpen(s, s', t)
  {
    hide ClosedStay, ClosesOne, LooksUpOpen;
    NothingCloses(s, StartStep(s, t), t);
  }

  lemma SectionCloses(s: State, t: Tid, obj: Obj)
    requires t < |s.threads| && s.threads[t].point == Section(obj) && Attached(s, obj)
    ensures var s' := SectionStep(s, t, obj);
            ClosedStay(s, s') && ClosesOne(s, s', t) && LooksUpOpen(s, s', t)
  {
    hide ClosedStay, ClosesOne, LooksUpOpen;
    NothingClosesBut(s, SectionStep(s, t, obj), t, obj);
  }

  lemma TransferCloses(s: State, t: Tid, from: Obj, to: Obj)
    requires t < |s.threads| && s.threads[t].call.Transfer? && Attached(s, from) && Attached(s, to)
    requires s.threads[t].point == TransferSection(from, to) || s.threads[t].point == Credit(from, to)
    ensures var s' := if s.threads[t].point.Credit? then CreditStep(s, t, from, to) else DebitStep(s, t, from, to);
            ClosedStay(s, s') && ClosesOne(s, s', t) && LooksUpOpen(s, s', t)
  {
    hide ClosedStay, ClosesOne, LooksUpOpen;
    if s.threads[t].point.Credit? {
      NothingClosesBut(s, CreditStep(s, t, from, to), t, to);
    } else {
      NothingClosesBut(s, DebitStep(s, t, from, to), t, from);
    }
  }

  lemma LockCloses(s: State, t: Tid)
    requires t < |s.threads| && InRange(|s.objs|, s.threads[t].point) && IsLockPoint(s.threads[t].point)
    ensures var s' := LockStep(s, t);
            ClosedStay(s, s') && ClosesOne(s, s', t) && LooksUpOpen(s, s', t)
  {
    hide ClosedStay, ClosesOne, LooksUpOpen, Lower, Higher;
    NothingCloses(s, LockStep(s, t), t);
  }

  lemma StepCloses(s: State, t: Tid)
    requires Inv(s) && Enabled(s, t) && !Stale(s, t) && AnswerOk(s, s.threads[t])
    ensures var s' := Step(s, t);
            ClosedStay(s, s') && ClosesOne(s, s', t) && LooksUpOpen(s, s', t)
  {
    hide StoreStep, StartStep, SectionStep, DebitStep, CreditStep, LockStep, Held, ClosedStay, ClosesOne, LooksUpOpen;
    hide NumbersMatch, Counted, MutexesOk, StoreLockOk, CheckAuth, Attached;
    assert PointOk(s.objs, s.threads[t].call, s.threads[t].point);
    match s.threads[t].point
    case Start => StartCloses(s, t);
    case Inside(op) => StoreClosing(s, t, op);
    case Section(obj) => SectionCloses(s, t, obj);
    case TransferSection(from, to) => TransferCloses(s, t, from, to);
    case Credit(from, to) => TransferCloses(s, t, from, to);
    case _ => LockCloses(s, t);
  }

  // ----- keeping the arrangement -----

  lemma LoggedInsert(order: seq<Entry>, p: nat, e: Entry, u: Tid)
    requires p <= |order|
    ensures Logged(Insert(order, p, e), u) <==> Logged(order, u) || u == e.tid
  {
    var all := Insert(order, p, e);
    assert all[p].tid == e.tid;
    if k: nat :| k < |order| && order[k].tid == u {
      assert all[if k < p then k else k + 1].tid == u;
    }
  }

  lemma InsertHolds(s: State, s': State, t: Tid, order: seq<Entry>, p: nat, e: Entry)
    requires HoldsDecided(s, order) && p <= |order| && Moves(s, s', t)
    requires e.tid == t && e.call == s.threads[t].call && s.threads[t].answer == None
    requires s'.threads[t].answer == Some(e.result)
    ensures HoldsDecided(s', Insert(order, p, e))
  {
    hide Logged;
    forall u: Tid ensures Logged(Insert(order, p, e), u) <==> Logged(order, u) || u == e.tid {
      LoggedInsert(order, p, e, u);
    }
  }

  /** Where the closings stand after an insertion at p. */
  function Shift(q: nat, p: nat): nat {
    if q > p then q + 1 else q
  }

  lemma WasThereStays(a: Account, order: seq<Entry>, q: nat, p: nat, e: Entry)
    requires p <= |order| && WasThere(a, order, q) && (p < q ==> FitsAt(order, p, e))
    ensures WasThere(a, Insert(order, p, e), Shift(q, p))
  {
    hide After, CallsOf, Apply;
    if q > p {
      AfterInsert(order, p, e, q);
    } else {
      assert Insert(order, p, e)[..q] == order[..q];
    }
  }

  /** Where the entry at i of an order with an insertion at p was before. */
  function Before(i: nat, p: nat): nat
    requires i != p
  {
    if i < p then i else i - 1
  }

  lemma InsertKeepsOrder(base: State, order: seq<Entry>, p: nat, e: Entry)
    requires p <= |order| && !Ended(base, e.tid)
    requires EndedFirst(base, order)
    requires Unbegun(base, e.tid) ==> forall i: nat | i < |order| && Ended(base, order[i].tid) :: i < p
    ensures EndedFirst(base, Insert(order, p, e))
  {
    hide Insert, Ended, Unbegun;
    var all := Insert(order, p, e);
    forall i: nat, j: nat | i < |all| && j < |all| && Ended(base, all[i].tid) && Unbegun(base, all[j].tid)
      ensures i < j
    {
      assert i != p && all[i] == order[Before(i, p)];
      if j != p {
        assert all[j] == order[Before(j, p)];
      }
    }
  }

  lemma InsertKeepsClosings(base: State, order: seq<Entry>, p: nat, e: Entry, q: nat)
    requires p <= |order| && q <= |order| && !Ended(base, e.tid)
    requires forall i: nat | i < |order| && Ended(base, order[i].tid) :: i < q
    ensures var all := Insert(order, p, e);
            forall i: nat | i < |all| && Ended(base, all[i].tid) :: i < Shift(q, p)
  {
    hide Insert, Ended;
    var all := Insert(order, p, e);
    forall i: nat | i < |all| && Ended(base, all[i].tid) ensures i < Shift(q, p) {
      assert i != p && all[i] == order[Before(i, p)];
    }
  }

  /** Inserting the moving thread's entry keeps the view from an earlier moment, if it goes to the end or
      to where the account it relies on was closed. */
  lemma InsertKeepsSince(base: State, s: State, s': State, t: Tid, order: seq<Entry>, at: map<Obj, nat>,
                         p: nat, e: Entry, at': map<Obj, nat>)
    requires Since(base, s, order, at) && HoldsDecided(s, order) && Moves(s, s', t) && p <= |order|
    requires e.tid == t && s.threads[t].answer == None
    requires ClosedStay(s, s') && LooksUpOpen(s, s', t)
    requires p == |order| || (Relies(s.threads[t].point).Some? && Relies(s.threads[t].point).value in at
                              && p == at[Relies(s.threads[t].point).value])
    requires forall o: Obj | o in at' ::
               (if o in at then at[o] <= |order| && at'[o] == Shift(at[o], p) else at'[o] == |order| == p)
    ensures Since(base, s', Insert(order, p, e), at')
  {
    hide Attached, ClosedStay, Insert;
    assert !Logged(order, t);
    hide Logged, HoldsDecided, Ended, Unbegun;
    forall u: Tid ensures Logged(Insert(order, p, e), u) <==> Logged(order, u) || u == e.tid {
      LoggedInsert(order, p, e, u);
    }
    InsertKeepsOrder(base, order, p, e);
    forall o: Obj, i: nat | o in at' && !Gone(base, o) && i < |order| + 1 && Ended(base, Insert(order, p, e)[i].tid)
      ensures i < at'[o]
    {
      InsertKeepsClosings(base, order, p, e, if o in at then at[o] else |order|);
    }
    GoneStays(base, s, s');
  }

  lemma GoneStays(base: State, s: State, s': State)
    requires ClosedStay(s, s') && forall o: Obj | Gone(base, o) :: Gone(s, o)
    ensures forall o: Obj | Gone(base, o) :: Gone(s', o)
  {
  }

  lemma SilenceKeepsSince(base: State, s: State, s': State, t: Tid, order: seq<Entry>,
                          at: map<Obj, nat>, at': map<Obj, nat>)
    requires Since(base, s, order, at) && Moves(s, s', t) && ClosedStay(s, s') && LooksUpOpen(s, s', t)
    requires forall o: Obj | o in at' :: at'[o] == if o in at then at[o] else |order|
    ensures Since(base, s', order, at')
  {
    hide Attached, Logged;
  }

  /** The closings after a step: one that is new stands at the end. */
  function AtAfter(s': State, at: map<Obj, nat>, end: nat): map<Obj, nat> {
    map o: Obj | 0 <= o < |s'.objs| && Gone(s', o) :: if o in at then at[o] else end
  }

  lemma ClosedJustNow(s: State, s': State, t: Tid, order: seq<Entry>, o: Obj)
    requires NumbersMatch(s) && MutexesOk(s) && ClosesOne(s, s', t) && Gone(s', o) && !Gone(s, o)
    requires After(CallsOf(order)) == Abs(s)
    ensures s'.objs[o] == s.objs[o] && WasThere(s.objs[o], order, |order|)
  {
    hide After, CallsOf, NumbersMatch, MutexesOk, Abs, Held, Attached;
    NotInFlight(s, t, o);
    AbsAt(s, o);
    assert order[..|order|] == order;
  }

  /** After a step that relies on nothing closed every closing has its place, whether or not the step
      added an entry. */
  lemma ClosingsPlaced(s: State, s': State, t: Tid, order: seq<Entry>, at: map<Obj, nat>, order': seq<Entry>)
    requires Inv(s) && Arranged(s, order, at) && ClosedStay(s, s') && ClosesOne(s, s', t)
    requires order' == order || exists e: Entry :: order' == Insert(order, |order|, e)
    ensures var at' := AtAfter(s', at, |order|);
            (forall o: Obj | Gone(s', o) :: o in at')
            && (forall o <- at' :: Gone(s', o) && WasThere(s'.objs[o], order', at'[o]))
  {
    hide Legal, After, CallsOf, Abs, HoldsDecided, AnswersOk, Inv, WasThere, Attached;
    forall o: Obj | Gone(s', o) ensures WasThere(s'.objs[o], order', if o in at then at[o] else |order|) {
      var q := if o in at then at[o] else |order|;
      assert WasThere(s'.objs[o], order, q) by {
        if !Gone(s, o) {
          InvParts(s);
          ClosedJustNow(s, s', t, order, o);
        }
      }
      if order' != order {
        var e: Entry :| order' == Insert(order, |order|, e);
        InRangeOf(s'.objs[o], order, q);
        WasThereStays(s'.objs[o], order, q, |order|, e);
      }
    }
  }

  lemma InvParts(s: State)
    requires Inv(s)
    ensures NumbersMatch(s) && MutexesOk(s)
  {
  }

  lemma InRangeOf(a: Account, order: seq<Entry>, q: nat)
    requires WasThere(a, order, q)
    ensures q <= |order|
  {
  }

  lemma SilentHolds(s: State, s': State, t: Tid, order: seq<Entry>)
    requires HoldsDecided(s, order) && Moves(s, s', t) && s'.threads[t].answer == s.threads[t].answer
    ensures HoldsDecided(s', order)
  {
    hide Logged;
  }

  lemma OthersAnswersStay(s: State, s': State, t: Tid)
    requires Inv(s) && Moves(s, s', t) && TouchesOwn(s, s', t) && AnswersOk(s) && AnswerOk(s', s'.threads[t])
    ensures AnswersOk(s')
  {
    hide Inv, TouchesOwn, AnswerOk;
    forall u: Tid | u < |s'.threads| ensures AnswerOk(s', s'.threads[u]) {
      if u != t {
        OthersStillOk(s, s', t, u);
      }
    }
  }

  lemma AtInRange(s: State, order: seq<Entry>, at: map<Obj, nat>)
    requires Arranged(s, order, at)
    ensures forall o <- at :: o < |s.objs| && at[o] <= |order|
  {
    hide Legal, After, CallsOf, Abs, HoldsDecided, AnswersOk;
  }

  /** A step that relies on nothing closed extends the order at its end, or not at all. */
  lemma SteadyStep(s: State, t: Tid, order: seq<Entry>, at: map<Obj, nat>)
    returns (order': seq<Entry>, at': map<Obj, nat>)
    requires Inv(s) && Enabled(s, t) && !Stale(s, t) && Arranged(s, order, at)
    ensures Arranged(Step(s, t), order', at')
    ensures forall base: State | Since(base, s, order, at) :: Since(base, Step(s, t), order', at')
  {
    assert t < |s.threads| && AnswerOk(s, s.threads[t]);
    AtInRange(s, order, at);
    hide Step, Inv, Enabled, Stale, Legal, After, CallsOf, Abs, WasThere, AnswerOk, Gone, HoldsDecided, Since, Apply;
    hide TouchesOwn, ClosedStay, ClosesOne, LooksUpOpen, Moves;
    var s' := Step(s, t);
    StepMoves(s, t);
    StepLinear(s, t);
    StepCloses(s, t);
    OthersAnswersStay(s, s', t);
    at' := AtAfter(s', at, |order|);
    if Silent(s, s', t) {
      order' := order;
      SilentHolds(s, s', t, order);
      forall base: State | Since(base, s, order, at) ensures Since(base, s', order', at') {
        SilenceKeepsSince(base, s, s', t, order, at, at');
      }
    } else {
      var e := Entry(t, s.threads[t].call, Apply(Abs(s), s.threads[t].call).1);
      order' := Insert(order, |order|, e);
      assert order' == order + [e];
      AfterSnoc(order, e);
      LegalSnoc(order, e);
      InsertHolds(s, s', t, order, |order|, e);
      forall base: State | Since(base, s, order, at) ensures Since(base, s', order', at') {
        InsertKeepsSince(base, s, s', t, order, at, |order|, e, at');
      }
    }
    ClosingsPlaced(s, s', t, order, at, order');
  }

  // ----- a step that only reads a closed account -----

  /** Under the account's mutex the call finds a reason to change nothing, or asked for no change. */
  predicate ReadsOnly(s: State, t: Tid) {
    t < |s.threads| && s.threads[t].point.Section? && s.threads[t].point.obj < |s.objs|
    && var a := s.objs[s.threads[t].point.obj];
       match s.threads[t].call
       case CheckBalance(_, _, _) => true
       case Deposit(_, _, _, currency, _) => a.currency != currency
       case Withdraw(_, _, _, currency, amount) => a.currency != currency || a.balance < amount
       case _ => false
  }

  lemma ReadingFits(s: State, t: Tid, order: seq<Entry>, p: nat) returns (e: Entry)
    requires t < |s.threads| && PointOk(s.objs, s.threads[t].call, s.threads[t].point) && ReadsOnly(s, t)
    requires p <= |order| && WasThere(s.objs[s.threads[t].point.obj], order, p)
    ensures var s' := SectionStep(s, t, s.threads[t].point.obj);
            e.tid == t && e.call == s.threads[t].call && FitsAt(order, p, e)
            && Moves(s, s', t) && s'.threads[t].answer == Some(e.result)
            && s'.threads[t].point == Unlock(s.threads[t].point.obj, e.result)
            && s'.objs == s.objs && s'.live == s.live && s'.nextId == s.nextId && s'.owner == s.owner
  {
    hide After, CallsOf, Held;
    var obj, b := s.threads[t].point.obj, After(CallsOf(order[..p]));
    SectionCases(s, t, obj, b);
    e := Entry(t, s.threads[t].call, Apply(b, s.threads[t].call).1);
    assert b.accounts[s.threads[t].call.id := s.objs[obj]] == b.accounts;
  }

  lemma ReadingSetup(s: State, t: Tid, order: seq<Entry>, at: map<Obj, nat>) returns (obj: Obj)
    requires Inv(s) && Enabled(s, t) && Stale(s, t) && ReadsOnly(s, t) && Arranged(s, order, at)
    ensures t < |s.threads| && s.threads[t].point == Section(obj) && obj < |s.objs| && s.threads[t].answer == None
    ensures PointOk(s.objs, s.threads[t].call, s.threads[t].point) && Step(s, t) == SectionStep(s, t, obj)
    ensures Gone(s, obj) && obj in at && WasThere(s.objs[obj], order, at[obj])
  {
    hide Step, SectionStep, Legal, After, CallsOf, Abs, WasThere, HoldsDecided;
    obj := s.threads[t].point.obj;
    assert PointOk(s.objs, s.threads[t].call, s.threads[t].point) && AnswerOk(s, s.threads[t]);
    StepIsSection(s, t, obj);
  }

  lemma SameGone(s: State, s': State)
    requires s'.objs == s.objs && s'.live == s.live
    ensures forall o: Obj :: Gone(s', o) == Gone(s, o)
  {
  }

  lemma StepIsSection(s: State, t: Tid, obj: Obj)
    requires Enabled(s, t) && s.threads[t].point == Section(obj)
    ensures Step(s, t) == SectionStep(s, t, obj)
  {
  }

  /** Such a step's entry goes to just before the closing. */
  lemma ReadingStep(s: State, t: Tid, order: seq<Entry>, at: map<Obj, nat>)
    returns (order': seq<Entry>, at': map<Obj, nat>)
    requires Inv(s) && Enabled(s, t) && Stale(s, t) && ReadsOnly(s, t) && Arranged(s, order, at)
    ensures Arranged(Step(s, t), order', at')
    ensures forall base: State | Since(base, s, order, at) :: Since(base, Step(s, t), order', at')
  {
    hide Step, Inv, Enabled, Stale, ReadsOnly, SectionStep, PointOk, Legal, After, CallsOf, Abs, WasThere, HoldsDecided;
    hide ClosedStay, ClosesOne, LooksUpOpen, FitsAt, Since, Apply, Gone, AnswersOk;
    var obj := ReadingSetup(s, t, order, at);
    AtInRange(s, order, at);
    var s' := Step(s, t);
    var p := at[obj];
    var e := ReadingFits(s, t, order, p);
    order' := Insert(order, p, e);
    at' := map o <- at :: Shift(at[o], p);
    LegalInsert(order, p, e);
    AfterInsert(order, p, e, |order|);
    assert order'[..|order| + 1] == order' && order[..|order|] == order;
    InsertHolds(s, s', t, order, p, e);
    SameView(s, s', t);
    NothingCloses(s, s', t);
    SameGone(s, s');
    forall o | o in at ensures WasThere(s.objs[o], order', at'[o]) {
      WasThereStays(s.objs[o], order, at[o], p, e);
    }
    forall base: State | Since(base, s, order, at) ensures Since(base, s', order', at') {
      InsertKeepsSince(base, s, s', t, order, at, p, e, at');
    }
  }

  /** A step that changes no account keeps the bank and what other threads know of it. */
  lemma SameView(s: State, s': State, t: Tid)
    requires Inv(s) && Moves(s, s', t) && s'.objs == s.objs && s'.live == s.live && s'.nextId == s.nextId
    requires s'.owner == s.owner
    requires s.threads[t].point.Section? && s'.threads[t].point.Unlock? && AnswersOk(s)
    requires s'.threads[t].answer == Some(s'.threads[t].point.result)
    ensures Abs(s') == Abs(s) && AnswersOk(s')
  {
    AbsSame(s, s', t);
    hide Inv;
    OthersAnswersStay(s, s', t);
  }

  // ----- runs -----

  /** Whenever a turn relies on an account closed since it was looked up, it only reads it. */
  predicate OnlyReadsStale(s: State, schedule: Schedule)
    requires Runs(s, schedule)
    decreases |schedule|
  {
    schedule == []
    || ((Stale(s, schedule[0]) ==> ReadsOnly(s, schedule[0])) && OnlyReadsStale(Step(s, schedule[0]), schedule[1..]))
  }

  /** An order can be built along the run that respects real time seen from every moment of it, and from
      every earlier moment in `past`. */
  lemma {:induction false} BuildOrder(past: seq<State>, s: State, order: seq<Entry>, at: map<Obj, nat>,
      schedule: Schedule)
    returns (order': seq<Entry>, at': map<Obj, nat>)
    requires Inv(s) && Arranged(s, order, at) && Runs(s, schedule) && OnlyReadsStale(s, schedule)
    requires forall base <- past :: Since(base, s, order, at)
    ensures var s' := Exec(s, schedule);
            Inv(s') && Arranged(s', order', at')
            && (forall base <- past :: Since(base, s', order', at'))
            && (forall k: nat | k <= |schedule| :: Since(StateAt(s, schedule, k), s', order', at'))
    decreases |schedule|
  {
    hide Step, Inv, Arranged, Since, Stale, ReadsOnly, Enabled;
    SinceNow(s, order, at);
    if schedule == [] {
      order', at' := order, at;
    } else {
      var t, next := schedule[0], Step(s, schedule[0]);
      StepKeepsInv(s, t);
      var order1, at1;
      if Stale(s, t) {
        order1, at1 := ReadingStep(s, t, order, at);
      } else {
        order1, at1 := SteadyStep(s, t, order, at);
      }
      order', at' := BuildOrder(past + [s], next, order1, at1, schedule[1..]);
      var s' := Exec(s, schedule);
      forall k: nat | k <= |schedule| ensures Since(StateAt(s, schedule, k), s', order', at') {
        if k == 0 {
          assert s in past + [s];
        } else {
          assert StateAt(s, schedule, k) == StateAt(next, schedule[1..], k - 1);
        }
      }
    }
  }

  /** A run in which accounts closed since they were looked up are only read is linearisable. */
  lemma {:induction false} ReadingRunsAreLinearizable(calls: seq<Call>, schedule: Schedule)
    requires |OpenCalls(calls)| < ID_SPACE - FIRST_ID && Runs(Initial(calls), schedule)
    requires OnlyReadsStale(Initial(calls), schedule)
    ensures IsLinearizable(calls, schedule)
  {
    InitialInv(calls);
    InitialLinear(calls);
    assert Arranged(Initial(calls), [], map[]);
    hide Inv, Initial, Exec, Runs, OnlyReadsStale, StateAt, Legal, After, CallsOf, Abs, HoldsDecided, AnswersOk, Ended;
    hide Unbegun, Explains;
    var order, at := BuildOrder([], Initial(calls), [], map[], schedule);
    forall k: nat | k <= |schedule|
      ensures Since(StateAt(Initial(calls), schedule, k), Exec(Initial(calls), schedule), order, at)
    {
    }
    OrderExplains(calls, schedule, order);
  }

  // ----- the exact condition -----

  /** No order explains a run in which a finished call returned the store's own not-found error. */
  lemma StoreErrorIsUnexplained(calls: seq<Call>, schedule: Schedule, t: Tid)
    requires Runs(Initial(calls), schedule)
    requires var s := Exec(Initial(calls), schedule); Ended(s, t) && s.threads[t].point.result == Failed(StoreNotFound)
    ensures !IsLinearizable(calls, schedule)
  {
    hide Initial, Exec, Runs, Apply, After, CallsOf, InRealTime, Stored;
    forall order: seq<Entry> ensures !Explains(calls, schedule, order) {
      if Explains(calls, schedule, order) {
        assert Logged(order, t);
        var k: nat :| k < |order| && order[k].tid == t;
        NeverStoreNotFoundAlone(After(CallsOf(order[..k])), order[k].call);
      }
    }
  }

  /** No transfer relies on an account closed since it was looked up. */
  predicate NoTransferStale(s: State, schedule: Schedule)
    requires Runs(s, schedule)
    decreases |schedule|
  {
    schedule == []
    || ((Stale(s, schedule[0]) ==> !s.threads[schedule[0]].call.Transfer?)
        && NoTransferStale(Step(s, schedule[0]), schedule[1..]))
  }

  /** Other calls either only read the closed account or will be refused by the store. */
  lemma StaleReadsOrLoses(s: State, t: Tid)
    requires Inv(s) && Enabled(s, t) && Stale(s, t) && !s.threads[t].call.Transfer? && !ReadsOnly(s, t)
    ensures Lost(Step(s, t), t)
  {
    hide Held, NumbersMatch, Counted, MutexesOk, StoreLockOk, CheckAuth;
    assert PointOk(s.objs, s.threads[t].call, s.threads[t].point);
  }

  lemma {:induction false} LostForGood(s: State, schedule: Schedule, t: Tid)
    requires Inv(s) && Runs(s, schedule) && Lost(s, t)
    ensures Lost(Exec(s, schedule), t)
    decreases |schedule|
  {
    if schedule != [] {
      hide Step, Inv, Lost, Enabled;
      StepKeepsInv(s, schedule[0]);
      LostStays(s, schedule[0], t);
      LostForGood(Step(s, schedule[0]), schedule[1..], t);
    }
  }

  lemma {:induction false} OtherRunsLose(s: State, schedule: Schedule) returns (t: Tid)
    requires Inv(s) && Runs(s, schedule) && NoTransferStale(s, schedule) && !OnlyReadsStale(s, schedule)
    ensures Lost(Exec(s, schedule), t)
    decreases |schedule|
  {
    hide Step, Inv, Lost, Enabled, Stale, ReadsOnly;
    var next := schedule[0];
    StepKeepsInv(s, next);
    if Stale(s, next) && !ReadsOnly(s, next) {
      StaleReadsOrLoses(s, next);
      LostForGood(Step(s, next), schedule[1..], next);
      t := next;
    } else {
      t := OtherRunsLose(Step(s, next), schedule[1..]);
    }
  }

  /** No call ended with the store's own not-found error. */
  ghost predicate NoStoreError(s: State) {
    forall t: Tid | Ended(s, t) :: s.threads[t].point.result != Failed(StoreNotFound)
  }

  /** For complete runs in which no transfer relied on an account closed since it was looked up: some order
      of the calls that respects real time explains every result and the final store exactly when no
      call was refused by the store; and exactly when what was relied on after closing was only read. */
  lemma {:induction false} LinearizableUnlessRefused(calls: seq<Call>, schedule: Schedule)
    requires |OpenCalls(calls)| < ID_SPACE - FIRST_ID && Runs(Initial(calls), schedule)
    requires AllFinished(Exec(Initial(calls), schedule)) && NoTransferStale(Initial(calls), schedule)
    ensures IsLinearizable(calls, schedule) <==> NoStoreError(Exec(Initial(calls), schedule))
    ensures IsLinearizable(calls, schedule) <==> OnlyReadsStale(Initial(calls), schedule)
  {
    InitialInv(calls);
    hide Inv, Initial, Exec, Runs, OnlyReadsStale, NoTransferStale, Lost, IsLinearizable;
    var s := Exec(Initial(calls), schedule);
    if OnlyReadsStale(Initial(calls), schedule) {
      ReadingRunsAreLinearizable(calls, schedule);
      if !NoStoreError(s) {
        var t: Tid :| Ended(s, t) && s.threads[t].point.result == Failed(StoreNotFound);
        StoreErrorIsUnexplained(calls, schedule, t);
      }
    } else {
      var t := OtherRunsLose(Initial(calls), schedule);
      LostAtTheEnd(s, t);
      StoreErrorIsUnexplained(calls, schedule, t);
    }
  }

  lemma LostAtTheEnd(s: State, t: Tid)
    requires Lost(s, t) && AllFinished(s)
    ensures Ended(s, t) && s.threads[t].point.result == Failed(StoreNotFound)
  {
  }

  /** In particular for calls among which there is no transfer. */
  lemma {:induction false} LinearizableWithoutTransfer(calls: seq<Call>, schedule: Schedule)
    requires |OpenCalls(calls)| < ID_SPACE - FIRST_ID && Runs(Initial(calls), schedule)
    requires AllFinished(Exec(Initial(calls), schedule)) && forall c <- calls :: !c.Transfer?
    ensures IsLinearizable(calls, schedule) <==> NoStoreError(Exec(Initial(calls), schedule))
  {
    InitialInv(calls);
    NothingTransfers(Initial(calls), schedule);
    hide Inv, Initial, Exec, Runs, NoTransferStale, IsLinearizable, NoStoreError, AllFinished;
    LinearizableUnlessRefused(calls, schedule);
  }

  lemma {:induction false} NothingTransfers(s: State, schedule: Schedule)
    requires Inv(s) && Runs(s, schedule) && forall t: Tid | t < |s.threads| :: !s.threads[t].call.Transfer?
    ensures NoTransferStale(s, schedule)
    decreases |schedule|
  {
    if schedule != [] {
      hide Step, Inv, Stale;
      StepKeepsInv(s, schedule[0]);
      StepMoves(s, schedule[0]);
      NothingTransfers(Step(s, schedule[0]), schedule[1..]);
    }
  }
}
