/** The banking service run by any number of goroutines at once. Each thread makes one call and
    moves through the program points between two accesses to shared state; a schedule says whose
    turn it is. The store's read-write lock and every account's mutex are explicit, so a thread
    whose lock is taken cannot move. */
module ConcurrentBank {
  import opened Bytes
  import opened Bank

  type Tid = nat

  /** An account object, named by its place in creation order. */
  type Obj = nat

  /** What a thread does while it holds the store's lock. */
  datatype StoreOp =
    | Create
    | Get
    | GetTo(from: Obj)
    | Update(obj: Obj)
    | UpdateFrom(from: Obj, to: Obj)
    | UpdateTo(from: Obj, to: Obj)
    | Delete(obj: Obj)

  datatype Point =
    | Start
    | Wanting(op: StoreOp)                          // waits for the store's lock
    | Inside(op: StoreOp)                           // holds the store's lock
    | LockOne(obj: Obj)                             // waits for an account's mutex
    | LockLow(from: Obj, to: Obj)                   // waits for the lower-numbered of two mutexes
    | LockHigh(from: Obj, to: Obj)                  // holds the lower, waits for the higher
    | Section(obj: Obj)                             // holds the mutex
    | TransferSection(from: Obj, to: Obj)           // holds both mutexes
    | Credit(from: Obj, to: Obj)                    // has debited one account, not yet credited the other
    | UnlockTo(from: Obj, to: Obj, result: Return)  // the deferred unlocks run last-in first-out
    | Unlock(obj: Obj, result: Return)
    | Finished(result: Return)

  /** `answer` is a history variable: what the call will return, fixed at its one decisive step. */
  datatype Thread = Thread(call: Call, point: Point, answer: Option<Return>)

  datatype Entry = Entry(tid: Tid, call: Call, result: Return)

  /** `log` is a history variable: the calls in the order of their decisive steps. */
  datatype State = State(
    objs: seq<Account>,
    live: map<u32, Obj>,
    nextId: u32,
    writer: Option<Tid>,
    readers: set<Tid>,
    owner: map<Obj, Tid>,
    threads: seq<Thread>,
    log: seq<Entry>)

  function Initial(calls: seq<Call>): State {
    State([], map[], FIRST_ID, None, {}, map[],
          seq(|calls|, i requires 0 <= i < |calls| => Thread(calls[i], Start, None)), [])
  }

  // ----- one step of one thread -----

  predicate IsRead(op: StoreOp) {
    op.Get? || op.GetTo?
  }

  function Lower(s: State, from: Obj, to: Obj): Obj
    requires from < |s.objs| && to < |s.objs|
  {
    if s.objs[from].number < s.objs[to].number then from else to
  }

  function Higher(s: State, from: Obj, to: Obj): Obj
    requires from < |s.objs| && to < |s.objs|
  {
    if s.objs[from].number < s.objs[to].number then to else from
  }

  /** The objects a point refers to exist. */
  predicate InRange(n: nat, p: Point) {
    match p
    case Wanting(op) => OpInRange(n, op)
    case Inside(op) => OpInRange(n, op)
    case LockOne(obj) => obj < n
    case LockLow(from, to) => from < n && to < n
    case LockHigh(from, to) => from < n && to < n
    case Section(obj) => obj < n
    case TransferSection(from, to) => from < n && to < n
    case Credit(from, to) => from < n && to < n
    case UnlockTo(from, to, _) => from < n && to < n
    case Unlock(obj, _) => obj < n
    case _ => true
  }

  predicate OpInRange(n: nat, op: StoreOp) {
    match op
    case GetTo(from) => from < n
    case Update(obj) => obj < n
    case UpdateFrom(from, to) => from < n && to < n
    case UpdateTo(from, to) => from < n && to < n
    case Delete(obj) => obj < n
    case _ => true
  }

  /** Thread t is not held up by a lock. */
  predicate Enabled(s: State, t: Tid) {
    t < |s.threads| && InRange(|s.objs|, s.threads[t].point) &&
    match s.threads[t].point
    case Wanting(op) => s.writer == None && (IsRead(op) || s.readers == {})
    case LockOne(obj) => obj !in s.owner
    case LockLow(from, to) => Lower(s, from, to) !in s.owner
    case LockHigh(from, to) => Higher(s, from, to) !in s.owner
    case Finished(_) => false
    case _ => true
  }

  function Go(s: State, t: Tid, p: Point): State
    requires t < |s.threads|
  {
    s.(threads := s.threads[t := s.threads[t].(point := p)])
  }

  /** Moves on and decides the call's answer. */
  function Decide(s: State, t: Tid, p: Point, result: Return): State
    requires t < |s.threads|
  {
    s.(threads := s.threads[t := s.threads[t].(point := p, answer := Some(result))],
       log := s.log + [Entry(t, s.threads[t].call, result)])
  }

  function Fail(s: State, t: Tid, e: Error): State
    requires t < |s.threads|
  {
    Decide(s, t, Finished(Failed(e)), Failed(e))
  }

  function Lock(s: State, t: Tid, obj: Obj): State {
    s.(owner := s.owner[obj := t])
  }

  function Release(s: State, obj: Obj): State {
    s.(owner := s.owner - {obj})
  }

  function AddTo(s: State, obj: Obj, amount: real): State
    requires obj < |s.objs|
  {
    s.(objs := s.objs[obj := s.objs[obj].(balance := s.objs[obj].balance + amount)])
  }

  function LeaveStore(s: State, t: Tid, op: StoreOp): State {
    if IsRead(op) then s.(readers := s.readers - {t}) else s.(writer := None)
  }

  function EnterStore(s: State, t: Tid, op: StoreOp): State {
    if IsRead(op) then s.(readers := s.readers + {t}) else s.(writer := Some(t))
  }

  /** UpdateAccount: stores the object under its number, if the number is still there. */
  function StoreBack(s: State, obj: Obj): State
    requires obj < |s.objs|
  {
    if s.objs[obj].number in s.live then s.(live := s.live[s.objs[obj].number := obj]) else s
  }

  function StartStep(s: State, t: Tid): State
    requires t < |s.threads|
  {
    var c := s.threads[t].call;
    if c.Open? then Go(s, t, Wanting(Create))
    else if !c.Close? && !c.CheckBalance? && c.amount <= 0.0 then Fail(s, t, NonPositiveAmount)
    else if c.Transfer? && c.id == c.to then Fail(s, t, TransferSameAccount)
    else Go(s, t, Wanting(Get))
  }

  /** The work done under the store's lock, after which the lock has been released. */
  function StoreStep(s0: State, t: Tid, op: StoreOp): State
    requires t < |s0.threads| && OpInRange(|s0.objs|, op)
  {
    var s := LeaveStore(s0, t, op);
    var c := s.threads[t].call;
    match op
    case Create =>
      if !c.Open? then s else
      var a := Account(s.nextId, c.name, c.pw, c.currency, c.initial);
      Decide(s.(objs := s.objs + [a], live := s.live[s.nextId := |s.objs|], nextId := (s.nextId + 1) % ID_SPACE),
             t, Finished(Opened(s.nextId)), Opened(s.nextId))
    case Get =>
      if c.Open? then s
      else if c.id !in s.live then Fail(s, t, InvalidCredentials)
      else if s.live[c.id] >= |s.objs| then s
      else if c.Transfer? then Go(s, t, Wanting(GetTo(s.live[c.id])))
      else
        var denied := CheckAuth(s.objs[s.live[c.id]], c.name, c.pw);
        if denied.Some? then Fail(s, t, denied.value) else Go(s, t, LockOne(s.live[c.id]))
    case GetTo(from) =>
      if !c.Transfer? then s
      else if c.to !in s.live then Fail(s, t, AccountNotFound)
      else if s.live[c.to] >= |s.objs| then s
      else
        var a, b := s.objs[from], s.objs[s.live[c.to]];
        var denied := CheckAuth(a, c.name, c.pw);
        if denied.Some? then Fail(s, t, denied.value)
        else if a.currency != c.currency || a.currency != b.currency then Fail(s, t, CurrencyMismatch)
        else Go(s, t, LockLow(from, s.live[c.to]))
    case Update(obj) =>
      var result := if s.objs[obj].number in s.live then Balance(s.objs[obj].balance) else Failed(StoreNotFound);
      Go(StoreBack(s, obj), t, Unlock(obj, result))
    case UpdateFrom(from, to) =>
      Go(StoreBack(s, from), t, Wanting(UpdateTo(from, to)))
    case UpdateTo(from, to) =>
      Go(StoreBack(s, to), t, UnlockTo(from, to, Balances(s.objs[from].balance, s.objs[to].balance)))
    case Delete(obj) =>
      if c.Open? then s
      else if c.id in s.live then Decide(s.(live := s.live - {c.id}), t, Unlock(obj, Closed), Closed)
      else Go(s, t, Unlock(obj, Failed(StoreNotFound)))
  }

  /** The work done under one account's mutex. */
  function SectionStep(s: State, t: Tid, obj: Obj): State
    requires t < |s.threads| && obj < |s.objs|
  {
    var a := s.objs[obj];
    match s.threads[t].call
    case Close(_, _, _) => Go(s, t, Wanting(Delete(obj)))
    case Deposit(_, _, _, currency, amount) =>
      if a.currency != currency then Decide(s, t, Unlock(obj, Failed(CurrencyMismatch)), Failed(CurrencyMismatch))
      else Decide(AddTo(s, obj, amount), t, Wanting(Update(obj)), Balance(a.balance + amount))
    case Withdraw(_, _, _, currency, amount) =>
      if a.currency != currency then Decide(s, t, Unlock(obj, Failed(CurrencyMismatch)), Failed(CurrencyMismatch))
      else if a.balance < amount then Decide(s, t, Unlock(obj, Failed(InsufficientFunds)), Failed(InsufficientFunds))
      else Decide(AddTo(s, obj, -amount), t, Wanting(Update(obj)), Balance(a.balance - amount))
    case _ => Decide(s, t, Unlock(obj, Balance(a.balance)), Balance(a.balance))
  }

  /** A transfer's check and debit under both mutexes. */
  function DebitStep(s: State, t: Tid, from: Obj, to: Obj): State
    requires t < |s.threads| && from < |s.objs| && to < |s.objs|
  {
    var c := s.threads[t].call;
    if !c.Transfer? then s
    else if s.objs[from].balance < c.amount then
      Decide(s, t, UnlockTo(from, to, Failed(InsufficientFunds)), Failed(InsufficientFunds))
    else
      Decide(AddTo(s, from, -c.amount), t, Credit(from, to),
             Balances(s.objs[from].balance - c.amount, s.objs[to].balance + c.amount))
  }

  function CreditStep(s: State, t: Tid, from: Obj, to: Obj): State
    requires t < |s.threads| && from < |s.objs| && to < |s.objs|
  {
    var c := s.threads[t].call;
    if !c.Transfer? then s else Go(AddTo(s, to, c.amount), t, Wanting(UpdateFrom(from, to)))
  }

  /** Taking and giving back locks; nothing else changes. */
  function LockStep(s: State, t: Tid): State
    requires t < |s.threads| && InRange(|s.objs|, s.threads[t].point)
  {
    match s.threads[t].point
    case Wanting(op) => Go(EnterStore(s, t, op), t, Inside(op))
    case LockOne(obj) => Go(Lock(s, t, obj), t, Section(obj))
    case LockLow(from, to) => Go(Lock(s, t, Lower(s, from, to)), t, LockHigh(from, to))
    case LockHigh(from, to) => Go(Lock(s, t, Higher(s, from, to)), t, TransferSection(from, to))
    case UnlockTo(from, to, result) => Go(Release(s, to), t, Unlock(from, result))
    case Unlock(obj, result) => Go(Release(s, obj), t, Finished(result))
    case _ => s
  }

  function Step(s: State, t: Tid): State
    requires Enabled(s, t)
  {
    match s.threads[t].point
    case Start => StartStep(s, t)
    case Inside(op) => StoreStep(s, t, op)
    case Section(obj) => SectionStep(s, t, obj)
    case TransferSection(from, to) => DebitStep(s, t, from, to)
    case Credit(from, to) => CreditStep(s, t, from, to)
    case _ => LockStep(s, t)
  }

  // ----- runs -----

  type Schedule = seq<Tid>

  /** Every turn of the schedule goes to a thread that can move. */
  predicate Runs(s: State, schedule: Schedule)
    decreases |schedule|
  {
    schedule == [] || (Enabled(s, schedule[0]) && Runs(Step(s, schedule[0]), schedule[1..]))
  }

  function Exec(s: State, schedule: Schedule): State
    requires Runs(s, schedule)
    decreases |schedule|
  {
    if schedule == [] then s else Exec(Step(s, schedule[0]), schedule[1..])
  }

  // ----- the invariant of every reachable state -----

  /** No number is used twice: numbers are handed out in creation order and a live number leads
      to the object created with it. */
  ghost predicate NumbersMatch(s: State) {
    s.nextId == FIRST_ID + |s.objs|
    && (forall o: Obj | o < |s.objs| :: s.objs[o].number == FIRST_ID + o)
    && (forall n <- s.live :: FIRST_ID <= n < s.nextId && s.live[n] == n - FIRST_ID)
  }

  function Openers(s: State): set<Tid> {
    set t: Tid | 0 <= t < |s.threads| && s.threads[t].call.Open?
  }

  function OpenersDone(s: State): set<Tid> {
    set t: Tid | 0 <= t < |s.threads| && s.threads[t].call.Open? && s.threads[t].point.Finished?
  }

  /** One object per finished opening, and fewer openings than numbers. */
  ghost predicate Counted(s: State) {
    |s.objs| == |OpenersDone(s)| && |Openers(s)| < ID_SPACE - FIRST_ID
  }

  /** `obj` is the account the call named, and the caller is its holder. */
  ghost predicate Granted(objs: seq<Account>, c: Call, obj: Obj) {
    !c.Open? && obj < |objs| && objs[obj].number == c.id && CheckAuth(objs[obj], c.name, c.pw) == None
    && (!c.Close? && !c.CheckBalance? ==> c.amount > 0.0)
  }

  ghost predicate GrantedBoth(objs: seq<Account>, c: Call, from: Obj, to: Obj) {
    c.Transfer? && Granted(objs, c, from) && to < |objs| && objs[to].number == c.to && c.id != c.to && from != to
    && objs[from].currency == c.currency && objs[to].currency == c.currency
  }

  ghost predicate OpOk(objs: seq<Account>, c: Call, op: StoreOp) {
    match op
    case Create => c.Open?
    case Get => !c.Open? && (!c.Close? && !c.CheckBalance? ==> c.amount > 0.0) && (c.Transfer? ==> c.id != c.to)
    case GetTo(from) => c.Transfer? && from < |objs| && objs[from].number == c.id && c.amount > 0.0 && c.id != c.to
    case Update(obj) => (c.Deposit? || c.Withdraw?) && Granted(objs, c, obj) && objs[obj].currency == c.currency
    case UpdateFrom(from, to) => GrantedBoth(objs, c, from, to)
    case UpdateTo(from, to) => GrantedBoth(objs, c, from, to)
    case Delete(obj) => c.Close? && Granted(objs, c, obj)
  }

  /** What a thread at a point knows about its call and its objects. */
  ghost predicate PointOk(objs: seq<Account>, c: Call, p: Point) {
    match p
    case Start => true
    case Wanting(op) => OpOk(objs, c, op)
    case Inside(op) => OpOk(objs, c, op)
    case LockOne(obj) => Granted(objs, c, obj) && !c.Transfer?
    case LockLow(from, to) => GrantedBoth(objs, c, from, to)
    case LockHigh(from, to) => GrantedBoth(objs, c, from, to)
    case Section(obj) => Granted(objs, c, obj) && !c.Transfer?
    case TransferSection(from, to) => GrantedBoth(objs, c, from, to)
    case Credit(from, to) => GrantedBoth(objs, c, from, to)
    case UnlockTo(from, to, result) => GrantedBoth(objs, c, from, to) && !result.Opened?
    case Unlock(obj, result) => Granted(objs, c, obj) && !result.Opened?
    case Finished(result) => c.Open? <==> result.Opened?
  }

  ghost predicate PointsOk(s: State) {
    forall t: Tid | t < |s.threads| :: PointOk(s.objs, s.threads[t].call, s.threads[t].point)
  }

  /** The mutexes a thread holds at a point. */
  function Held(objs: seq<Account>, p: Point): set<Obj> {
    match p
    case Wanting(op) => HeldDuring(op)
    case Inside(op) => HeldDuring(op)
    case LockHigh(from, to) =>
      if from < |objs| && to < |objs| && objs[from].number < objs[to].number then {from} else {to}
    case Section(obj) => {obj}
    case TransferSection(from, to) => {from, to}
    case Credit(from, to) => {from, to}
    case UnlockTo(from, to, _) => {from, to}
    case Unlock(obj, _) => {obj}
    case _ => {}
  }

  function HeldDuring(op: StoreOp): set<Obj> {
    match op
    case Update(obj) => {obj}
    case UpdateFrom(from, to) => {from, to}
    case UpdateTo(from, to) => {from, to}
    case Delete(obj) => {obj}
    case _ => {}
  }

  ghost predicate Holds(s: State, t: Tid, o: Obj) {
    t < |s.threads| && o in Held(s.objs, s.threads[t].point)
  }

  /** A mutex is owned by exactly the thread whose point holds it. */
  ghost predicate MutexesOk(s: State) {
    (forall o <- s.owner :: Holds(s, s.owner[o], o))
    && (forall t: Tid, o: Obj | Holds(s, t, o) :: o in s.owner && s.owner[o] == t)
  }

  /** The store's lock has one writer or any number of readers: the threads inside. */
  ghost predicate StoreLockOk(s: State) {
    (forall t <- s.readers :: t < |s.threads| && s.threads[t].point.Inside? && IsRead(s.threads[t].point.op))
    && (s.writer.Some? ==> s.readers == {} && s.writer.value < |s.threads| && s.threads[s.writer.value].point.Inside?
                           && !IsRead(s.threads[s.writer.value].point.op))
    && (forall t: Tid | t < |s.threads| && s.threads[t].point.Inside? ::
          if IsRead(s.threads[t].point.op) then t in s.readers else s.writer == Some(t))
  }

  ghost predicate Inv(s: State) {
    NumbersMatch(s) && Counted(s) && PointsOk(s) && MutexesOk(s) && StoreLockOk(s)
  }
}
