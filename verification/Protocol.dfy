/**
 * The request, lock and controller protocol as a state machine of small steps.
 *
 * Any number of processes, each with its own lock factory and its own connection pool, share one
 * Postgres lock table, one table of dinosaurs and one table of events, and run any number of callers.
 * A caller is either a PATCH request that runs DinosaurService.Replace inside TransactionMiddleware,
 * or a worker that runs KindControllerManager.Handle on an event it was notified of. Statements of a
 * DAO commit on their own: they take a connection from their process's pool, run, and give it back.
 *
 * What the database and the handlers will answer to a caller is part of the caller (its faults),
 * so the only choice left in a run is which caller moves next.
 */
module Protocol {
  import opened Wrappers
  import opened Domain
  import opened LockTable
  import opened Replacing

  /** DisableAdvisoryLock and UseBlockingAdvisoryLock, as one request found them. */
  datatype Mode = Blocking | NonBlocking | Unlocked

  datatype Job =
    | Patch(id: Id, want: Species, mode: Mode)
    | Reconcile(event: nat)

  /**
   * outer, txid: the statements of newTransaction; begin, lock: those of the lock call; failsAt: the
   * first handler that returns an error.
   */
  datatype Faults = Faults(
    outerOk: bool, txidOk: bool, beginOk: bool, lockOk: bool, dao: DaoFaults, failsAt: nat)

  /** Every statement of a call succeeds. */
  predicate Faultless(faults: Faults) {
    && faults.outerOk && faults.txidOk && faults.beginOk && faults.lockOk
    && faults.dao == DaoFaults(true, Ok, Ok, true)
  }

  const NO_FAULTS := Faults(true, true, true, true, DaoFaults(true, Ok, Ok, true), 0)

  datatype Op = Get | Save | Insert | Notify | Probe(handler: nat)

  datatype PC =
    | Idle
    | OpenLock                           // about to begin the lock transaction
    | AwaitLock                          // the lock statement is sent and not answered
    | Register                           // answered; about to enter the factory's map
    | Want(op: Op)                       // needs a connection for a DAO statement
    | In(op: Op)                         // the statement runs on its own connection
    | Acting(handler: nat, sawNil: bool) // handler has read its event's date
    | Unlock                             // deferred Unlock(ctx, uuid)
    | Forget                             // lock transaction ended; entry still in the map
    | Resolve                            // deferred Resolve(ctx)
    | Done

  /** The caller's lock transaction and its entry in the factory's map. */
  datatype LockPhase =
    | NoLock
    | Begun      // transaction open, lock statement not answered
    | Granted    // Postgres granted the lock, not registered yet
    | Refused    // the try answered false, not registered yet
    | Owner      // registered, and the caller was told it has the lock
    | Declined   // registered, and the caller was told it does not have the lock
    | Orphan     // the lock statement failed: open and never registered
    | Ended      // committed, still registered
    | Closed     // committed and removed from the map

  /** The request's outer transaction; Stranded is begun, without a known ID, and in nobody's hands. */
  datatype OuterPhase = NotBegun | Open | Committed | RolledBack | Stranded

  datatype Caller = Caller(
    job: Job, factory: nat, faults: Faults,  // factory: the caller's process
    pc: PC, lock: LockPhase, outer: OuterPhase,
    marked: bool,                 // rollback flag of the outer transaction
    reply: Reply,
    plan: seq<HandlerName>,       // handlerFns of the event that was read
    ran: seq<HandlerName>,        // handlers that returned nil, in order
    acted: set<nat>,              // handlers that found the date nil and acted
    failed: bool)                 // a handler or the event's Replace returned an error

  /** What is recorded about a run; no step depends on it. */
  datatype History = History(
    order: map<Id, seq<nat>>,     // Patch callers granted the lock, by dinosaur, in grant order
    changes: multiset<Id>,        // writes that changed a species
    acts: multiset<(nat, nat)>,   // (event, handler) for each time the handler acted
    reconciler: map<nat, nat>)    // the caller that last set an event's date

  datatype State = State(
    callers: seq<Caller>,
    conns: Pools,                 // connections in use, by process
    txs: set<nat>,                // open lock transactions, named by their callers
    locks: Locks,
    registry: set<(nat, nat)>,    // (factory, uuid): the maps of all factories
    rows: map<Id, Species>,
    events: seq<Event>,           // an event's number is its place in the table
    history: History)

  /**
   * hash is not interpreted; keyOf names the primary key generated for an event; maxConns is what each
   * process gives to SetMaxOpenConns, where zero is no limit.
   */
  datatype Config = Config(
    hash: string -> int, keyOf: nat -> Id, maxConns: nat -> nat, controllers: Controllers)

  /** Connections in use of each process's pool; a process without an entry uses none. */
  type Pools = map<int, int>

  function Used(conns: Pools, process: nat): int {
    if process in conns then conns[process] else 0
  }

  // ---------- readings of one caller ----------

  predicate OpenTx(k: Caller) {
    (k.lock.Begun? || k.lock.Granted? || k.lock.Refused? || k.lock.Owner? || k.lock.Declined? || k.lock.Orphan?)
  }

  predicate HasLock(k: Caller) {
    k.lock.Granted? || k.lock.Owner?
  }

  predicate Registered(k: Caller) {
    k.lock.Owner? || k.lock.Declined? || k.lock.Ended?
  }

  /** Connections the caller keeps from the pool. */
  function Conns(k: Caller): nat {
    (if k.outer == Open || k.outer == Stranded then 1 else 0) + (if OpenTx(k) then 1 else 0) + (if k.pc.In? then 1 else 0)
  }

  function KeyOf(cfg: Config, job: Job): Key {
    match job
    case Patch(id, _, _) => KeyFor(cfg.hash, id, DINOSAURS_LOCK_TYPE)
    case Reconcile(e) => KeyFor(cfg.hash, cfg.keyOf(e), EVENTS_LOCK_TYPE)
  }

  // ---------- steps ----------

  function With(s: State, c: nat, k: Caller): State
    requires c < |s.callers|
  {
    s.(callers := s.callers[c := k])
  }

  /** The pool of the process may have n connections open. */
  predicate Allows(cfg: Config, process: nat, n: int) {
    cfg.maxConns(process) == 0 || n <= cfg.maxConns(process)
  }

  /** The process can use one more connection. */
  predicate Free(cfg: Config, s: State, process: nat) {
    Allows(cfg, process, Used(s.conns, process) + 1)
  }

  function TakeOne(conns: Pools, process: nat): Pools {
    conns[process := Used(conns, process) + 1]
  }

  function GiveBack(conns: Pools, process: nat): Pools {
    conns[process := Used(conns, process) - 1]
  }

  /** Where Replace goes when it returns: to the deferred Unlock, if there is one. */
  function Return(k: Caller, reply: Reply): Caller
    requires k.job.Patch?
  {
    k.(reply := reply, pc := if k.job.mode == Unlocked then Resolve else Unlock)
  }

  /** Step of caller c, or None when c has finished or has to wait. */
  function Next(cfg: Config, s: State, c: nat): Option<State>
    requires c < |s.callers|
  {
    var k := s.callers[c];
    match k.pc
    case Idle => if k.job.Patch? then BeginOuter(cfg, s, c) else Some(With(s, c, k.(pc := OpenLock)))
    case OpenLock => BeginLock(cfg, s, c)
    case AwaitLock => Lock(cfg, s, c)
    case Register => Some(RegisterLock(s, c))
    case Want(op) =>
      if Free(cfg, s, k.factory) then Some(With(s, c, k.(pc := In(op))).(conns := TakeOne(s.conns, k.factory))) else None
    case In(op) => Some(if k.job.Patch? then PatchOp(s, c, op) else ReconcileOp(cfg, s, c, op))
    case Acting(i, sawNil) => Some(Act(s, c, i, sawNil))
    case Unlock => Some(CommitLock(s, c))
    case Forget => Some(ForgetLock(s, c))
    case Resolve => Some(EndOuter(s, c))
    case Done => None
  }

  /** TransactionMiddleware up to the handler; an error of newTransaction returns before Resolve is deferred. */
  function BeginOuter(cfg: Config, s: State, c: nat): Option<State>
    requires c < |s.callers| && s.callers[c].job.Patch?
  {
    var k := s.callers[c];
    if !k.faults.outerOk then
      Some(With(s, c, k.(reply := NoTransaction, pc := Done)))
    else if Free(cfg, s, k.factory) && !k.faults.txidOk then
      Some(With(s, c, k.(outer := Stranded, reply := NoTransaction, pc := Done)).(conns := TakeOne(s.conns, k.factory)))
    else if Free(cfg, s, k.factory) then
      Some(With(s, c, k.(outer := Open, pc := if k.job.mode == Unlocked then Want(Get) else OpenLock))
           .(conns := TakeOne(s.conns, k.factory)))
    else None
  }

  /** newAdvisoryLock. */
  function BeginLock(cfg: Config, s: State, c: nat): Option<State>
    requires c < |s.callers|
  {
    var k := s.callers[c];
    if !k.faults.beginOk then
      Some(With(s, c, if k.job.Patch? then k.(reply := LockError, pc := Resolve) else k.(pc := Unlock)))
    else if Free(cfg, s, k.factory) then
      Some(With(s, c, k.(lock := Begun, pc := AwaitLock)).(conns := TakeOne(s.conns, k.factory), txs := s.txs + {c}))
    else None
  }

  /** lock and nonBlockingLock; a worker always tries. */
  function Lock(cfg: Config, s: State, c: nat): Option<State>
    requires c < |s.callers|
  {
    var k := s.callers[c];
    var key := KeyOf(cfg, k.job);
    if !k.faults.lockOk then
      Some(With(s, c, if k.job.Patch? then k.(lock := Orphan, reply := LockError, pc := Resolve)
                      else k.(lock := Orphan, pc := Unlock)))
    else if key !in s.locks then
      Some(With(s, c, k.(lock := Granted, pc := Register))
           .(locks := Grant(s.locks, key, c), history := NoteGrant(s.history, k.job, c)))
    else if k.job.Patch? && k.job.mode == Blocking then None
    else Some(With(s, c, k.(lock := Refused, pc := Register)))
  }

  function Order(h: History, id: Id): seq<nat> {
    if id in h.order then h.order[id] else []
  }

  function NoteGrant(h: History, job: Job, c: nat): History {
    if job.Patch? then h.(order := h.order[job.id := Order(h, job.id) + [c]]) else h
  }

  /** f.locks[*lock.uuid] = lock, and what the caller does with the answer. */
  function RegisterLock(s: State, c: nat): State
    requires c < |s.callers|
  {
    var k := s.callers[c];
    With(s, c,
         if k.lock == Granted then k.(lock := Owner, pc := Want(Get))
         else if k.job.Patch? then k.(lock := Declined, reply := RowLocked, pc := Resolve)
         else k.(lock := Declined, pc := Unlock))
    .(registry := s.registry + {(k.factory, c)})
  }

  /** Unlock: looks the uuid up and, when it is registered, ends the transaction. */
  function CommitLock(s: State, c: nat): State
    requires c < |s.callers|
  {
    var k := s.callers[c];
    if (k.factory, c) !in s.registry then
      With(s, c, k.(pc := if k.job.Patch? then Resolve else Done))
    else
      With(s, c, k.(lock := Ended, pc := Forget))
      .(conns := GiveBack(s.conns, k.factory),
        txs := s.txs - {c}, locks := Release(s.locks, c))
  }

  /** delete(f.locks, uuid). */
  function ForgetLock(s: State, c: nat): State
    requires c < |s.callers|
  {
    var k := s.callers[c];
    With(s, c, k.(lock := Closed, pc := if k.job.Patch? then Resolve else Done))
    .(registry := s.registry - {(k.factory, c)})
  }

  /** Resolve. */
  function EndOuter(s: State, c: nat): State
    requires c < |s.callers|
  {
    var k := s.callers[c];
    With(s, c, k.(outer := if k.marked then RolledBack else Committed, pc := Done))
    .(conns := GiveBack(s.conns, k.factory))
  }

  /** What Replace does with the answer to a statement; row is the dinosaur's row. */
  function AfterPatchOp(k: Caller, op: Op, row: Option<Species>): Caller
    requires k.job.Patch?
  {
    var dao := k.faults.dao;
    match op
    case Get =>
      if !dao.getOk || row.None? then Return(k, GetError)
      else if row.value == k.job.want then Return(k, Unchanged)
      else k.(pc := Want(Save))
    case Save => if dao.save == Ok then k.(pc := Want(Insert)) else Return(k, UpdateError).(marked := true)
    case Insert => if dao.insert == Ok then k.(pc := Want(Notify)) else Return(k, EventError).(marked := true)
    case Notify => Return(k, if dao.notifyOk then Updated else EventError)
    case Probe(_) => k.(pc := Done)  // not a statement of Replace
  }

  function RowOf(s: State, id: Id): Option<Species> {
    if id in s.rows then Some(s.rows[id]) else None
  }

  /** A statement of Replace finishes and its connection goes back to the pool. */
  function PatchOp(s: State, c: nat, op: Op): State
    requires c < |s.callers| && s.callers[c].job.Patch?
  {
    var k := s.callers[c];
    Write(s, c, op, AfterPatchOp(k, op, RowOf(s, k.job.id)))
  }

  /** The statement's own effect, with k' what the caller has become. */
  function Write(s: State, c: nat, op: Op, k': Caller): State
    requires c < |s.callers| && s.callers[c].job.Patch?
  {
    var k := s.callers[c];
    var t := With(s, c, k').(conns := GiveBack(s.conns, k.factory));
    if op == Save && k.faults.dao.save != Failed then StoreSpecies(t, k.job.id, k.job.want)
    else if op == Insert && k.faults.dao.insert != Failed then t.(events := s.events + [UpdateOf(k.job.id)])
    else t
  }

  /** Save writes the species that was asked for into the dinosaur's row. */
  function StoreSpecies(s: State, id: Id, want: Species): State {
    s.(rows := s.rows[id := want],
       history := if id in s.rows && s.rows[id] == want then s.history
                  else s.history.(changes := s.history.changes + multiset{id}))
  }

  /** The next thing handle does when i handlers have returned nil. */
  function Continue(k: Caller, i: nat): Caller {
    k.(pc := if i < |k.plan| then Want(Probe(i)) else Want(Save))
  }

  /** What handle does with the answer to a statement; row is the event's row. */
  function AfterReconcileOp(cfg: Config, k: Caller, op: Op, row: Option<Event>): Caller {
    match op
    case Get =>
      if !k.faults.dao.getOk || row.None? then k.(pc := Unlock)
      else
        var handlers := HandlersOf(cfg.controllers, row.value);
        if handlers.None? then k.(pc := Unlock) else Continue(k.(plan := handlers.value), 0)
    case Probe(i) => k.(pc := Acting(i, row.Some? && !row.value.reconciled))
    case _ => k.(pc := Unlock, failed := k.faults.dao.save != Ok)
  }

  function EventRow(s: State, e: nat): Option<Event> {
    if e < |s.events| then Some(s.events[e]) else None
  }

  /** A statement of handle, or of one of its handlers, finishes. */
  function ReconcileOp(cfg: Config, s: State, c: nat, op: Op): State
    requires c < |s.callers| && s.callers[c].job.Reconcile?
  {
    var k := s.callers[c];
    var e := k.job.event;
    var t := With(s, c, AfterReconcileOp(cfg, k, op, EventRow(s, e))).(conns := GiveBack(s.conns, k.factory));
    if op == Save && k.faults.dao.save != Failed && e < |s.events| then
      t.(events := s.events[e := s.events[e].(reconciled := true)],
         history := s.history.(reconciler := s.history.reconciler[e := c]))
    else t
  }

  /** Handler i acts if it read a nil date, and returns. */
  function Act(s: State, c: nat, i: nat, sawNil: bool): State
    requires c < |s.callers|
  {
    var k := s.callers[c];
    var k1 := if sawNil then k.(acted := k.acted + {i}) else k;
    var k2 := if k.faults.failsAt == i || i >= |k.plan| then k1.(pc := Unlock, failed := true)
              else Continue(k1.(ran := k.ran + [k.plan[i]]), i + 1);
    if sawNil && k.job.Reconcile? then
      With(s, c, k2).(history := s.history.(acts := s.history.acts + multiset{(k.job.event, i)}))
    else With(s, c, k2)
  }

  // ---------- runs ----------

  /** A caller before it has done anything. */
  predicate Fresh(k: Caller) {
    k == Caller(k.job, k.factory, k.faults, Idle, NoLock, NotBegun, false, NoReply, [], [], {}, false)
  }

  /** Nothing has started; the tables hold anything. */
  predicate Init(s: State) {
    && (forall c :: 0 <= c < |s.callers| ==> Fresh(s.callers[c]))
    && s.conns == map[] && s.txs == {} && s.locks == map[] && s.registry == {}
    && s.history == History(map[], multiset{}, multiset{}, map[])
  }

  /** The states that the callers in schedule, moving one after the other, lead to. */
  function Run(cfg: Config, s: State, schedule: seq<nat>): Option<State> {
    if schedule == [] then Some(s)
    else
      var n := |schedule| - 1;
      var before := Run(cfg, s, schedule[..n]);
      if before.None? || schedule[n] >= |before.value.callers| then None
      else Next(cfg, before.value, schedule[n])
  }
}
