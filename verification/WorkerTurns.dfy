/** Workers that take turns on one event: each makes its whole call while nobody else moves. */
module WorkerTurns {
  import opened Wrappers
  import opened Domain
  import opened Protocol
  import opened ProtocolInvariants
  import opened MutualExclusion
  import opened Progress
  import opened Runs
  import opened Reconciliation

  /** The worker is given the event and its handlers, unless somebody else has the lock. */
  predicate Gets(cfg: Config, ev: Event, k: Caller, e: nat) {
    && k.job == Reconcile(e)
    && k.faults.beginOk && k.faults.lockOk && k.faults.dao.getOk
    && HandlersOf(cfg.controllers, ev).Some?
  }

  /** How many handlers are called when handler failsAt is the first to return an error. */
  function Called(plan: seq<HandlerName>, failsAt: nat): nat {
    if failsAt < |plan| then failsAt + 1 else |plan|
  }

  /** A handler returns an error to the worker, or the event's date is not written. */
  predicate LeavesNoDate(cfg: Config, ev: Event, k: Caller) {
    var plan := HandlersOf(cfg.controllers, ev);
    plan.Some? && (k.faults.failsAt < |plan.value| || k.faults.dao.save == Failed)
  }

  predicate ActedBelow(k: Caller, n: nat) {
    forall i: nat :: i < n ==> i in k.acted
  }

  predicate After(k: Caller) {
    k.pc.Unlock? || k.pc.Forget? || k.pc.Done?
  }

  /** Where a turn stands that began when the event was ev; row is the event now. */
  predicate TurnFits(cfg: Config, ev: Event, row: Event, k: Caller) {
    && row.(reconciled := ev.reconciled) == ev
    && (k.pc.Register? ==> k.lock == Granted)
    && (k.pc.Unlock? ==> k.lock == Owner)
    && (k.pc.Done? ==> k.lock == Closed)
    && (After(k) ==> HandlersOf(cfg.controllers, ev) == Some(k.plan))
    && (!ev.reconciled ==>
          && (row.reconciled ==> After(k) && !LeavesNoDate(cfg, ev, k))
          && (After(k) ==> ActedBelow(k, Called(k.plan, k.faults.failsAt)))
          && (InSession(k) ==> ActedBelow(k, Progressed(k)))
          && (k.pc.Acting? ==> k.pc.sawNil))
  }

  // ---------- the steps of a turn ----------

  predicate Turning(cfg: Config, ev: Event, s: State, c: nat, e: nat) {
    && c < |s.callers| && e < |s.events|
    && Local(s, c) && SessionFits(cfg, s.callers[c], Some(s.events[e]))
    && Gets(cfg, ev, s.callers[c], e) && TurnFits(cfg, ev, s.events[e], s.callers[c])
  }

  predicate TurnGoesOn(cfg: Config, ev: Event, t: State, c: nat, e: nat) {
    c < |t.callers| && e < |t.events| && TurnFits(cfg, ev, t.events[e], t.callers[c])
  }

  lemma LockTurns(cfg: Config, ev: Event, s: State, c: nat, e: nat)
    requires Turning(cfg, ev, s, c, e) && s.callers[c].pc.AwaitLock? && KeyOf(cfg, s.callers[c].job) !in s.locks
    ensures TurnGoesOn(cfg, ev, Lock(cfg, s, c).value, c, e)
  {
  }

  lemma BeginTurns(cfg: Config, ev: Event, s: State, c: nat, e: nat)
    requires Turning(cfg, ev, s, c, e) && s.callers[c].pc.OpenLock? && BeginLock(cfg, s, c).Some?
    ensures TurnGoesOn(cfg, ev, BeginLock(cfg, s, c).value, c, e)
  {
  }

  lemma RegisterTurns(cfg: Config, ev: Event, s: State, c: nat, e: nat)
    requires Turning(cfg, ev, s, c, e) && s.callers[c].pc.Register?
    ensures TurnGoesOn(cfg, ev, RegisterLock(s, c), c, e)
  {
  }

  lemma GetTurns(cfg: Config, ev: Event, s: State, c: nat, e: nat)
    requires Turning(cfg, ev, s, c, e) && s.callers[c].pc == In(Get)
    ensures TurnGoesOn(cfg, ev, ReconcileOp(cfg, s, c, Get), c, e)
  {
  }

  lemma ProbeTurns(cfg: Config, ev: Event, s: State, c: nat, e: nat, i: nat)
    requires Turning(cfg, ev, s, c, e) && s.callers[c].pc == In(Probe(i))
    ensures TurnGoesOn(cfg, ev, ReconcileOp(cfg, s, c, Probe(i)), c, e)
  {
  }

  lemma SaveTurns(cfg: Config, ev: Event, s: State, c: nat, e: nat)
    requires Turning(cfg, ev, s, c, e) && s.callers[c].pc == In(Save)
    ensures TurnGoesOn(cfg, ev, ReconcileOp(cfg, s, c, Save), c, e)
  {
  }

  lemma StatementTurns(cfg: Config, ev: Event, s: State, c: nat, e: nat)
    requires Turning(cfg, ev, s, c, e) && s.callers[c].pc.In?
    ensures TurnGoesOn(cfg, ev, ReconcileOp(cfg, s, c, s.callers[c].pc.op), c, e)
  {
    match s.callers[c].pc.op
    case Get => GetTurns(cfg, ev, s, c, e);
    case Probe(i) => ProbeTurns(cfg, ev, s, c, e, i);
    case Save => SaveTurns(cfg, ev, s, c, e);
    case _ =>
  }

  lemma ActTurns(cfg: Config, ev: Event, s: State, c: nat, e: nat)
    requires Turning(cfg, ev, s, c, e) && s.callers[c].pc.Acting?
    ensures TurnGoesOn(cfg, ev, Act(s, c, s.callers[c].pc.handler, s.callers[c].pc.sawNil), c, e)
  {
  }

  lemma CommitTurns(cfg: Config, ev: Event, s: State, c: nat, e: nat)
    requires Turning(cfg, ev, s, c, e) && s.callers[c].pc.Unlock?
    ensures TurnGoesOn(cfg, ev, CommitLock(s, c), c, e)
  {
  }

  lemma ForgetTurns(cfg: Config, ev: Event, s: State, c: nat, e: nat)
    requires Turning(cfg, ev, s, c, e) && s.callers[c].pc.Forget?
    ensures TurnGoesOn(cfg, ev, ForgetLock(s, c), c, e)
  {
  }

  lemma WantTurns(cfg: Config, ev: Event, s: State, t: State, c: nat, e: nat)
    requires Turning(cfg, ev, s, c, e) && s.callers[c].pc.Want?
    requires Next(cfg, s, c) == Some(t)
    ensures TurnGoesOn(cfg, ev, t, c, e)
  {
  }

  lemma StepTurns(cfg: Config, ev: Event, s: State, t: State, c: nat, e: nat)
    requires Turning(cfg, ev, s, c, e) && Next(cfg, s, c) == Some(t)
    requires s.callers[c].pc.AwaitLock? ==> KeyOf(cfg, s.callers[c].job) !in s.locks
    ensures TurnGoesOn(cfg, ev, t, c, e)
  {
    match s.callers[c].pc
    case OpenLock => BeginTurns(cfg, ev, s, c, e);
    case AwaitLock => LockTurns(cfg, ev, s, c, e);
    case Register => RegisterTurns(cfg, ev, s, c, e);
    case Want(_) => WantTurns(cfg, ev, s, t, c, e);
    case In(_) => StatementTurns(cfg, ev, s, c, e);
    case Acting(_, _) => ActTurns(cfg, ev, s, c, e);
    case Unlock => CommitTurns(cfg, ev, s, c, e);
    case Forget => ForgetTurns(cfg, ev, s, c, e);
    case _ =>
  }

  // ---------- one turn ----------

  /** The caller keeps no lock and no connection. */
  predicate Away(k: Caller) {
    !HasLock(k) && Conns(k) == 0
  }

  predicate Alone(s: State, c: nat) {
    c < |s.callers| && forall d :: 0 <= d < |s.callers| && d != c ==> Away(s.callers[d])
  }

  lemma {:induction false} AloneUses(f: nat, callers: seq<Caller>, c: nat)
    requires forall d :: 0 <= d < |callers| && d != c ==> Away(callers[d])
    ensures Total(Keeping(f), callers) == if c < |callers| then Keeps(f, callers[c]) else 0
  {
    if callers != [] { AloneUses(f, callers[..|callers| - 1], c); }
  }

  /** A worker that is alone is never held up. */
  lemma AloneMoves(cfg: Config, s: State, c: nat)
    requires Inv(cfg, s) && Alone(s, c) && s.callers[c].job.Reconcile? && s.callers[c].pc != Done
    requires Allows(cfg, s.callers[c].factory, 2)
    ensures Next(cfg, s, c).Some?
    ensures s.callers[c].pc.AwaitLock? ==> KeyOf(cfg, s.callers[c].job) !in s.locks
  {
    InvLocal(cfg, s, c);
    AloneUses(s.callers[c].factory, s.callers, c);
    WaitsForTwo(cfg, s, c);
  }

  lemma WaitsForTwo(cfg: Config, s: State, c: nat)
    requires c < |s.callers| && Coherent(s.callers[c]) && s.callers[c].job.Reconcile? && s.callers[c].pc != Done
    requires Used(s.conns, s.callers[c].factory) == Conns(s.callers[c]) && Allows(cfg, s.callers[c].factory, 2)
    ensures Next(cfg, s, c).Some?
  {
  }

  /** One step of a turn. */
  lemma MovesInTurn(cfg: Config, s0: State, s: State, c: nat, e: nat, ev: Event, limit: nat) returns (t: State)
    requires Init(s0) && Leads(cfg, s0, s) && HandlersWithin(cfg, limit)
    requires Alone(s, c) && Allows(cfg, s.callers[c].factory, 2) && s.callers[c].pc != Done
    requires e < |s.events| && Gets(cfg, ev, s.callers[c], e) && TurnFits(cfg, ev, s.events[e], s.callers[c])
    ensures Leads(cfg, s0, t) && |t.callers| == |s.callers| && t.callers == s.callers[c := t.callers[c]]
    ensures t.callers[c].factory == s.callers[c].factory && Gets(cfg, ev, t.callers[c], e)
    ensures TurnGoesOn(cfg, ev, t, c, e)
    ensures Total(Left(limit), t.callers) < Total(Left(limit), s.callers)
  {
    LeadsInv(cfg, s0, s);
    LeadsSessions(cfg, s0, s);
    AloneMoves(cfg, s, c);
    InvLocal(cfg, s, c);
    StepEffect(cfg, s, c);
    StepLowersTotal(cfg, s, c, limit);
    t := Moves(cfg, s0, s, c);
    StepTurns(cfg, ev, s, t, c, e);
  }

  lemma {:induction false} TakesTurn(cfg: Config, s0: State, s: State, c: nat, e: nat, ev: Event, limit: nat)
      returns (t: State)
    requires Init(s0) && Leads(cfg, s0, s) && HandlersWithin(cfg, limit)
    requires Alone(s, c) && Allows(cfg, s.callers[c].factory, 2)
    requires e < |s.events| && Gets(cfg, ev, s.callers[c], e) && TurnFits(cfg, ev, s.events[e], s.callers[c])
    ensures Leads(cfg, s0, t) && |t.callers| == |s.callers| && t.callers == s.callers[c := t.callers[c]]
    ensures t.callers[c].pc == Done && e < |t.events| && TurnFits(cfg, ev, t.events[e], t.callers[c])
    decreases Total(Left(limit), s.callers)
  {
    t := s;
    if s.callers[c].pc != Done {
      var u := MovesInTurn(cfg, s0, s, c, e, ev, limit);
      t := TakesTurn(cfg, s0, u, c, e, ev, limit);
    }
  }

  lemma LeadsSessions(cfg: Config, s0: State, s: State)
    requires Init(s0) && Leads(cfg, s0, s)
    ensures AllSessionsFit(cfg, s)
  {
    var schedule :| Run(cfg, s0, schedule) == Some(s);
    RunSessions(cfg, s0, schedule);
  }

  // ---------- one turn after the other ----------

  /** The processes of the event's workers have room for a lock and a statement. */
  predicate RoomForWorkers(cfg: Config, s: State, e: nat) {
    forall c :: 0 <= c < |s.callers| && s.callers[c].job == Reconcile(e) ==> Allows(cfg, s.callers[c].factory, 2)
  }

  predicate AllGet(cfg: Config, s: State, e: nat, chosen: set<nat>)
    requires e < |s.events|
  {
    forall c :: c in chosen ==> c < |s.callers| && Gets(cfg, s.events[e], s.callers[c], e)
  }

  /** The event has no date, and none of the workers sets it. */
  predicate StaysUndated(cfg: Config, s: State, e: nat, chosen: set<nat>)
    requires e < |s.events| && AllGet(cfg, s, e, chosen)
  {
    !s.events[e].reconciled && forall c :: c in chosen ==> LeavesNoDate(cfg, s.events[e], s.callers[c])
  }

  /** The chosen workers have had their turn, and nobody else has moved. */
  predicate HadTheirTurn(cfg: Config, s: State, t: State, e: nat, chosen: set<nat>)
    requires e < |s.events|
  {
    && |t.callers| == |s.callers| && e < |t.events|
    && t.events[e].(reconciled := s.events[e].reconciled) == s.events[e]
    && forall c: nat :: c < |s.callers| ==>
         if c in chosen then HadTurn(cfg, s.events[e], t.callers[c]) else t.callers[c] == s.callers[c]
  }

  predicate HadTurn(cfg: Config, ev: Event, k: Caller) {
    k.pc == Done && k.lock == Closed && k.outer == NotBegun && HandlersOf(cfg.controllers, ev) == Some(k.plan)
  }

  predicate AllActed(t: State, chosen: set<nat>) {
    forall c :: c in chosen && c < |t.callers| ==>
      ActedBelow(t.callers[c], Called(t.callers[c].plan, t.callers[c].faults.failsAt))
  }

  /** Whoever has had no turn yet is alone and can begin one. */
  lemma TurnStarts(cfg: Config, s: State, u: State, e: nat, c: nat, chosen: set<nat>)
    requires Init(s) && e < |s.events| && HadTheirTurn(cfg, s, u, e, chosen)
    requires c < |s.callers| && c !in chosen && Gets(cfg, s.events[e], s.callers[c], e)
    ensures Alone(u, c) && Gets(cfg, u.events[e], u.callers[c], e)
    ensures TurnFits(cfg, u.events[e], u.events[e], u.callers[c])
  {
  }

  lemma {:induction false} InTurn(cfg: Config, s: State, e: nat, chosen: set<nat>, limit: nat) returns (t: State)
    requires Init(s) && e < |s.events| && HandlersWithin(cfg, limit)
    requires AllGet(cfg, s, e, chosen) && RoomForWorkers(cfg, s, e)
    ensures Leads(cfg, s, t) && HadTheirTurn(cfg, s, t, e, chosen)
    ensures StaysUndated(cfg, s, e, chosen) ==> !t.events[e].reconciled && AllActed(t, chosen)
    decreases chosen
  {
    if chosen == {} {
      LeadsHere(cfg, s);
      t := s;
    } else {
      var c :| c in chosen;
      var u := InTurn(cfg, s, e, chosen - {c}, limit);
      TurnStarts(cfg, s, u, e, c, chosen - {c});
      t := TakesTurn(cfg, s, u, c, e, u.events[e], limit);
      LeadsInv(cfg, s, t);
      OneMoreTurn(cfg, s, u, t, e, c, chosen);
    }
  }

  lemma OneMoreTurn(cfg: Config, s: State, u: State, t: State, e: nat, c: nat, chosen: set<nat>)
    requires Init(s) && e < |s.events| && AllGet(cfg, s, e, chosen) && c in chosen
    requires HadTheirTurn(cfg, s, u, e, chosen - {c})
    requires StaysUndated(cfg, s, e, chosen - {c}) ==> !u.events[e].reconciled && AllActed(u, chosen - {c})
    requires |t.callers| == |u.callers| && t.callers == u.callers[c := t.callers[c]]
    requires t.callers[c].pc == Done && Coherent(t.callers[c])
    requires (t.callers[c].job, t.callers[c].faults) == (s.callers[c].job, s.callers[c].faults)
    requires e < |t.events| && TurnFits(cfg, u.events[e], t.events[e], t.callers[c])
    ensures HadTheirTurn(cfg, s, t, e, chosen)
    ensures StaysUndated(cfg, s, e, chosen) ==> !t.events[e].reconciled && AllActed(t, chosen)
  {
  }

  /** Every worker that is given the event has called its handlers, in order, up to the first error. */
  predicate EachHandled(cfg: Config, s: State, t: State, e: nat)
    requires e < |s.events|
  {
    && |t.callers| == |s.callers|
    && forall c :: 0 <= c < |s.callers| && Gets(cfg, s.events[e], s.callers[c], e) ==>
         var plan := HandlersOf(cfg.controllers, s.events[e]).value;
         t.callers[c].pc == Done && t.callers[c].ran == RanHandlers(plan, s.callers[c].faults.failsAt)
  }

  /** Every notification runs the handlers again, whether the event has its date or not. */
  lemma {:induction false} EveryWorkerRunsTheHandlers(cfg: Config, s: State, e: nat)
    requires Init(s) && e < |s.events| && RoomForWorkers(cfg, s, e)
    ensures exists schedule :: Run(cfg, s, schedule).Some? && EachHandled(cfg, s, Run(cfg, s, schedule).value, e)
  {
    var limit := SomeLimit(cfg);
    var all := set c: nat | c < |s.callers| && Gets(cfg, s.events[e], s.callers[c], e);
    var t := InTurn(cfg, s, e, all, limit);
    LeadsInv(cfg, s, t);
    LeadsSessions(cfg, s, t);
    forall c: nat | c < |s.callers| && c in all
      ensures t.callers[c].pc == Done && t.callers[c].ran == RanHandlers(t.callers[c].plan, s.callers[c].faults.failsAt)
    {
      assert SessionFits(cfg, t.callers[c], EventRow(t, e));
    }
    assert EachHandled(cfg, s, t, e);
    var schedule :| Run(cfg, s, schedule) == Some(t);
  }
}
