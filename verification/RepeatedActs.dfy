/**
 * How often a handler that checks the date acts on one event: the most over all runs, and exactly
 * when it can act twice.
 */
module RepeatedActs {
  import opened Wrappers
  import opened Domain
  import opened Replacing
  import opened Protocol
  import opened ProtocolInvariants
  import opened MutualExclusion
  import opened Progress
  import opened Runs
  import opened Reconciliation
  import opened WorkerTurns

  /** A session of the worker gets as far as handler h. */
  predicate Reaches(cfg: Config, ev: Event, k: Caller, e: nat, h: nat) {
    Gets(cfg, ev, k, e) && h < |HandlersOf(cfg.controllers, ev).value| && h <= k.faults.failsAt
  }

  // ---------- who can have acted ----------

  predicate Acted(k: Caller, e: nat, h: nat) {
    k.job == Reconcile(e) && h in k.acted
  }

  function ActedOn(e: nat, h: nat): Caller -> nat {
    (k: Caller) => if Acted(k, e, h) then 1 else 0
  }

  /** What has gone well for a worker that is where it is. */
  predicate FaultsPassed(k: Caller) {
    k.job.Reconcile? ==>
      match k.pc
      case AwaitLock => k.faults.beginOk
      case Register => k.faults.beginOk && k.faults.lockOk
      case Want(op) => k.faults.beginOk && k.faults.lockOk && (op != Get ==> k.faults.dao.getOk)
      case In(op) => k.faults.beginOk && k.faults.lockOk && (op != Get ==> k.faults.dao.getOk)
      case Acting(_, _) => k.faults.beginOk && k.faults.lockOk && k.faults.dao.getOk
      case _ => true
  }

  lemma StatementPasses(cfg: Config, s: State, c: nat)
    requires c < |s.callers| && FaultsPassed(s.callers[c]) && s.callers[c].job.Reconcile? && s.callers[c].pc.In?
    ensures FaultsPassed(AfterReconcileOp(cfg, s.callers[c], s.callers[c].pc.op, EventRow(s, s.callers[c].job.event)))
  {
  }

  lemma ActPasses(s: State, c: nat, i: nat, sawNil: bool)
    requires c < |s.callers| && FaultsPassed(s.callers[c]) && s.callers[c].pc == Acting(i, sawNil)
    ensures FaultsPassed(Act(s, c, i, sawNil).callers[c])
  {
  }

  lemma BeginPasses(cfg: Config, s: State, c: nat)
    requires c < |s.callers| && s.callers[c].job.Reconcile? && BeginLock(cfg, s, c).Some?
    ensures FaultsPassed(BeginLock(cfg, s, c).value.callers[c])
  {
  }

  lemma LockPasses(cfg: Config, s: State, c: nat)
    requires c < |s.callers| && s.callers[c].job.Reconcile? && Lock(cfg, s, c).Some?
    requires FaultsPassed(s.callers[c]) && s.callers[c].pc.AwaitLock?
    ensures FaultsPassed(Lock(cfg, s, c).value.callers[c])
  {
  }

  lemma RegisterPasses(s: State, c: nat)
    requires c < |s.callers| && FaultsPassed(s.callers[c]) && s.callers[c].pc.Register?
    ensures FaultsPassed(RegisterLock(s, c).callers[c])
  {
  }

  lemma QuietPasses(cfg: Config, s: State, t: State, c: nat)
    requires c < |s.callers| && FaultsPassed(s.callers[c]) && s.callers[c].job.Reconcile? && Next(cfg, s, c) == Some(t)
    requires var pc := s.callers[c].pc; pc.Idle? || pc.Want? || pc.Unlock? || pc.Forget? || pc.Resolve?
    ensures |t.callers| == |s.callers| && FaultsPassed(t.callers[c])
  {
  }

  lemma StepPasses(cfg: Config, s: State, t: State, c: nat)
    requires c < |s.callers| && FaultsPassed(s.callers[c]) && s.callers[c].job.Reconcile? && Next(cfg, s, c) == Some(t)
    ensures |t.callers| == |s.callers| && FaultsPassed(t.callers[c])
  {
    match s.callers[c].pc
    case OpenLock => BeginPasses(cfg, s, c);
    case AwaitLock => LockPasses(cfg, s, c);
    case Register => RegisterPasses(s, c);
    case In(_) => StatementPasses(cfg, s, c);
    case Acting(i, sawNil) => ActPasses(s, c, i, sawNil);
    case _ => QuietPasses(cfg, s, t, c);
  }

  /** A worker that has let handler h act got that far, and left the date to be written or wrote it. */
  predicate ActorFits(cfg: Config, ev: Event, row: Event, k: Caller, e: nat, h: nat) {
    && row.(reconciled := ev.reconciled) == ev
    && FaultsPassed(k)
    && (Acted(k, e, h) ==>
          && Reaches(cfg, ev, k, e, h)
          && (LeavesNoDate(cfg, ev, k) || InSession(k) || row.reconciled))
  }

  /** Workers that write the date: at most one of them has let handler h act. */
  ghost predicate OneDates(cfg: Config, ev: Event, callers: seq<Caller>, e: nat, h: nat) {
    forall c: nat, d: nat :: c < |callers| && d < |callers| ==>
      Dated(cfg, ev, callers[c], e, h) && Dated(cfg, ev, callers[d], e, h) ==> c == d
  }

  predicate Dated(cfg: Config, ev: Event, k: Caller, e: nat, h: nat) {
    Acted(k, e, h) && !LeavesNoDate(cfg, ev, k)
  }

  ghost predicate ActorsFit(cfg: Config, ev: Event, s: State, e: nat, h: nat) {
    && e < |s.events|
    && s.history.acts[(e, h)] == Total(ActedOn(e, h), s.callers)
    && (forall c :: 0 <= c < |s.callers| ==> ActorFits(cfg, ev, s.events[e], s.callers[c], e, h))
    && OneDates(cfg, ev, s.callers, e, h)
  }

  /** A session that ends has set the date, unless the worker is one that leaves none. */
  predicate EndsAs(cfg: Config, ev: Event, t: State, c: nat, e: nat) {
    && c < |t.callers| && e < |t.events|
    && (InSession(t.callers[c]) || LeavesNoDate(cfg, ev, t.callers[c]) || t.events[e].reconciled)
  }

  lemma StatementEnds(cfg: Config, ev: Event, s: State, c: nat, e: nat)
    requires c < |s.callers| && e < |s.events| && s.callers[c].job == Reconcile(e) && s.callers[c].pc.In?
    requires InSession(s.callers[c]) && SessionFits(cfg, s.callers[c], Some(s.events[e]))
    requires s.events[e].(reconciled := ev.reconciled) == ev
    ensures EndsAs(cfg, ev, ReconcileOp(cfg, s, c, s.callers[c].pc.op), c, e)
  {
  }

  lemma ActEnds(cfg: Config, ev: Event, s: State, c: nat, e: nat, i: nat, sawNil: bool)
    requires c < |s.callers| && e < |s.events|
    requires s.callers[c].job == Reconcile(e) && s.callers[c].pc == Acting(i, sawNil)
    requires SessionFits(cfg, s.callers[c], Some(s.events[e]))
    requires s.events[e].(reconciled := ev.reconciled) == ev
    ensures EndsAs(cfg, ev, Act(s, c, i, sawNil), c, e)
  {
  }

  lemma SessionEnds(cfg: Config, ev: Event, s: State, t: State, c: nat, e: nat)
    requires c < |s.callers| && e < |s.events| && s.callers[c].job == Reconcile(e) && Next(cfg, s, c) == Some(t)
    requires InSession(s.callers[c]) && SessionFits(cfg, s.callers[c], Some(s.events[e]))
    requires s.events[e].(reconciled := ev.reconciled) == ev
    ensures EndsAs(cfg, ev, t, c, e)
  {
    match s.callers[c].pc
    case In(_) => StatementEnds(cfg, ev, s, c, e);
    case Acting(i, sawNil) => ActEnds(cfg, ev, s, c, e, i, sawNil);
    case Want(op) => assert t.callers[c] == s.callers[c].(pc := In(op));
  }

  /** Handler h acts in this step. */
  predicate ActsNow(k: Caller, e: nat, h: nat) {
    k.job == Reconcile(e) && k.pc == Acting(h, true)
  }

  /** Who acts got as far as h, has not acted before, and finds no date. */
  lemma ActsFirst(cfg: Config, ev: Event, s: State, c: nat, e: nat, h: nat)
    requires Inv(cfg, s) && c < |s.callers| && e < |s.events| && ActsNow(s.callers[c], e, h)
    requires SessionFits(cfg, s.callers[c], Some(s.events[e])) && ActorFits(cfg, ev, s.events[e], s.callers[c], e, h)
    ensures h !in s.callers[c].acted && Reaches(cfg, ev, s.callers[c], e, h) && !s.events[e].reconciled
  {
    InvLocal(cfg, s, c);
  }

  /** What a step of a worker on the event does to the acts of its session. */
  lemma StepActed(cfg: Config, s: State, t: State, c: nat, e: nat, h: nat)
    requires Inv(cfg, s) && AllSessionsFit(cfg, s)
    requires c < |s.callers| && s.callers[c].job == Reconcile(e) && Next(cfg, s, c) == Some(t)
    ensures |t.callers| == |s.callers|
    ensures h in t.callers[c].acted <==> h in s.callers[c].acted || ActsNow(s.callers[c], e, h)
  {
    InvLocal(cfg, s, c);
    StepEffect(cfg, s, c);
    if InSession(s.callers[c]) { SessionGoesOn(cfg, s, c, e); } else { OutsideSession(cfg, s, c); }
  }

  lemma OwnStepFits(cfg: Config, ev: Event, s: State, t: State, c: nat, e: nat, h: nat)
    requires Inv(cfg, s) && AllSessionsFit(cfg, s) && ActorsFit(cfg, ev, s, e, h)
    requires c < |s.callers| && s.callers[c].job == Reconcile(e) && Next(cfg, s, c) == Some(t)
    requires Effect(cfg, s, t, c) && Grows(s.events, t.events)
    ensures ActorFits(cfg, ev, t.events[e], t.callers[c], e, h)
  {
    StepPasses(cfg, s, t, c);
    StepActed(cfg, s, t, c, e, h);
    if ActsNow(s.callers[c], e, h) { ActsFirst(cfg, ev, s, c, e, h); }
    if InSession(s.callers[c]) { SessionEnds(cfg, ev, s, t, c, e); }
  }

  /** No other worker that writes the date has acted. */
  lemma ActsAlone(cfg: Config, ev: Event, s: State, c: nat, d: nat, e: nat, h: nat)
    requires Inv(cfg, s) && AllSessionsFit(cfg, s) && ActorsFit(cfg, ev, s, e, h)
    requires c < |s.callers| && d < |s.callers| && c != d && ActsNow(s.callers[c], e, h)
    ensures !Dated(cfg, ev, s.callers[d], e, h)
  {
    ActsFirst(cfg, ev, s, c, e, h);
    if Dated(cfg, ev, s.callers[d], e, h) {
      assert ActorFits(cfg, ev, s.events[e], s.callers[d], e, h);
      OneSession(cfg, s, c, d);
    }
  }

  lemma StepActors(cfg: Config, ev: Event, s: State, t: State, c: nat, e: nat, h: nat)
    requires Inv(cfg, s) && AllSessionsFit(cfg, s) && ActorsFit(cfg, ev, s, e, h)
    requires c < |s.callers| && Next(cfg, s, c) == Some(t)
    ensures ActorsFit(cfg, ev, t, e, h)
  {
    InvLocal(cfg, s, c);
    StepEffect(cfg, s, c);
    StepEvents(cfg, s, c);
    StepCountsActs(cfg, s, c, e, h);
    TotalUpdate(ActedOn(e, h), s.callers, c, t.callers[c]);
    if s.callers[c].job == Reconcile(e) {
      WorkerActors(cfg, ev, s, t, c, e, h);
    } else {
      OtherActors(cfg, ev, s, t, c, e, h);
    }
  }

  lemma WorkerActors(cfg: Config, ev: Event, s: State, t: State, c: nat, e: nat, h: nat)
    requires Inv(cfg, s) && AllSessionsFit(cfg, s) && ActorsFit(cfg, ev, s, e, h)
    requires c < |s.callers| && s.callers[c].job == Reconcile(e) && Next(cfg, s, c) == Some(t)
    requires Effect(cfg, s, t, c) && Grows(s.events, t.events)
    requires t.history.acts[(e, h)] == s.history.acts[(e, h)] + if ActsNow(s.callers[c], e, h) then 1 else 0
    requires Total(ActedOn(e, h), t.callers) ==
             Total(ActedOn(e, h), s.callers) - ActedOn(e, h)(s.callers[c]) + ActedOn(e, h)(t.callers[c])
    ensures ActorsFit(cfg, ev, t, e, h)
  {
    StepActed(cfg, s, t, c, e, h);
    OwnStepFits(cfg, ev, s, t, c, e, h);
    if ActsNow(s.callers[c], e, h) {
      ActsFirst(cfg, ev, s, c, e, h);
      forall d: nat | d < |s.callers| && d != c ensures !Dated(cfg, ev, s.callers[d], e, h) {
        ActsAlone(cfg, ev, s, c, d, e, h);
      }
    }
    ActorsCarryOver(cfg, ev, s, t, c, e, h);
  }

  lemma ActorsCarryOver(cfg: Config, ev: Event, s: State, t: State, c: nat, e: nat, h: nat)
    requires ActorsFit(cfg, ev, s, e, h) && c < |s.callers| && |t.callers| == |s.callers|
    requires t.callers == s.callers[c := t.callers[c]] && Grows(s.events, t.events)
    requires (t.callers[c].job, t.callers[c].faults) == (s.callers[c].job, s.callers[c].faults)
    requires ActorFits(cfg, ev, t.events[e], t.callers[c], e, h)
    requires t.history.acts[(e, h)] == Total(ActedOn(e, h), t.callers)
    requires Acted(t.callers[c], e, h) && !Acted(s.callers[c], e, h) ==>
               forall d: nat :: d < |s.callers| && d != c ==> !Dated(cfg, ev, s.callers[d], e, h)
    ensures ActorsFit(cfg, ev, t, e, h)
  {
  }

  lemma OtherActors(cfg: Config, ev: Event, s: State, t: State, c: nat, e: nat, h: nat)
    requires ActorsFit(cfg, ev, s, e, h) && c < |s.callers| && s.callers[c].job != Reconcile(e)
    requires Next(cfg, s, c) == Some(t) && Effect(cfg, s, t, c) && Grows(s.events, t.events)
    requires t.history.acts[(e, h)] == s.history.acts[(e, h)]
    requires Total(ActedOn(e, h), t.callers) ==
             Total(ActedOn(e, h), s.callers) - ActedOn(e, h)(s.callers[c]) + ActedOn(e, h)(t.callers[c])
    ensures ActorsFit(cfg, ev, t, e, h)
  {
    if s.callers[c].job.Reconcile? { StepPasses(cfg, s, t, c); }
  }

  lemma {:induction false} NobodyActed(callers: seq<Caller>, e: nat, h: nat)
    requires forall c :: 0 <= c < |callers| ==> Fresh(callers[c])
    ensures Total(ActedOn(e, h), callers) == 0
  {
    if callers != [] { NobodyActed(callers[..|callers| - 1], e, h); }
  }

  lemma {:induction false} RunActors(cfg: Config, s: State, schedule: seq<nat>, e: nat, h: nat)
    requires Init(s) && e < |s.events| && Run(cfg, s, schedule).Some?
    ensures ActorsFit(cfg, s.events[e], Run(cfg, s, schedule).value, e, h)
  {
    if schedule == [] {
      NobodyActed(s.callers, e, h);
    } else {
      var n := |schedule| - 1;
      RunActors(cfg, s, schedule[..n], e, h);
      RunInv(cfg, s, schedule[..n]);
      RunSessions(cfg, s, schedule[..n]);
      StepActors(cfg, s.events[e], Run(cfg, s, schedule[..n]).value, Run(cfg, s, schedule).value, schedule[n], e, h);
    }
  }

  // ---------- the most there can be ----------

  predicate ReachesUndated(cfg: Config, ev: Event, k: Caller, e: nat, h: nat) {
    Reaches(cfg, ev, k, e, h) && LeavesNoDate(cfg, ev, k)
  }

  predicate ReachesDated(cfg: Config, ev: Event, k: Caller, e: nat, h: nat) {
    Reaches(cfg, ev, k, e, h) && !LeavesNoDate(cfg, ev, k)
  }

  function Undated(cfg: Config, ev: Event, e: nat, h: nat): Caller -> nat {
    (k: Caller) => if ReachesUndated(cfg, ev, k, e, h) then 1 else 0
  }

  predicate SomebodyDates(cfg: Config, ev: Event, callers: seq<Caller>, e: nat, h: nat) {
    exists c :: 0 <= c < |callers| && ReachesDated(cfg, ev, callers[c], e, h)
  }

  /** The workers that reach handler h and leave no date, and one more if some worker reaches it and sets the date. */
  function Most(cfg: Config, ev: Event, callers: seq<Caller>, e: nat, h: nat): nat {
    Total(Undated(cfg, ev, e, h), callers) + if SomebodyDates(cfg, ev, callers, e, h) then 1 else 0
  }

  lemma {:induction false} SameUndated(cfg: Config, ev: Event, before: seq<Caller>, after: seq<Caller>, e: nat, h: nat)
    requires |before| == |after|
    requires forall c :: 0 <= c < |before| ==> before[c].job == after[c].job && before[c].faults == after[c].faults
    ensures Total(Undated(cfg, ev, e, h), before) == Total(Undated(cfg, ev, e, h), after)
  {
    if before != [] { SameUndated(cfg, ev, before[..|before| - 1], after[..|after| - 1], e, h); }
  }

  lemma SameMost(cfg: Config, s: State, t: State, ev: Event, e: nat, h: nat)
    requires SameJobs(s, t)
    ensures Most(cfg, ev, s.callers, e, h) == Most(cfg, ev, t.callers, e, h)
  {
    SameUndated(cfg, ev, s.callers, t.callers, e, h);
    if c :| 0 <= c < |s.callers| && ReachesDated(cfg, ev, s.callers[c], e, h) {
      assert ReachesDated(cfg, ev, t.callers[c], e, h);
    }
    if c :| 0 <= c < |t.callers| && ReachesDated(cfg, ev, t.callers[c], e, h) {
      assert ReachesDated(cfg, ev, s.callers[c], e, h);
    }
  }

  /** Weights that are pointwise no larger, but for one caller. */
  lemma {:induction false} TotalAtMostBut(w1: Caller -> nat, w2: Caller -> nat, callers: seq<Caller>, c: nat)
    requires forall d :: 0 <= d < |callers| && d != c ==> w1(callers[d]) <= w2(callers[d])
    ensures Total(w1, callers) <= Total(w2, callers) + if c < |callers| then w1(callers[c]) else 0
  {
    if callers != [] { TotalAtMostBut(w1, w2, callers[..|callers| - 1], c); }
  }

  lemma ActsAtMost(cfg: Config, ev: Event, s: State, e: nat, h: nat)
    requires ActorsFit(cfg, ev, s, e, h)
    ensures s.history.acts[(e, h)] <= Most(cfg, ev, s.callers, e, h)
  {
    if c: nat :| c < |s.callers| && Dated(cfg, ev, s.callers[c], e, h) {
      assert ReachesDated(cfg, ev, s.callers[c], e, h);
      forall d | 0 <= d < |s.callers| && d != c
        ensures ActedOn(e, h)(s.callers[d]) <= Undated(cfg, ev, e, h)(s.callers[d])
      {
        assert ActorFits(cfg, ev, s.events[e], s.callers[d], e, h);
      }
      TotalAtMostBut(ActedOn(e, h), Undated(cfg, ev, e, h), s.callers, c);
    } else {
      forall d | 0 <= d < |s.callers| ensures ActedOn(e, h)(s.callers[d]) <= Undated(cfg, ev, e, h)(s.callers[d]) {
        assert ActorFits(cfg, ev, s.events[e], s.callers[d], e, h);
      }
      TotalAtMost(ActedOn(e, h), Undated(cfg, ev, e, h), s.callers);
    }
  }

  // ---------- a run in which all of them act ----------

  /** The workers that leave no date take their turns. */
  lemma UndatedAct(cfg: Config, s: State, e: nat, h: nat, chosen: set<nat>, limit: nat) returns (t: State)
    requires Init(s) && e < |s.events| && !s.events[e].reconciled
    requires RoomForWorkers(cfg, s, e) && HandlersWithin(cfg, limit)
    requires forall c :: c in chosen <==> 0 <= c < |s.callers| && ReachesUndated(cfg, s.events[e], s.callers[c], e, h)
    ensures Leads(cfg, s, t) && HadTheirTurn(cfg, s, t, e, chosen) && !t.events[e].reconciled
    ensures Total(ActedOn(e, h), t.callers) >= Total(Undated(cfg, s.events[e], e, h), s.callers)
  {
    t := InTurn(cfg, s, e, chosen, limit);
    LeadsInv(cfg, s, t);
    var ev := s.events[e];
    forall c | 0 <= c < |t.callers| ensures Undated(cfg, ev, e, h)(t.callers[c]) <= ActedOn(e, h)(t.callers[c]) {
      if c in chosen { assert ActedBelow(t.callers[c], Called(t.callers[c].plan, t.callers[c].faults.failsAt)); }
    }
    TotalAtMost(Undated(cfg, ev, e, h), ActedOn(e, h), t.callers);
    SameUndated(cfg, ev, s.callers, t.callers, e, h);
  }

  /** One worker more. */
  lemma DatedActs(cfg: Config, s: State, u: State, e: nat, h: nat, c: nat, chosen: set<nat>, limit: nat)
      returns (t: State)
    requires Init(s) && e < |s.events| && RoomForWorkers(cfg, s, e) && HandlersWithin(cfg, limit)
    requires Leads(cfg, s, u) && HadTheirTurn(cfg, s, u, e, chosen) && !u.events[e].reconciled
    requires c < |s.callers| && c !in chosen && Reaches(cfg, s.events[e], s.callers[c], e, h)
    ensures Leads(cfg, s, t) && Total(ActedOn(e, h), t.callers) == Total(ActedOn(e, h), u.callers) + 1
  {
    TurnStarts(cfg, s, u, e, c, chosen);
    t := TakesTurn(cfg, s, u, c, e, u.events[e], limit);
    LeadsInv(cfg, s, t);
    assert ActedBelow(t.callers[c], Called(t.callers[c].plan, t.callers[c].faults.failsAt));
    TotalUpdate(ActedOn(e, h), u.callers, c, t.callers[c]);
  }

  lemma MostAct(cfg: Config, s: State, e: nat, h: nat) returns (schedule: seq<nat>)
    requires Init(s) && e < |s.events| && !s.events[e].reconciled && RoomForWorkers(cfg, s, e)
    ensures Run(cfg, s, schedule).Some?
    ensures Run(cfg, s, schedule).value.history.acts[(e, h)] >= Most(cfg, s.events[e], s.callers, e, h)
  {
    var ev := s.events[e];
    var limit := SomeLimit(cfg);
    var chosen := set c: nat | c < |s.callers| && ReachesUndated(cfg, ev, s.callers[c], e, h);
    var t := UndatedAct(cfg, s, e, h, chosen, limit);
    if c: nat :| c < |s.callers| && ReachesDated(cfg, ev, s.callers[c], e, h) {
      t := DatedActs(cfg, s, t, e, h, c, chosen, limit);
    }
    schedule :| Run(cfg, s, schedule) == Some(t);
    RunActors(cfg, s, schedule, e, h);
  }

  /**
   * Over all runs from a state in which the event has no date, the most a handler acts on it is once for
   * each worker that gets as far as the handler and leaves no date, and once for all the others.
   */
  lemma {:induction false} MostActs(cfg: Config, s: State, e: nat, h: nat)
    requires Init(s) && e < |s.events| && !s.events[e].reconciled && RoomForWorkers(cfg, s, e)
    ensures forall schedule :: Run(cfg, s, schedule).Some? ==>
              Run(cfg, s, schedule).value.history.acts[(e, h)] <= Most(cfg, s.events[e], s.callers, e, h)
    ensures exists schedule :: Run(cfg, s, schedule).Some? &&
              Run(cfg, s, schedule).value.history.acts[(e, h)] == Most(cfg, s.events[e], s.callers, e, h)
  {
    forall schedule | Run(cfg, s, schedule).Some?
      ensures Run(cfg, s, schedule).value.history.acts[(e, h)] <= Most(cfg, s.events[e], s.callers, e, h)
    {
      RunActors(cfg, s, schedule, e, h);
      RunInv(cfg, s, schedule);
      var t := Run(cfg, s, schedule).value;
      ActsAtMost(cfg, s.events[e], t, e, h);
      SameMost(cfg, s, t, s.events[e], e, h);
    }
    var schedule := MostAct(cfg, s, e, h);
  }

  // ---------- acting twice ----------

  /** Two workers reach handler h, and the first of them leaves no date. */
  predicate Repeats(cfg: Config, s: State, e: nat, h: nat, c: nat, d: nat)
    requires e < |s.events|
  {
    && c < |s.callers| && d < |s.callers| && c != d
    && ReachesUndated(cfg, s.events[e], s.callers[c], e, h)
    && Reaches(cfg, s.events[e], s.callers[d], e, h)
  }

  lemma {:induction false} OneWeighs(w: Caller -> nat, callers: seq<Caller>) returns (c: nat)
    requires Total(w, callers) >= 1
    ensures c < |callers| && w(callers[c]) >= 1
  {
    var n := |callers| - 1;
    c := n;
    if w(callers[n]) == 0 { c := OneWeighs(w, callers[..n]); }
  }

  lemma {:induction false} TwoWeigh(w: Caller -> nat, callers: seq<Caller>) returns (c: nat, d: nat)
    requires Total(w, callers) >= 2 && forall i :: 0 <= i < |callers| ==> w(callers[i]) <= 1
    ensures c < d < |callers| && w(callers[c]) == 1 && w(callers[d]) == 1
  {
    var n := |callers| - 1;
    d := n;
    if w(callers[n]) == 0 { c, d := TwoWeigh(w, callers[..n]); } else { c := OneWeighs(w, callers[..n]); }
  }

  /** What one caller, or two, weigh is part of the sum. */
  lemma {:induction false} WeighsAtLeast(w: Caller -> nat, callers: seq<Caller>, c: nat, d: nat)
    requires c < |callers| && d < |callers|
    ensures Total(w, callers) >= if c == d then w(callers[c]) else w(callers[c]) + w(callers[d])
  {
    var n := |callers| - 1;
    if c < n && d < n { WeighsAtLeast(w, callers[..n], c, d); }
    else if c < n { WeighsAtLeast(w, callers[..n], c, c); }
    else if d < n { WeighsAtLeast(w, callers[..n], d, d); }
  }

  lemma MostIsTwo(cfg: Config, s: State, e: nat, h: nat)
    requires e < |s.events|
    ensures Most(cfg, s.events[e], s.callers, e, h) >= 2 <==> exists c: nat, d: nat :: Repeats(cfg, s, e, h, c, d)
  {
    var ev := s.events[e];
    var w := Undated(cfg, ev, e, h);
    if Total(w, s.callers) >= 2 {
      var c, d := TwoWeigh(w, s.callers);
      assert Repeats(cfg, s, e, h, c, d);
    } else if Most(cfg, ev, s.callers, e, h) >= 2 {
      var c := OneWeighs(w, s.callers);
      var d: nat :| d < |s.callers| && ReachesDated(cfg, ev, s.callers[d], e, h);
      assert Repeats(cfg, s, e, h, c, d);
    }
    if c: nat, d: nat :| Repeats(cfg, s, e, h, c, d) {
      WeighsAtLeast(w, s.callers, c, d);
      WeighsAtLeast(w, s.callers, c, c);
      assert w(s.callers[d]) == 1 || ReachesDated(cfg, ev, s.callers[d], e, h);
    }
  }

  /**
   * A handler that acts only on a nil date can act twice on an event if and only if two workers get as
   * far as the handler and one of them leaves no date.
   */
  lemma {:induction false} ActsTwiceIff(cfg: Config, s: State, e: nat, h: nat)
    requires Init(s) && e < |s.events| && !s.events[e].reconciled && RoomForWorkers(cfg, s, e)
    ensures (exists schedule :: Run(cfg, s, schedule).Some? && Run(cfg, s, schedule).value.history.acts[(e, h)] >= 2)
            <==> exists c: nat, d: nat :: Repeats(cfg, s, e, h, c, d)
  {
    MostActs(cfg, s, e, h);
    MostIsTwo(cfg, s, e, h);
  }

  // ---------- instances ----------

  const CREATED := Event(DINOSAURS, "d", CreateEvent, false)

  function Worker(failsAt: nat): Caller {
    Caller(Reconcile(0), 0, NO_FAULTS.(failsAt := failsAt), Idle, NoLock, NotBegun, false, NoReply, [], [], {}, false)
  }

  /** Two notifications of one new event; the handlers that answer them return their first errors there. */
  function Notified(failsAt: nat): State {
    State([Worker(failsAt), Worker(1)], map[], {}, map[], {}, map[], [CREATED],
          History(map[], multiset{}, multiset{}, map[]))
  }

  /** The one handler acts, returns an error, and acts again for the second notification. */
  lemma FailedHandlerActsAgain(cfg: Config) returns (schedule: seq<nat>)
    requires HandlersOf(cfg.controllers, CREATED) == Some(["h"]) && Allows(cfg, 0, 2)
    ensures Init(Notified(0)) && Run(cfg, Notified(0), schedule).Some?
    ensures Run(cfg, Notified(0), schedule).value.history.acts[(0, 0)] == 2
  {
    var s := Notified(0);
    assert s.callers[..1] == [Worker(0)] && [Worker(0)][..0] == [];
    assert ReachesDated(cfg, CREATED, s.callers[1], 0, 0);
    assert Most(cfg, CREATED, s.callers, 0, 0) == 2;
    MostActs(cfg, s, 0, 0);
    schedule :| Run(cfg, s, schedule).Some? && Run(cfg, s, schedule).value.history.acts[(0, 0)] == 2;
  }

  predicate BothRan(t: State) {
    |t.callers| == 2 && t.callers[0].ran == ["h"] && t.callers[1].ran == ["h"]
  }

  /** Without any error the handler is called for each of the two notifications. */
  lemma {:induction false} HandlerRunsTwice(cfg: Config)
    requires HandlersOf(cfg.controllers, CREATED) == Some(["h"]) && Allows(cfg, 0, 2)
    ensures Init(Notified(1))
    ensures exists schedule :: Run(cfg, Notified(1), schedule).Some? && BothRan(Run(cfg, Notified(1), schedule).value)
  {
    var s := Notified(1);
    EveryWorkerRunsTheHandlers(cfg, s, 0);
    var schedule :| Run(cfg, s, schedule).Some? && EachHandled(cfg, s, Run(cfg, s, schedule).value, 0);
    assert Gets(cfg, CREATED, s.callers[0], 0) && Gets(cfg, CREATED, s.callers[1], 0);
    assert BothRan(Run(cfg, s, schedule).value);
  }
}
