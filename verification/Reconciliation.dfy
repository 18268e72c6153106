/**
 * What the workers do to events: an event gets its date only from a session in which every handler
 * returned nil, keeps it, and a handler that checks the date acts at most once
 * plus once for each failed session in which it acted.
 */
module Reconciliation {
  import opened Wrappers
  import opened Domain
  import opened Protocol
  import opened ProtocolInvariants
  import opened MutualExclusion

  /** A worker between its Get of the event and its deferred Unlock. */
  predicate InSession(k: Caller) {
    && k.job.Reconcile?
    && match k.pc
       case Want(op) => op != Get
       case In(op) => op != Get
       case Acting(_, _) => true
       case _ => false
  }

  /** Handlers that have returned nil when the session is where it is. */
  function Progressed(k: Caller): nat {
    match k.pc
    case Want(Probe(i)) => i
    case In(Probe(i)) => i
    case Acting(i, _) => i
    case _ => |k.plan|
  }

  /** The session has looked up the event's handlers, and has run a prefix of them in order. */
  predicate SessionFits(cfg: Config, k: Caller, row: Option<Event>) {
    if InSession(k) then
      && Coherent(k)
      && row.Some? && HandlersOf(cfg.controllers, row.value) == Some(k.plan)
      && k.ran == k.plan[..Progressed(k)]
      && |k.ran| <= k.faults.failsAt
      && (forall h :: h in k.acted ==> h < Progressed(k) && !row.value.reconciled)
      && (k.pc.Acting? && k.pc.sawNil ==> !row.value.reconciled)
      && !k.failed
    else if k.pc.Unlock? || k.pc.Forget? || k.pc.Done? then
      k.ran == RanHandlers(k.plan, k.faults.failsAt)
    else
      k.plan == [] && k.ran == [] && k.acted == {} && !k.failed
  }

  predicate AllSessionsFit(cfg: Config, s: State) {
    forall c :: 0 <= c < |s.callers| && s.callers[c].job.Reconcile? ==>
      SessionFits(cfg, s.callers[c], EventRow(s, s.callers[c].job.event))
  }

  /** Events keep what they are about, and a date once set stays set. */
  predicate Grows(before: seq<Event>, after: seq<Event>) {
    && |before| <= |after|
    && forall e :: 0 <= e < |before| ==>
         && after[e].(reconciled := before[e].reconciled) == before[e]
         && (before[e].reconciled ==> after[e].reconciled)
  }

  /** A step appends an event, or sets the date of the event whose session its caller is saving, or does nothing. */
  lemma StepEvents(cfg: Config, s: State, c: nat)
    requires c < |s.callers| && Coherent(s.callers[c]) && Next(cfg, s, c).Some?
    ensures var t, k := Next(cfg, s, c).value, s.callers[c];
            && Grows(s.events, t.events)
            && forall e :: 0 <= e < |s.events| && t.events[e] != s.events[e] ==>
                 k.job == Reconcile(e) && k.pc == In(Save)
  {
  }

  // ---------- sessions keep their shape ----------

  lemma ReconcileOpFits(cfg: Config, k: Caller, op: Op, row: Option<Event>)
    requires k.job.Reconcile? && k.pc == In(op) && Coherent(k) && SessionFits(cfg, k, row)
    ensures var k' := AfterReconcileOp(cfg, k, op, row);
            var saved := op == Save && row.Some? && k.faults.dao.save != Failed;
            SessionFits(cfg, k', if saved then Some(row.value.(reconciled := true)) else row)
  {
    ReconcileCoherent(cfg, k, op, row);
  }

  /** Handler i returns nil or an error. */
  lemma ActFits(cfg: Config, s: State, c: nat, row: Option<Event>)
    requires c < |s.callers| && Coherent(s.callers[c]) && s.callers[c].pc.Acting?
    requires SessionFits(cfg, s.callers[c], row)
    ensures var k := s.callers[c];
            SessionFits(cfg, Act(s, c, k.pc.handler, k.pc.sawNil).callers[c], row)
  {
    var k := s.callers[c];
    ActCalm(s, c);
    assert k.plan[..k.pc.handler + 1] == k.plan[..k.pc.handler] + [k.plan[k.pc.handler]];
  }

  lemma OutsideFits(cfg: Config, s: State, c: nat, row: Option<Event>)
    requires c < |s.callers| && Local(s, c) && s.callers[c].job.Reconcile? && Next(cfg, s, c).Some?
    requires Effect(cfg, s, Next(cfg, s, c).value, c) && SessionFits(cfg, s.callers[c], row)
    requires var pc := s.callers[c].pc; pc.Idle? || pc.OpenLock? || pc.AwaitLock? || pc.Register?
    ensures SessionFits(cfg, Next(cfg, s, c).value.callers[c], row)
  {
  }

  lemma WaitingFits(cfg: Config, s: State, c: nat, row: Option<Event>)
    requires c < |s.callers| && Local(s, c) && s.callers[c].job.Reconcile? && Next(cfg, s, c).Some?
    requires Effect(cfg, s, Next(cfg, s, c).value, c) && SessionFits(cfg, s.callers[c], row)
    requires var pc := s.callers[c].pc; pc.Want? || pc.Unlock? || pc.Forget?
    ensures SessionFits(cfg, Next(cfg, s, c).value.callers[c], row)
  {
  }

  /** Two workers are never in a session on the same event. */
  lemma OneSession(cfg: Config, s: State, c: nat, d: nat)
    requires Inv(cfg, s) && c < |s.callers| && d < |s.callers|
    requires InSession(s.callers[c]) && InSession(s.callers[d]) && s.callers[c].job == s.callers[d].job
    ensures c == d
  {
    InvLocal(cfg, s, c);
    InvLocal(cfg, s, d);
  }

  lemma OwnStatementFits(cfg: Config, s: State, c: nat)
    requires c < |s.callers| && Coherent(s.callers[c]) && s.callers[c].job.Reconcile? && s.callers[c].pc.In?
    requires SessionFits(cfg, s.callers[c], EventRow(s, s.callers[c].job.event))
    ensures var t := ReconcileOp(cfg, s, c, s.callers[c].pc.op);
            SessionFits(cfg, t.callers[c], EventRow(t, s.callers[c].job.event))
  {
    ReconcileOpFits(cfg, s.callers[c], s.callers[c].pc.op, EventRow(s, s.callers[c].job.event));
  }

  lemma OwnSessionFits(cfg: Config, s: State, c: nat)
    requires c < |s.callers| && Local(s, c) && s.callers[c].job.Reconcile? && Next(cfg, s, c).Some?
    requires Effect(cfg, s, Next(cfg, s, c).value, c)
    requires SessionFits(cfg, s.callers[c], EventRow(s, s.callers[c].job.event))
    ensures var t := Next(cfg, s, c).value;
            SessionFits(cfg, t.callers[c], EventRow(t, s.callers[c].job.event))
  {
    var k := s.callers[c];
    if k.pc.In? {
      OwnStatementFits(cfg, s, c);
    } else {
      OwnOtherStepFits(cfg, s, c);
    }
  }

  lemma OwnOtherStepFits(cfg: Config, s: State, c: nat)
    requires c < |s.callers| && Local(s, c) && s.callers[c].job.Reconcile? && Next(cfg, s, c).Some?
    requires Effect(cfg, s, Next(cfg, s, c).value, c) && !s.callers[c].pc.In?
    requires SessionFits(cfg, s.callers[c], EventRow(s, s.callers[c].job.event))
    ensures var t := Next(cfg, s, c).value;
            SessionFits(cfg, t.callers[c], EventRow(t, s.callers[c].job.event))
  {
    var k, t := s.callers[c], Next(cfg, s, c).value;
    var row := EventRow(s, k.job.event);
    StepEvents(cfg, s, c);
    if k.pc.Acting? { ActFits(cfg, s, c, row); }
    else if k.pc.Want? || k.pc.Unlock? || k.pc.Forget? { WaitingFits(cfg, s, c, row); }
    else { OutsideFits(cfg, s, c, row); }
  }

  lemma StepSessions(cfg: Config, s: State, c: nat)
    requires Inv(cfg, s) && AllSessionsFit(cfg, s) && c < |s.callers| && Next(cfg, s, c).Some?
    ensures AllSessionsFit(cfg, Next(cfg, s, c).value)
  {
    var t := Next(cfg, s, c).value;
    InvLocal(cfg, s, c);
    StepEffect(cfg, s, c);
    StepEvents(cfg, s, c);
    if s.callers[c].job.Reconcile? { OwnSessionFits(cfg, s, c); }
    forall d | 0 <= d < |s.callers| && d != c && s.callers[d].job.Reconcile?
      ensures SessionFits(cfg, t.callers[d], EventRow(t, s.callers[d].job.event))
    {
      OtherSessionFits(cfg, s, t, c, d);
    }
  }

  /** A step of c cannot reach into the session of another worker. */
  lemma OtherSessionFits(cfg: Config, s: State, t: State, c: nat, d: nat)
    requires Inv(cfg, s) && c < |s.callers| && d < |s.callers| && d != c
    requires |t.callers| == |s.callers| && t.callers[d] == s.callers[d] && s.callers[d].job.Reconcile?
    requires SessionFits(cfg, s.callers[d], EventRow(s, s.callers[d].job.event))
    requires Grows(s.events, t.events)
    requires forall e :: 0 <= e < |s.events| && t.events[e] != s.events[e] ==>
               s.callers[c].job == Reconcile(e) && s.callers[c].pc == In(Save)
    ensures SessionFits(cfg, t.callers[d], EventRow(t, s.callers[d].job.event))
  {
    var e := s.callers[d].job.event;
    if InSession(s.callers[d]) && t.events[e] != s.events[e] {
      OneSession(cfg, s, c, d);
    }
  }

  // ---------- who set the date ----------

  /** Caller c was granted the event's lock and every handler of the event returned nil to it, in order. */
  predicate Completed(cfg: Config, s: State, e: nat, c: nat) {
    && c < |s.callers| && e < |s.events|
    && var k := s.callers[c];
    && k.job == Reconcile(e)
    && HandlersOf(cfg.controllers, s.events[e]) == Some(k.plan)
    && k.ran == k.plan
    && |k.plan| <= k.faults.failsAt
    && (k.lock.Owner? || k.lock.Ended? || k.lock.Closed?)
    && (k.pc.Unlock? || k.pc.Forget? || k.pc.Done?)
  }

  /** The event had its date before the run, or a completed session set it. */
  predicate DateExplained(cfg: Config, before: seq<Event>, s: State, e: nat) {
    e < |s.events| && s.events[e].reconciled ==>
      || (e < |before| && before[e].reconciled)
      || (e in s.history.reconciler && Completed(cfg, s, e, s.history.reconciler[e]))
  }

  /** A completed session stays completed. */
  lemma CompletedStays(cfg: Config, s: State, c: nat, e: nat, d: nat)
    requires c < |s.callers| && Local(s, c) && Next(cfg, s, c).Some? && Completed(cfg, s, e, d)
    requires Effect(cfg, s, Next(cfg, s, c).value, c)
    ensures Completed(cfg, Next(cfg, s, c).value, e, d)
  {
    StepEvents(cfg, s, c);
  }

  predicate KeepsEntry(m: map<nat, nat>, m': map<nat, nat>, e: nat) {
    e in m ==> e in m' && m'[e] == m[e]
  }

  /** Only the last statement of a session sets a date, and it names its own caller. */
  lemma StepReconciler(cfg: Config, s: State, c: nat, e: nat)
    requires c < |s.callers| && Coherent(s.callers[c]) && Next(cfg, s, c).Some? && e < |s.events|
    ensures var t, k := Next(cfg, s, c).value, s.callers[c];
            || (t.events[e] == s.events[e] && KeepsEntry(s.history.reconciler, t.history.reconciler, e))
            || (k.job == Reconcile(e) && k.pc == In(Save) && e in t.history.reconciler && t.history.reconciler[e] == c
                && t.callers[c].pc == Unlock && t.callers[c] == k.(pc := Unlock, failed := k.faults.dao.save != Ok))
  {
    var k := s.callers[c];
    if !k.pc.In? && !k.pc.Acting? { StepApart(cfg, s, Next(cfg, s, c).value, c); }
  }

  /** What a step appends to the events has no date. */
  lemma NewEventsHaveNoDate(cfg: Config, s: State, c: nat, e: nat)
    requires c < |s.callers| && Coherent(s.callers[c]) && Next(cfg, s, c).Some?
    requires |s.events| <= e < |Next(cfg, s, c).value.events|
    ensures !Next(cfg, s, c).value.events[e].reconciled
  {
  }

  lemma StepExplained(cfg: Config, before: seq<Event>, s: State, c: nat, e: nat)
    requires Inv(cfg, s) && AllSessionsFit(cfg, s) && c < |s.callers| && Next(cfg, s, c).Some?
    requires DateExplained(cfg, before, s, e)
    ensures DateExplained(cfg, before, Next(cfg, s, c).value, e)
  {
    InvLocal(cfg, s, c);
    StepEffect(cfg, s, c);
    var t := Next(cfg, s, c).value;
    if |s.events| <= e < |t.events| {
      NewEventsHaveNoDate(cfg, s, c, e);
    } else if e < |t.events| {
      StepReconciler(cfg, s, c, e);
      StepEvents(cfg, s, c);
      if e in s.history.reconciler && Completed(cfg, s, e, s.history.reconciler[e]) {
        CompletedStays(cfg, s, c, e, s.history.reconciler[e]);
      }
      Explained(cfg, before, s, t, c, e);
    }
  }

  /** The date of an old event is explained as before, or by the session of c that has just ended. */
  lemma Explained(cfg: Config, before: seq<Event>, s: State, t: State, c: nat, e: nat)
    requires c < |s.callers| && c < |t.callers| && e < |s.events| && Grows(s.events, t.events)
    requires DateExplained(cfg, before, s, e)
    requires s.callers[c].job == Reconcile(e) ==> SessionFits(cfg, s.callers[c], EventRow(s, e))
    requires s.callers[c].pc == In(Save) && s.callers[c].job == Reconcile(e) ==> Coherent(s.callers[c])
    requires e in s.history.reconciler && Completed(cfg, s, e, s.history.reconciler[e]) ==>
               Completed(cfg, t, e, s.history.reconciler[e])
    requires var k := s.callers[c];
             || (t.events[e] == s.events[e] && KeepsEntry(s.history.reconciler, t.history.reconciler, e))
             || (k.job == Reconcile(e) && k.pc == In(Save) && e in t.history.reconciler && t.history.reconciler[e] == c
                 && t.callers[c].pc == Unlock && t.callers[c] == k.(pc := Unlock, failed := k.faults.dao.save != Ok))
    ensures DateExplained(cfg, before, t, e)
  {
  }

  // ---------- how often a handler acts ----------

  predicate ActedAndFailed(k: Caller, e: nat, h: nat) {
    k.job == Reconcile(e) && k.failed && h in k.acted
  }

  /** Sessions on event e in which handler h acted and that ended in a handler error or in a failed Replace. */
  function FailedOn(e: nat, h: nat): Caller -> nat {
    (k: Caller) => if ActedAndFailed(k, e, h) then 1 else 0
  }

  /** The failed sessions of event e in which handler h acted, and one for the event's date. */
  function Credit(s: State, e: nat, h: nat): nat {
    Total(FailedOn(e, h), s.callers) + if e < |s.events| && s.events[e].reconciled then 1 else 0
  }

  /** The session that is running on event e has already let handler h act. */
  predicate ActedNow(s: State, e: nat, h: nat) {
    exists c :: 0 <= c < |s.callers| && ActingFor(s.callers[c], e, h)
  }

  predicate ActingFor(k: Caller, e: nat, h: nat) {
    InSession(k) && k.job == Reconcile(e) && h in k.acted
  }

  predicate ActsWithin(s: State, e: nat, h: nat) {
    s.history.acts[(e, h)] <= Credit(s, e, h) + if ActedNow(s, e, h) then 1 else 0
  }

  /** What the step of a worker does to the count of acts on its own event. */
  lemma StepCountsActs(cfg: Config, s: State, c: nat, e: nat, h: nat)
    requires c < |s.callers| && Coherent(s.callers[c]) && Next(cfg, s, c).Some?
    ensures var k := s.callers[c];
            Next(cfg, s, c).value.history.acts[(e, h)] ==
            s.history.acts[(e, h)] + if k.job == Reconcile(e) && k.pc == Acting(h, true) then 1 else 0
  {
  }

  /** What a session has done after a step, and how it goes on. */
  predicate GoesOn(s: State, t: State, c: nat, e: nat)
    requires c < |s.callers| && c < |t.callers|
  {
    var k, k' := s.callers[c], t.callers[c];
    && k'.acted == k.acted + (if k.pc.Acting? && k.pc.sawNil then {k.pc.handler} else {})
    && ((InSession(k') && t.events == s.events && !k'.failed)
        || k'.failed
        || (k.pc == In(Save) && e < |t.events| && t.events[e].reconciled))
  }

  lemma StatementGoesOn(cfg: Config, s: State, c: nat, e: nat)
    requires c < |s.callers| && Coherent(s.callers[c]) && s.callers[c].pc.In?
    requires s.callers[c].job == Reconcile(e) && InSession(s.callers[c])
    requires SessionFits(cfg, s.callers[c], EventRow(s, e))
    ensures GoesOn(s, ReconcileOp(cfg, s, c, s.callers[c].pc.op), c, e)
  {
  }

  lemma ActGoesOn(s: State, c: nat, e: nat)
    requires c < |s.callers| && Coherent(s.callers[c]) && s.callers[c].pc.Acting?
    requires s.callers[c].job == Reconcile(e) && !s.callers[c].failed
    ensures GoesOn(s, Act(s, c, s.callers[c].pc.handler, s.callers[c].pc.sawNil), c, e)
  {
  }

  /** The step of a worker in its session: it goes on, or it ends with a failure or with the date set. */
  lemma SessionGoesOn(cfg: Config, s: State, c: nat, e: nat)
    requires c < |s.callers| && Local(s, c) && Next(cfg, s, c).Some?
    requires s.callers[c].job == Reconcile(e) && InSession(s.callers[c])
    requires SessionFits(cfg, s.callers[c], EventRow(s, e))
    ensures |Next(cfg, s, c).value.callers| == |s.callers| && GoesOn(s, Next(cfg, s, c).value, c, e)
  {
    var k := s.callers[c];
    match k.pc
    case In(_) => StatementGoesOn(cfg, s, c, e);
    case Acting(_, _) => ActGoesOn(s, c, e);
    case Want(op) => assert Next(cfg, s, c).value.callers[c] == k.(pc := In(op));
  }

  /** The step of a worker outside its session changes neither its acts nor its failure. */
  lemma OutsideSession(cfg: Config, s: State, c: nat)
    requires c < |s.callers| && Local(s, c) && s.callers[c].job.Reconcile? && Next(cfg, s, c).Some?
    requires !InSession(s.callers[c])
    ensures var k, k' := s.callers[c], Next(cfg, s, c).value.callers[c];
            k'.acted == k.acted && (k'.failed == k.failed) && !k.pc.Acting?
  {
    var k := s.callers[c];
    if k.pc.In? {
      assert Next(cfg, s, c).value.callers[c] == AfterReconcileOp(cfg, k, Get, EventRow(s, k.job.event));
    } else {
      StepApart(cfg, s, Next(cfg, s, c).value, c);
    }
  }

  /** Failures and dates are never taken back. */
  lemma CreditGrows(cfg: Config, s: State, c: nat, e: nat, h: nat)
    requires c < |s.callers| && Local(s, c) && Next(cfg, s, c).Some?
    requires Effect(cfg, s, Next(cfg, s, c).value, c)
    ensures var t := Next(cfg, s, c).value;
            Credit(t, e, h) >= Credit(s, e, h) - FailedOn(e, h)(s.callers[c]) + FailedOn(e, h)(t.callers[c])
    ensures var t := Next(cfg, s, c).value;
            e < |t.events| && t.events[e].reconciled && !(e < |s.events| && s.events[e].reconciled) ==>
              Credit(t, e, h) == Credit(s, e, h) - FailedOn(e, h)(s.callers[c]) + FailedOn(e, h)(t.callers[c]) + 1
  {
    StepEvents(cfg, s, c);
    TotalUpdate(FailedOn(e, h), s.callers, c, Next(cfg, s, c).value.callers[c]);
  }

  /** The step of a caller that is not in a session on the event. */
  lemma StepElsewhere(cfg: Config, s: State, c: nat, e: nat, h: nat)
    requires c < |s.callers| && Local(s, c) && ActsWithin(s, e, h) && Next(cfg, s, c).Some?
    requires Effect(cfg, s, Next(cfg, s, c).value, c)
    requires s.callers[c].job != Reconcile(e) || !InSession(s.callers[c])
    ensures ActsWithin(Next(cfg, s, c).value, e, h)
  {
    var t := Next(cfg, s, c).value;
    CreditGrows(cfg, s, c, e, h);
    StepCountsActs(cfg, s, c, e, h);
    if s.callers[c].job == Reconcile(e) { OutsideSession(cfg, s, c); }
    if ActedNow(s, e, h) {
      var d :| 0 <= d < |s.callers| && ActingFor(s.callers[d], e, h);
      assert ActingFor(t.callers[d], e, h);
    }
  }

  /** Whoever has let handler h act on the event is the one worker in a session on it. */
  lemma ActedNowIsMine(cfg: Config, s: State, c: nat, e: nat, h: nat)
    requires Inv(cfg, s) && c < |s.callers| && s.callers[c].job == Reconcile(e) && InSession(s.callers[c])
    ensures ActedNow(s, e, h) <==> h in s.callers[c].acted
  {
    if h in s.callers[c].acted { assert ActingFor(s.callers[c], e, h); }
    if ActedNow(s, e, h) {
      var d :| 0 <= d < |s.callers| && ActingFor(s.callers[d], e, h);
      OneSession(cfg, s, c, d);
    }
  }

  /** The step of the worker in a session on the event. */
  lemma StepInSession(cfg: Config, s: State, c: nat, e: nat, h: nat)
    requires c < |s.callers| && Local(s, c) && ActsWithin(s, e, h) && Next(cfg, s, c).Some?
    requires Effect(cfg, s, Next(cfg, s, c).value, c)
    requires s.callers[c].job == Reconcile(e) && InSession(s.callers[c])
    requires SessionFits(cfg, s.callers[c], EventRow(s, e))
    requires ActedNow(s, e, h) <==> h in s.callers[c].acted
    ensures ActsWithin(Next(cfg, s, c).value, e, h)
  {
    var t := Next(cfg, s, c).value;
    var k, k' := s.callers[c], t.callers[c];
    CreditGrows(cfg, s, c, e, h);
    StepCountsActs(cfg, s, c, e, h);
    SessionGoesOn(cfg, s, c, e);
    if InSession(k') && h in k'.acted { assert ActingFor(t.callers[c], e, h); }
  }

  lemma StepActs(cfg: Config, s: State, c: nat, e: nat, h: nat)
    requires Inv(cfg, s) && AllSessionsFit(cfg, s) && ActsWithin(s, e, h)
    requires c < |s.callers| && Next(cfg, s, c).Some?
    ensures ActsWithin(Next(cfg, s, c).value, e, h)
  {
    InvLocal(cfg, s, c);
    StepEffect(cfg, s, c);
    if s.callers[c].job == Reconcile(e) && InSession(s.callers[c]) {
      ActedNowIsMine(cfg, s, c, e, h);
      StepInSession(cfg, s, c, e, h);
    } else {
      StepElsewhere(cfg, s, c, e, h);
    }
  }

  // ---------- every run ----------

  lemma {:induction false} NobodyFailed(callers: seq<Caller>, e: nat, h: nat)
    requires forall c :: 0 <= c < |callers| ==> Fresh(callers[c])
    ensures Total(FailedOn(e, h), callers) == 0
  {
    if callers != [] { NobodyFailed(callers[..|callers| - 1], e, h); }
  }

  lemma {:induction false} RunSessions(cfg: Config, s: State, schedule: seq<nat>)
    requires Init(s) && Run(cfg, s, schedule).Some?
    ensures AllSessionsFit(cfg, Run(cfg, s, schedule).value)
    ensures Grows(s.events, Run(cfg, s, schedule).value.events)
  {
    if schedule != [] {
      var n := |schedule| - 1;
      RunSessions(cfg, s, schedule[..n]);
      RunInv(cfg, s, schedule[..n]);
      var before := Run(cfg, s, schedule[..n]).value;
      InvLocal(cfg, before, schedule[n]);
      StepSessions(cfg, before, schedule[n]);
      StepEvents(cfg, before, schedule[n]);
    }
  }

  /**
   * An event that has its date had it from the start, or got it from a worker that was granted the
   * event's lock and to which every handler registered for the event returned nil, in order.
   */
  lemma {:induction false} DatesAreEarned(cfg: Config, s: State, schedule: seq<nat>, e: nat)
    requires Init(s) && Run(cfg, s, schedule).Some?
    ensures DateExplained(cfg, s.events, Run(cfg, s, schedule).value, e)
  {
    if schedule != [] {
      var n := |schedule| - 1;
      DatesAreEarned(cfg, s, schedule[..n], e);
      RunInv(cfg, s, schedule[..n]);
      RunSessions(cfg, s, schedule[..n]);
      StepExplained(cfg, s.events, Run(cfg, s, schedule[..n]).value, schedule[n], e);
    }
  }

  lemma {:induction false} RunActs(cfg: Config, s: State, schedule: seq<nat>, e: nat, h: nat)
    requires Init(s) && Run(cfg, s, schedule).Some?
    ensures ActsWithin(Run(cfg, s, schedule).value, e, h)
  {
    if schedule != [] {
      var n := |schedule| - 1;
      RunActs(cfg, s, schedule[..n], e, h);
      RunInv(cfg, s, schedule[..n]);
      RunSessions(cfg, s, schedule[..n]);
      StepActs(cfg, Run(cfg, s, schedule[..n]).value, schedule[n], e, h);
    }
  }

  /**
   * Over every interleaving of workers and every duplication of notifications, a handler that acts
   * only on a nil date acts on an event at most once more than there were sessions in which it acted
   * and that ended in a handler error or in a failed Replace.
   */
  lemma {:induction false} ActsAtMostOncePlusFailures(cfg: Config, s: State, schedule: seq<nat>, e: nat, h: nat)
    requires Init(s) && Run(cfg, s, schedule).Some?
    ensures var t := Run(cfg, s, schedule).value;
            t.history.acts[(e, h)] <= 1 + Total(FailedOn(e, h), t.callers)
  {
    RunActs(cfg, s, schedule, e, h);
    RunInv(cfg, s, schedule);
    RunSessions(cfg, s, schedule);
    var t := Run(cfg, s, schedule).value;
    if ActedNow(t, e, h) {
      var c :| 0 <= c < |t.callers| && ActingFor(t.callers[c], e, h);
      assert SessionFits(cfg, t.callers[c], EventRow(t, e));
    }
  }
}
