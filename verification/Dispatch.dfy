/** Which handlers a worker runs for an event, said in terms of the Add calls that registered them. */
module Dispatch {
  import opened Wrappers
  import opened Domain
  import opened Protocol
  import opened ProtocolInvariants
  import opened MutualExclusion
  import opened Reconciliation
  import ControllerManager

  type Adds = seq<ControllerManager.Config>

  /** The workers use what these Add calls registered. */
  predicate RegisteredBy(cfg: Config, adds: Adds) {
    cfg.controllers == ControllerManager.Registrations(adds)
  }

  predicate NamedFor(adds: Adds, e: Event) {
    ControllerManager.Named(adds, e.source, e.eventType)
  }

  function ListFor(adds: Adds, e: Event): seq<HandlerName> {
    ControllerManager.Concatenated(adds, e.source, e.eventType)
  }

  // ---------- the lookup ----------

  /**
   * A worker whose read of the event finishes goes on to a session exactly if the read succeeded, the
   * event is there, and some Add call names its source and its own type; its handlers are then all that
   * the Add calls name for these, in order.
   */
  lemma {:induction false} LookupIsByName(cfg: Config, s: State, c: nat, e: nat, adds: Adds)
    requires RegisteredBy(cfg, adds) && c < |s.callers| && s.callers[c].job == Reconcile(e) && s.callers[c].pc == In(Get)
    ensures Next(cfg, s, c).Some? && |Next(cfg, s, c).value.callers| == |s.callers|
    ensures var k' := Next(cfg, s, c).value.callers[c];
            && (InSession(k') <==> s.callers[c].faults.dao.getOk && e < |s.events| && NamedFor(adds, s.events[e]))
            && (InSession(k') ==> k'.plan == ListFor(adds, s.events[e]))
  {
    if e < |s.events| { ControllerManager.LookupFindsNamed(adds, s.events[e]); }
    assert Next(cfg, s, c) == Some(ReconcileOp(cfg, s, c, Get));
  }

  // ---------- every state ----------

  /** The worker's handlers are those that are looked up for its event. */
  predicate PlanFits(cfg: Config, k: Caller, events: seq<Event>) {
    k.job.Reconcile? && k.plan != [] ==>
      k.job.event < |events| && HandlersOf(cfg.controllers, events[k.job.event]) == Some(k.plan)
  }

  predicate PlansFit(cfg: Config, s: State) {
    forall c :: 0 <= c < |s.callers| ==> PlanFits(cfg, s.callers[c], s.events)
  }

  lemma StatementPlan(cfg: Config, s: State, c: nat)
    requires c < |s.callers| && s.callers[c].job.Reconcile? && s.callers[c].pc.In?
    requires PlanFits(cfg, s.callers[c], s.events)
    ensures var k := s.callers[c];
            PlanFits(cfg, AfterReconcileOp(cfg, k, k.pc.op, EventRow(s, k.job.event)), s.events)
  {
  }

  lemma ActPlan(s: State, c: nat, i: nat, sawNil: bool)
    requires c < |s.callers| && s.callers[c].pc.Acting?
    ensures Act(s, c, i, sawNil).callers[c].plan == s.callers[c].plan
  {
  }

  lemma OwnPlanFits(cfg: Config, s: State, t: State, c: nat)
    requires c < |s.callers| && s.callers[c].job.Reconcile? && Next(cfg, s, c) == Some(t)
    requires Effect(cfg, s, t, c) && PlanFits(cfg, s.callers[c], s.events)
    ensures PlanFits(cfg, t.callers[c], s.events)
  {
    match s.callers[c].pc
    case In(_) => StatementPlan(cfg, s, c);
    case Acting(i, sawNil) => ActPlan(s, c, i, sawNil);
    case _ => StepApart(cfg, s, t, c);
  }

  lemma PlansGrow(cfg: Config, k: Caller, before: seq<Event>, after: seq<Event>)
    requires PlanFits(cfg, k, before) && Grows(before, after)
    ensures PlanFits(cfg, k, after)
  {
  }

  lemma StepPlans(cfg: Config, s: State, t: State, c: nat)
    requires Inv(cfg, s) && PlansFit(cfg, s) && c < |s.callers| && Next(cfg, s, c) == Some(t)
    ensures PlansFit(cfg, t)
  {
    InvLocal(cfg, s, c);
    StepEffect(cfg, s, c);
    StepEvents(cfg, s, c);
    if s.callers[c].job.Reconcile? { OwnPlanFits(cfg, s, t, c); }
    forall d | 0 <= d < |t.callers| ensures PlanFits(cfg, t.callers[d], t.events) {
      PlansGrow(cfg, t.callers[d], s.events, t.events);
    }
  }

  lemma {:induction false} RunPlans(cfg: Config, s: State, schedule: seq<nat>)
    requires Init(s) && Run(cfg, s, schedule).Some?
    ensures PlansFit(cfg, Run(cfg, s, schedule).value)
  {
    if schedule != [] {
      var n := |schedule| - 1;
      RunPlans(cfg, s, schedule[..n]);
      RunInv(cfg, s, schedule[..n]);
      StepPlans(cfg, Run(cfg, s, schedule[..n]).value, Run(cfg, s, schedule).value, schedule[n]);
    }
  }

  /**
   * In every run whatever a worker has run is a beginning of the handlers that the Add calls name for the
   * source and the own type of its event; a worker that has run something, or is in its session, has an
   * event that some Add call names; and one whose session is over has run them all up to the first error.
   */
  lemma {:induction false} SessionsRunWhatIsNamed(cfg: Config, s: State, schedule: seq<nat>, c: nat, e: nat, adds: Adds)
    requires Init(s) && Run(cfg, s, schedule).Some? && RegisteredBy(cfg, adds)
    requires c < |Run(cfg, s, schedule).value.callers| && Run(cfg, s, schedule).value.callers[c].job == Reconcile(e)
    ensures var t := Run(cfg, s, schedule).value;
            var k := t.callers[c];
            && (InSession(k) || k.plan != [] ==>
                  e < |t.events| && NamedFor(adds, t.events[e]) && k.plan == ListFor(adds, t.events[e])
                  && k.ran <= ListFor(adds, t.events[e]))
            && (!InSession(k) && k.plan == [] ==> k.ran == [])
            && (k.pc.Unlock? || k.pc.Forget? || k.pc.Done? ==>
                  ControllerManager.RunsUpTo(k.ran, k.plan, k.faults.failsAt))
  {
    RunPlans(cfg, s, schedule);
    RunSessions(cfg, s, schedule);
    var t := Run(cfg, s, schedule).value;
    assert SessionFits(cfg, t.callers[c], EventRow(t, e)) && PlanFits(cfg, t.callers[c], t.events);
    if e < |t.events| { ControllerManager.LookupFindsNamed(adds, t.events[e]); }
  }

  // ---------- an instance ----------

  /** What the dinosaurs plugin registers. */
  const DINOSAUR_HANDLERS := ControllerManager.Config(
    "Dinosaurs", map[CreateEvent := ["OnUpsert"], UpdateEvent := ["OnUpsert"], DeleteEvent := ["OnDelete"]])

  /** Creations and updates are upserts, deletions are not, and events of other sources have no handlers. */
  lemma DinosaurEvents(e: Event)
    ensures var found := HandlersOf(ControllerManager.Registrations([DINOSAUR_HANDLERS]), e);
            found == if e.source != "Dinosaurs" then None
                     else Some(if e.eventType == DeleteEvent then ["OnDelete"] else ["OnUpsert"])
  {
    var adds := [DINOSAUR_HANDLERS];
    ControllerManager.LookupFindsNamed(adds, e);
    assert adds[..0] == [] && adds[0] == DINOSAUR_HANDLERS;
    assert ControllerManager.Concatenated(adds[..0], e.source, e.eventType) == [];
    assert ListFor(adds, e) ==
           if e.source == "Dinosaurs" then ControllerManager.ListOf(DINOSAUR_HANDLERS.handlers, e.eventType) else [];
    if e.source == "Dinosaurs" {
      assert e.eventType.CreateEvent? || e.eventType.UpdateEvent? || e.eventType.DeleteEvent?;
      assert adds[0].source == e.source && e.eventType in adds[0].handlers;
    }
  }
}
