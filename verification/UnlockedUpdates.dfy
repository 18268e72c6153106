/**
 * Updates of a dinosaur of which some take no lock: exactly when do update events still match the
 * real changes of its species, whatever the interleaving.
 */
module UnlockedUpdates {
  import opened Wrappers
  import opened Domain
  import opened Replacing
  import opened Protocol
  import opened ProtocolInvariants
  import MutualExclusion
  import opened Serialization

  /** No statement of a call on the dinosaur fails. */
  predicate FaultFree(s: State, id: Id) {
    forall c :: 0 <= c < |s.callers| && On(s.callers[c], id) ==> Faultless(s.callers[c].faults)
  }

  /** Settled, for calls without a lock too: nobody is inside a call on the dinosaur. */
  predicate AllSettled(s: State, id: Id) {
    forall c :: 0 <= c < |s.callers| && On(s.callers[c], id) && Entered(s.callers[c]) ==> Answered(s.callers[c])
  }

  predicate Entered(k: Caller)
    requires k.job.Patch?
  {
    if k.job.mode == Unlocked then !k.pc.Idle? else WasGranted(k)
  }

  /**
   * Two calls ask for the same species, at least one of them without a lock, and the row is not
   * already, and for good, what they ask for.
   */
  predicate Racing(s: State, id: Id, c: nat, d: nat) {
    && c < |s.callers| && d < |s.callers| && c != d
    && On(s.callers[c], id) && On(s.callers[d], id)
    && s.callers[c].job.mode == Unlocked
    && s.callers[c].job.want == s.callers[d].job.want
    && (RowOf(s, id) != Some(s.callers[c].job.want) || Wanted(s, id, s.callers[c].job.want))
  }

  /** Some call asks for another species. */
  predicate Wanted(s: State, id: Id, other: Species) {
    exists e :: 0 <= e < |s.callers| && On(s.callers[e], id) && s.callers[e].job.want != other
  }

  ghost predicate Racy(s: State, id: Id) {
    exists c: nat, d: nat :: Racing(s, id, c, d)
  }

  // ---------- without a race every run matches ----------

  predicate AtSave(k: Caller, id: Id) {
    On(k, id) && (k.pc == Want(Save) || k.pc == In(Save))
  }

  /** One for a call that has changed the species and not yet stored its event. */
  function Owes(k: Caller, id: Id): nat {
    if On(k, id) && (k.pc == Want(Insert) || k.pc == In(Insert)) then 1 else 0
  }

  function Owing(id: Id): Caller -> nat {
    (k: Caller) => Owes(k, id)
  }

  /** Every change has its event or a call that is about to store it, and who is about to write changes the row. */
  ghost predicate Matched(s0: State, s: State, id: Id) {
    && id in s0.rows && id in s.rows
    && (!Wanted(s0, id, s0.rows[id]) ==> RowOf(s, id) == RowOf(s0, id))
    && (forall c :: 0 <= c < |s.callers| && AtSave(s.callers[c], id) ==> RowOf(s, id) != Some(s.callers[c].job.want))
    && Updates(s.events, id) + Total(Owing(id), s.callers) == Updates(s0.events, id) + s.history.changes[id]
  }

  predicate OwesNext(k: Caller, k': Caller, row: Option<Species>, id: Id) {
    && On(k', id) && k'.job == k.job
    && (AtSave(k', id) ==> k.pc == Want(Save) || (k.pc == In(Get) && row.Some? && row != Some(k.job.want)))
    && Owes(k', id) == if k.pc == In(Save) then 1 else if k.pc == In(Insert) then 0 else Owes(k, id)
  }

  lemma StatementOwes(k: Caller, op: Op, row: Option<Species>, id: Id)
    requires On(k, id) && k.pc == In(op) && Faultless(k.faults)
    ensures OwesNext(k, AfterPatchOp(k, op, row), row, id)
  {
  }

  /** At most about to read the row. */
  predicate BeforeGet(k: Caller, k': Caller) {
    k'.job == k.job && !k'.pc.In? && (k'.pc.Want? ==> k'.pc.op == Get)
  }

  lemma BeginOwes(cfg: Config, s: State, c: nat)
    requires c < |s.callers| && s.callers[c].job.Patch? && Next(cfg, s, c).Some?
    requires var pc := s.callers[c].pc; pc.Idle? || pc.OpenLock?
    ensures BeforeGet(s.callers[c], Next(cfg, s, c).value.callers[c])
  {
  }

  lemma LockOwes(cfg: Config, s: State, c: nat)
    requires c < |s.callers| && s.callers[c].job.Patch? && Next(cfg, s, c).Some?
    requires var pc := s.callers[c].pc; pc.AwaitLock? || pc.Register?
    ensures BeforeGet(s.callers[c], Next(cfg, s, c).value.callers[c])
  {
  }

  lemma EndOwes(cfg: Config, s: State, c: nat)
    requires c < |s.callers| && s.callers[c].job.Patch? && Next(cfg, s, c).Some?
    requires var pc := s.callers[c].pc; pc.Unlock? || pc.Forget? || pc.Resolve?
    ensures BeforeGet(s.callers[c], Next(cfg, s, c).value.callers[c])
  {
  }

  lemma InOwes(cfg: Config, s: State, c: nat)
    requires c < |s.callers| && s.callers[c].job.Patch? && s.callers[c].pc.In?
    ensures var k := s.callers[c];
            Next(cfg, s, c).Some? && Next(cfg, s, c).value.callers[c] == AfterPatchOp(k, k.pc.op, RowOf(s, k.job.id))
  {
  }

  lemma WantOwes(cfg: Config, s: State, c: nat)
    requires c < |s.callers| && s.callers[c].pc.Want? && Next(cfg, s, c).Some?
    ensures Next(cfg, s, c).value.callers[c] == s.callers[c].(pc := In(s.callers[c].pc.op))
  {
  }

  /** How a step of a call on the dinosaur changes what it is about to do. */
  lemma StepOwes(cfg: Config, s: State, k': Caller, c: nat, id: Id)
    requires c < |s.callers| && Coherent(s.callers[c])
    requires Next(cfg, s, c).Some? && k' == Next(cfg, s, c).value.callers[c]
    requires On(s.callers[c], id) && Faultless(s.callers[c].faults)
    ensures OwesNext(s.callers[c], k', RowOf(s, id), id)
  {
    var k := s.callers[c];
    match k.pc
    case In(op) => InOwes(cfg, s, c); StatementOwes(k, op, RowOf(s, id), id);
    case Want(op) => WantOwes(cfg, s, c);
    case Idle => BeginOwes(cfg, s, c);
    case OpenLock => BeginOwes(cfg, s, c);
    case AwaitLock => LockOwes(cfg, s, c);
    case Register => LockOwes(cfg, s, c);
    case Unlock => EndOwes(cfg, s, c);
    case Forget => EndOwes(cfg, s, c);
    case Resolve => EndOwes(cfg, s, c);
    case _ =>
  }

  /** Two calls that are about to write the same species are a race, or are both locked and are one call. */
  lemma WriterIsAlone(cfg: Config, s0: State, s: State, id: Id, c: nat, d: nat)
    requires Inv(cfg, s) && MutualExclusion.SameJobs(s0, s) && !Racy(s0, id) && Matched(s0, s, id)
    requires id in s0.rows && c < |s.callers| && d < |s.callers| && c != d
    requires AtSave(s.callers[c], id) && AtSave(s.callers[d], id)
    ensures s.callers[c].job.want != s.callers[d].job.want
  {
    InvLocal(cfg, s, c);
    InvLocal(cfg, s, d);
    assert !Racing(s0, id, c, d) && !Racing(s0, id, d, c);
  }

  lemma StepMatched(cfg: Config, s0: State, s: State, c: nat, id: Id)
    requires Inv(cfg, s) && MutualExclusion.SameJobs(s0, s) && !Racy(s0, id) && Matched(s0, s, id)
    requires id in s0.rows && FaultFree(s0, id) && c < |s.callers| && Next(cfg, s, c).Some?
    ensures Matched(s0, Next(cfg, s, c).value, id)
  {
    InvLocal(cfg, s, c);
    StepEffect(cfg, s, c);
    StepShows(cfg, s, c, id);
    var t := Next(cfg, s, c).value;
    TotalUpdate(Owing(id), s.callers, c, t.callers[c]);
    if On(s.callers[c], id) {
      StepOwes(cfg, s, t.callers[c], c, id);
      if s.callers[c].pc == In(Save) { SaveMatched(cfg, s0, s, t, c, id); } else { OtherMatched(s0, s, t, c, id); }
    } else {
      OtherMatched(s0, s, t, c, id);
    }
  }

  lemma SaveMatched(cfg: Config, s0: State, s: State, t: State, c: nat, id: Id)
    requires Inv(cfg, s) && MutualExclusion.SameJobs(s0, s) && !Racy(s0, id) && Matched(s0, s, id)
    requires id in s0.rows && c < |s.callers| && s.callers[c].pc == In(Save) && On(s.callers[c], id)
    requires Faultless(s.callers[c].faults)
    requires |t.callers| == |s.callers| && t.callers == s.callers[c := t.callers[c]]
    requires ViewOf(t, id) == StatementView(ViewOf(s, id), s.callers[c], Save)
    requires !AtSave(t.callers[c], id) && Owes(t.callers[c], id) == 1
    requires Total(Owing(id), t.callers) == Total(Owing(id), s.callers) - Owes(s.callers[c], id) + Owes(t.callers[c], id)
    ensures Matched(s0, t, id)
  {
    forall d | 0 <= d < |t.callers| && AtSave(t.callers[d], id) ensures RowOf(t, id) != Some(t.callers[d].job.want) {
      WriterIsAlone(cfg, s0, s, id, c, d);
    }
    assert RowOf(t, id) == Some(s.callers[c].job.want);
    if !Wanted(s0, id, s0.rows[id]) { assert On(s0.callers[c], id); }
  }

  /** A step that does not write the row. */
  lemma OtherMatched(s0: State, s: State, t: State, c: nat, id: Id)
    requires Matched(s0, s, id) && id in s0.rows && c < |s.callers|
    requires |t.callers| == |s.callers| && t.callers == s.callers[c := t.callers[c]]
    requires RowOf(t, id) == RowOf(s, id) && t.history.changes[id] == s.history.changes[id]
    requires AtSave(t.callers[c], id) ==> AtSave(s.callers[c], id) || RowOf(s, id) != Some(t.callers[c].job.want)
    requires t.callers[c].job == s.callers[c].job
    requires Updates(t.events, id) + Total(Owing(id), t.callers) == Updates(s.events, id) + Total(Owing(id), s.callers)
    ensures Matched(s0, t, id)
  {
  }

  lemma {:induction false} NobodyOwes(callers: seq<Caller>, id: Id)
    requires forall c :: 0 <= c < |callers| ==> Owes(callers[c], id) == 0
    ensures Total(Owing(id), callers) == 0
  {
    if callers != [] { NobodyOwes(callers[..|callers| - 1], id); }
  }

  lemma {:induction false} RunMatched(cfg: Config, s: State, schedule: seq<nat>, id: Id)
    requires Init(s) && Run(cfg, s, schedule).Some? && FaultFree(s, id) && id in s.rows && !Racy(s, id)
    ensures Matched(s, Run(cfg, s, schedule).value, id)
  {
    if schedule == [] {
      NobodyOwes(s.callers, id);
    } else {
      var n := |schedule| - 1;
      RunMatched(cfg, s, schedule[..n], id);
      MutualExclusion.RunInv(cfg, s, schedule[..n]);
      StepMatched(cfg, s, Run(cfg, s, schedule[..n]).value, schedule[n], id);
    }
  }

  /** Every real change has had its one event. */
  predicate EventsMatch(s: State, t: State, id: Id) {
    Updates(t.events, id) - Updates(s.events, id) == t.history.changes[id]
  }

  lemma WithoutRaceEventsMatch(cfg: Config, s: State, schedule: seq<nat>, id: Id)
    requires Init(s) && Run(cfg, s, schedule).Some? && FaultFree(s, id) && id in s.rows && !Racy(s, id)
    requires AllSettled(Run(cfg, s, schedule).value, id)
    ensures EventsMatch(s, Run(cfg, s, schedule).value, id)
  {
    RunMatched(cfg, s, schedule, id);
    MutualExclusion.RunInv(cfg, s, schedule);
    var t := Run(cfg, s, schedule).value;
    forall c | 0 <= c < |t.callers| ensures Owes(t.callers[c], id) == 0 {
      SettledOwesNothing(t, c, id);
    }
    NobodyOwes(t.callers, id);
  }

  lemma SettledOwesNothing(s: State, c: nat, id: Id)
    requires AllSettled(s, id) && c < |s.callers| && Coherent(s.callers[c])
    ensures Owes(s.callers[c], id) == 0
  {
  }
}
