/** What the answer of a PATCH request tells, in every run: what was found, and what was acknowledged. */
module Answers {
  import opened Wrappers
  import opened Domain
  import opened Replacing
  import opened Protocol
  import opened ProtocolInvariants
  import opened MutualExclusion
  import opened Serialization

  /** The n-th step of the run finishes the caller's read of its dinosaur. */
  predicate ReadsAt(cfg: Config, s: State, schedule: seq<nat>, c: nat, n: nat) {
    && n < |schedule| && schedule[n] == c
    && var before := Run(cfg, s, schedule[..n]);
       before.Some? && c < |before.value.callers| && before.value.callers[c].pc == In(Get)
  }

  /** The row that is found there. */
  function FoundAt(cfg: Config, s: State, schedule: seq<nat>, c: nat, id: Id, n: nat): Option<Species>
    requires ReadsAt(cfg, s, schedule, c, n)
  {
    RowOf(Run(cfg, s, schedule[..n]).value, id)
  }

  /** The errors that mark the outer transaction. */
  predicate MarkFits(k: Caller) {
    k.marked <==> k.reply.UpdateError? || (k.reply.EventError? && k.faults.dao.insert != Ok)
  }

  predicate LockWent(k: Caller)
    requires k.job.Patch?
  {
    k.job.mode != Unlocked ==> k.faults.beginOk && k.faults.lockOk
  }

  predicate OuterWent(k: Caller) {
    k.faults.outerOk && k.faults.txidOk
  }

  /** The request has not read its row yet. */
  predicate NotRead(k: Caller)
    requires k.job.Patch?
  {
    && k.reply.NoReply? && !k.marked
    && match k.pc
       case Idle => true
       case OpenLock => k.job.mode != Unlocked && OuterWent(k)
       case AwaitLock => k.job.mode != Unlocked && OuterWent(k) && k.faults.beginOk
       case Register => OuterWent(k) && LockWent(k)
       case Want(op) => op == Get && OuterWent(k) && LockWent(k)
       case In(op) => op == Get && OuterWent(k) && LockWent(k)
       case _ => false
  }

  /** The request was answered without reading. */
  predicate TurnedAway(k: Caller)
    requires k.job.Patch?
  {
    && Answered(k) && !k.marked
    && if !OuterWent(k) then k.reply.NoTransaction?
       else if !LockWent(k) then k.reply.LockError?
       else k.reply.RowLocked? && k.job.mode == NonBlocking && k.lock.Declined?
  }

  /** The request found this row, and wrote or answered accordingly. */
  predicate HasRead(k: Caller, found: Option<Species>)
    requires k.job.Patch?
  {
    var dao := k.faults.dao;
    && OuterWent(k) && LockWent(k)
    && match k.pc
       case Want(op) => Writing(k, op, found)
       case In(op) => Writing(k, op, found)
       case _ =>
         Answered(k) && AnswerFits(found, k.job.want, dao, k.reply) && SuccessFits(found, k.job.want, dao, k.reply)
         && MarkFits(k)
  }

  predicate Writing(k: Caller, op: Op, found: Option<Species>)
    requires k.job.Patch?
  {
    var dao := k.faults.dao;
    && k.reply.NoReply? && !k.marked && Writes(found, k.job.want, dao)
    && match op
       case Save => true
       case Insert => dao.save == Ok
       case Notify => dao.save == Ok && dao.insert == Ok
       case _ => false
  }

  // ---------- one step ----------

  lemma BeginRead(cfg: Config, s: State, c: nat)
    requires c < |s.callers| && s.callers[c].job.Patch? && s.callers[c].pc.Idle? && BeginOuter(cfg, s, c).Some?
    requires NotRead(s.callers[c])
    ensures var k' := BeginOuter(cfg, s, c).value.callers[c]; k'.job.Patch? && (NotRead(k') || TurnedAway(k'))
  {
  }

  lemma OpenRead(cfg: Config, s: State, c: nat)
    requires c < |s.callers| && s.callers[c].job.Patch? && s.callers[c].pc.OpenLock? && BeginLock(cfg, s, c).Some?
    requires NotRead(s.callers[c])
    ensures var k' := BeginLock(cfg, s, c).value.callers[c]; k'.job.Patch? && (NotRead(k') || TurnedAway(k'))
  {
  }

  lemma LockRead(cfg: Config, s: State, c: nat)
    requires c < |s.callers| && s.callers[c].job.Patch? && s.callers[c].pc.AwaitLock? && Lock(cfg, s, c).Some?
    requires NotRead(s.callers[c])
    ensures var k' := Lock(cfg, s, c).value.callers[c]; k'.job.Patch? && (NotRead(k') || TurnedAway(k'))
  {
  }

  lemma RegisterRead(s: State, c: nat)
    requires c < |s.callers| && s.callers[c].job.Patch? && s.callers[c].pc.Register? && Coherent(s.callers[c])
    requires NotRead(s.callers[c])
    ensures var k' := RegisterLock(s, c).callers[c]; k'.job.Patch? && (NotRead(k') || TurnedAway(k'))
  {
  }

  lemma WantSteps(cfg: Config, s: State, t: State, c: nat)
    requires c < |s.callers| && s.callers[c].pc.Want? && Next(cfg, s, c) == Some(t)
    ensures |t.callers| == |s.callers| && t.callers[c] == s.callers[c].(pc := In(s.callers[c].pc.op))
  {
  }

  lemma NotReadSteps(cfg: Config, s: State, t: State, c: nat)
    requires c < |s.callers| && s.callers[c].job.Patch? && Coherent(s.callers[c]) && Next(cfg, s, c) == Some(t)
    requires NotRead(s.callers[c]) && !s.callers[c].pc.In?
    ensures c < |t.callers| && t.callers[c].job.Patch? && (NotRead(t.callers[c]) || TurnedAway(t.callers[c]))
  {
    match s.callers[c].pc
    case Idle => BeginRead(cfg, s, c);
    case OpenLock => OpenRead(cfg, s, c);
    case AwaitLock => LockRead(cfg, s, c);
    case Register => RegisterRead(s, c);
    case Want(_) => WantSteps(cfg, s, t, c);
  }

  /** What Replace does with the answer of its read. */
  lemma GetRead(k: Caller, row: Option<Species>)
    requires k.job.Patch? && NotRead(k) && k.pc == In(Get)
    ensures var k' := AfterPatchOp(k, Get, row); k'.job.Patch? && HasRead(k', row)
  {
  }

  /** The row that a later statement finds does not matter. */
  lemma WriteRead(k: Caller, op: Op, row: Option<Species>, found: Option<Species>)
    requires k.job.Patch? && HasRead(k, found) && k.pc == In(op)
    ensures var k' := AfterPatchOp(k, op, row); k'.job == k.job && HasRead(k', found)
  {
  }

  /** An answered request keeps its answer. */
  predicate Keeps(k: Caller, k': Caller) {
    && (k'.job, k'.faults, k'.reply, k'.marked) == (k.job, k.faults, k.reply, k.marked)
    && Answered(k') && (k.lock.Declined? ==> k'.lock.Declined?)
  }

  lemma CommitKeeps(s: State, c: nat)
    requires c < |s.callers| && s.callers[c].job.Patch? && Local(s, c) && s.callers[c].pc.Unlock?
    ensures Keeps(s.callers[c], CommitLock(s, c).callers[c])
  {
  }

  lemma ForgetKeeps(s: State, c: nat)
    requires c < |s.callers| && s.callers[c].job.Patch? && Local(s, c) && s.callers[c].pc.Forget?
    ensures Keeps(s.callers[c], ForgetLock(s, c).callers[c])
  {
  }

  lemma EndKeeps(s: State, c: nat)
    requires c < |s.callers| && s.callers[c].pc.Resolve?
    ensures Keeps(s.callers[c], EndOuter(s, c).callers[c])
  {
  }

  lemma AnsweredSteps(cfg: Config, s: State, t: State, c: nat)
    requires c < |s.callers| && s.callers[c].job.Patch? && Local(s, c) && Next(cfg, s, c) == Some(t)
    requires Answered(s.callers[c])
    ensures c < |t.callers| && Keeps(s.callers[c], t.callers[c])
  {
    match s.callers[c].pc
    case Unlock => CommitKeeps(s, c);
    case Forget => ForgetKeeps(s, c);
    case Resolve => EndKeeps(s, c);
    case _ =>
  }

  lemma StatementSteps(cfg: Config, s: State, t: State, c: nat)
    requires c < |s.callers| && s.callers[c].job.Patch? && s.callers[c].pc.In? && Next(cfg, s, c) == Some(t)
    ensures |t.callers| == |s.callers|
    ensures var k := s.callers[c]; t.callers[c] == AfterPatchOp(k, k.pc.op, RowOf(s, k.job.id))
  {
  }

  lemma AnsweredRead(k: Caller, k': Caller, found: Option<Species>)
    requires k.job.Patch? && Answered(k) && Keeps(k, k') && HasRead(k, found)
    ensures HasRead(k', found)
  {
  }

  lemma WantRead(k: Caller, found: Option<Species>)
    requires k.job.Patch? && k.pc.Want? && HasRead(k, found)
    ensures HasRead(k.(pc := In(k.pc.op)), found)
  {
  }

  lemma HasReadSteps(cfg: Config, s: State, t: State, c: nat, found: Option<Species>)
    requires c < |s.callers| && s.callers[c].job.Patch? && Local(s, c) && Next(cfg, s, c) == Some(t)
    requires HasRead(s.callers[c], found)
    ensures c < |t.callers| && t.callers[c].job == s.callers[c].job && HasRead(t.callers[c], found)
  {
    var k := s.callers[c];
    if k.pc.In? {
      StatementSteps(cfg, s, t, c);
      WriteRead(k, k.pc.op, RowOf(s, k.job.id), found);
    } else if Answered(k) {
      AnsweredSteps(cfg, s, t, c);
      AnsweredRead(k, t.callers[c], found);
    } else {
      WantSteps(cfg, s, t, c);
      WantRead(k, found);
    }
  }

  // ---------- every run ----------

  ghost predicate SomeRead(cfg: Config, s: State, schedule: seq<nat>, c: nat, k: Caller)
    requires k.job.Patch?
  {
    exists n: nat :: ReadsAt(cfg, s, schedule, c, n) && HasRead(k, FoundAt(cfg, s, schedule, c, k.job.id, n))
  }

  ghost predicate Placed(cfg: Config, s: State, schedule: seq<nat>, c: nat, k: Caller)
    requires k.job.Patch?
  {
    NotRead(k) || TurnedAway(k) || SomeRead(cfg, s, schedule, c, k)
  }

  /** Reads of a shorter run are reads of the longer one. */
  lemma ReadStays(cfg: Config, s: State, schedule: seq<nat>, d: nat, c: nat, id: Id, n: nat)
    requires ReadsAt(cfg, s, schedule, c, n)
    ensures ReadsAt(cfg, s, schedule + [d], c, n)
    ensures FoundAt(cfg, s, schedule + [d], c, id, n) == FoundAt(cfg, s, schedule, c, id, n)
  {
    assert (schedule + [d])[..n] == schedule[..n];
  }

  /** The step that finishes the read. */
  lemma ReadsNow(cfg: Config, s: State, schedule: seq<nat>, before: State, c: nat)
    requires Run(cfg, s, schedule) == Some(before) && c < |before.callers|
    requires before.callers[c].job.Patch? && NotRead(before.callers[c]) && before.callers[c].pc.In?
    ensures var k' := AfterPatchOp(before.callers[c], Get, RowOf(before, before.callers[c].job.id));
            k'.job.Patch? && SomeRead(cfg, s, schedule + [c], c, k')
  {
    var k := before.callers[c];
    GetRead(k, RowOf(before, k.job.id));
    var all, n := schedule + [c], |schedule|;
    assert all[..n] == schedule;
    assert ReadsAt(cfg, s, all, c, n);
    assert FoundAt(cfg, s, all, c, k.job.id, n) == RowOf(before, k.job.id);
    assert AfterPatchOp(k, Get, RowOf(before, k.job.id)).job.id == k.job.id;
  }

  lemma OwnPlaced(cfg: Config, s: State, schedule: seq<nat>, before: State, t: State, c: nat)
    requires Run(cfg, s, schedule) == Some(before) && c < |before.callers| && Next(cfg, before, c) == Some(t)
    requires before.callers[c].job.Patch? && Local(before, c)
    requires Placed(cfg, s, schedule, c, before.callers[c])
    ensures c < |t.callers| && t.callers[c].job.Patch? && Placed(cfg, s, schedule + [c], c, t.callers[c])
  {
    var k := before.callers[c];
    if NotRead(k) && k.pc.In? {
      StatementSteps(cfg, before, t, c);
      ReadsNow(cfg, s, schedule, before, c);
    } else if NotRead(k) {
      NotReadSteps(cfg, before, t, c);
    } else if TurnedAway(k) {
      AnsweredSteps(cfg, before, t, c);
    } else {
      ReadGoesOn(cfg, s, schedule, before, t, c);
    }
  }

  lemma ReadGoesOn(cfg: Config, s: State, schedule: seq<nat>, before: State, t: State, c: nat)
    requires c < |before.callers| && Next(cfg, before, c) == Some(t)
    requires before.callers[c].job.Patch? && Local(before, c)
    requires SomeRead(cfg, s, schedule, c, before.callers[c])
    ensures c < |t.callers| && t.callers[c].job.Patch? && SomeRead(cfg, s, schedule + [c], c, t.callers[c])
  {
    var k := before.callers[c];
    var n: nat :| ReadsAt(cfg, s, schedule, c, n) && HasRead(k, FoundAt(cfg, s, schedule, c, k.job.id, n));
    HasReadSteps(cfg, before, t, c, FoundAt(cfg, s, schedule, c, k.job.id, n));
    ReadStays(cfg, s, schedule, c, c, k.job.id, n);
  }

  lemma {:induction false} RunPlaced(cfg: Config, s: State, schedule: seq<nat>, c: nat)
    requires Init(s) && Run(cfg, s, schedule).Some?
    requires c < |Run(cfg, s, schedule).value.callers| && Run(cfg, s, schedule).value.callers[c].job.Patch?
    ensures Placed(cfg, s, schedule, c, Run(cfg, s, schedule).value.callers[c])
  {
    if schedule != [] {
      var n := |schedule| - 1;
      var rest, d := schedule[..n], schedule[n];
      RunInv(cfg, s, rest);
      RunInv(cfg, s, schedule);
      RunPlaced(cfg, s, rest, c);
      assert schedule == rest + [d];
      var before, t := Run(cfg, s, rest).value, Run(cfg, s, schedule).value;
      InvLocal(cfg, before, d);
      StepEffect(cfg, before, d);
      if c == d { OwnPlaced(cfg, s, rest, before, t, c); } else { OtherPlaced(cfg, s, rest, d, c, before.callers[c]); }
    }
  }

  lemma OtherPlaced(cfg: Config, s: State, schedule: seq<nat>, d: nat, c: nat, k: Caller)
    requires k.job.Patch? && Placed(cfg, s, schedule, c, k)
    ensures Placed(cfg, s, schedule + [d], c, k)
  {
    if !NotRead(k) && !TurnedAway(k) {
      var n: nat :| ReadsAt(cfg, s, schedule, c, n) && HasRead(k, FoundAt(cfg, s, schedule, c, k.job.id, n));
      ReadStays(cfg, s, schedule, d, c, k.job.id, n);
    }
  }

  /** The request ends before it reads, or it has read this row. */
  ghost predicate AnswerIsEarned(cfg: Config, s: State, schedule: seq<nat>, c: nat, k: Caller)
    requires k.job.Patch?
  {
    if !OuterWent(k) then k.reply.NoTransaction?
    else if !LockWent(k) then k.reply.LockError?
    else if k.lock.Declined? then k.reply.RowLocked?
    else exists n: nat :: ReadsAt(cfg, s, schedule, c, n)
           && AnswerFits(FoundAt(cfg, s, schedule, c, k.job.id, n), k.job.want, k.faults.dao, k.reply)
           && SuccessFits(FoundAt(cfg, s, schedule, c, k.job.id, n), k.job.want, k.faults.dao, k.reply)
  }

  /**
   * In every run, with or without locks: a request whose transaction or lock statement failed, or that was
   * refused the lock, is answered so; any other answer is the one for the row that its read found and the
   * statements that were acknowledged, so it is a success exactly if the read succeeded, the row was there,
   * and it had the wanted species or every later statement was acknowledged. The outer transaction is
   * marked exactly for a write that was not acknowledged.
   */
  lemma {:induction false} AnswersAreEarned(cfg: Config, s: State, schedule: seq<nat>, c: nat)
    requires Init(s) && Run(cfg, s, schedule).Some? && c < |Run(cfg, s, schedule).value.callers|
    requires var k := Run(cfg, s, schedule).value.callers[c]; k.job.Patch? && Answered(k)
    ensures AnswerIsEarned(cfg, s, schedule, c, Run(cfg, s, schedule).value.callers[c])
    ensures MarkFits(Run(cfg, s, schedule).value.callers[c])
  {
    RunPlaced(cfg, s, schedule, c);
    RunInv(cfg, s, schedule);
    var k := Run(cfg, s, schedule).value.callers[c];
    assert Coherent(k);
    if !TurnedAway(k) {
      var n: nat :| ReadsAt(cfg, s, schedule, c, n) && HasRead(k, FoundAt(cfg, s, schedule, c, k.job.id, n));
      assert AnswerFits(FoundAt(cfg, s, schedule, c, k.job.id, n), k.job.want, k.faults.dao, k.reply);
    }
  }

  /**
   * Among locked updates the row keeps the wanted species from a success on, until the next caller is
   * granted the lock.
   */
  lemma SuccessIsShown(cfg: Config, s: State, schedule: seq<nat>, id: Id)
    requires Init(s) && Run(cfg, s, schedule).Some? && Locked(s, id)
    ensures var t := Run(cfg, s, schedule).value;
            var order := Order(t.history, id);
            order != [] ==>
              var c := order[|order| - 1];
              c < |t.callers| && On(t.callers[c], id)
              && (Answered(t.callers[c]) && Success(t.callers[c].reply) ==> RowOf(t, id) == Some(t.callers[c].job.want))
  {
    RunSerial(cfg, s, schedule, id);
    var t := Run(cfg, s, schedule).value;
    var order := Order(t.history, id);
    if order != [] {
      var n := |order| - 1;
      var k := t.callers[order[n]];
      ReplaceAnswers(Before(ViewOf(s, id), t.callers, order, n), k.job.want, k.faults.dao);
    }
  }
}
