/** What every reachable state of the protocol satisfies, and mutual exclusion as a consequence. */
module ProtocolInvariants {
  import opened Wrappers
  import opened Domain
  import opened LockTable
  import opened Replacing
  import opened Protocol

  /** The sum of a weight over all callers. */
  function Total(weight: Caller -> nat, callers: seq<Caller>): nat {
    if callers == [] then 0
    else Total(weight, callers[..|callers| - 1]) + weight(callers[|callers| - 1])
  }

  lemma {:induction false} TotalUpdate(weight: Caller -> nat, callers: seq<Caller>, c: nat, k: Caller)
    requires c < |callers|
    ensures Total(weight, callers[c := k]) == Total(weight, callers) - weight(callers[c]) + weight(k)
  {
    var n := |callers| - 1;
    if c == n {
      assert callers[c := k][..n] == callers[..n];
    } else {
      TotalUpdate(weight, callers[..n], c, k);
      assert callers[c := k][..n] == callers[..n][c := k];
    }
  }

  /** Weights that are pointwise no larger have no larger sum. */
  lemma {:induction false} TotalAtMost(w1: Caller -> nat, w2: Caller -> nat, callers: seq<Caller>)
    requires forall c :: 0 <= c < |callers| ==> w1(callers[c]) <= w2(callers[c])
    ensures Total(w1, callers) <= Total(w2, callers)
  {
    if callers != [] { TotalAtMost(w1, w2, callers[..|callers| - 1]); }
  }

  /** The phases a caller can be in at each of its program points. */
  predicate Coherent(k: Caller) {
    && (match k.pc
        case Idle => Fresh(k)
        case OpenLock => k.lock == NoLock
        case AwaitLock => k.lock == Begun
        case Register => k.lock == Granted || k.lock == Refused
        case Want(op) => InCall(k) && OpFits(k, op)
        case In(op) => InCall(k) && OpFits(k, op)
        case Acting(i, _) => k.lock == Owner && k.job.Reconcile? && i < |k.plan|
        case Unlock => k.lock == Owner || (k.job.Reconcile? && (k.lock.NoLock? || k.lock.Orphan? || k.lock.Declined?))
        case Forget => k.lock == Ended
        case Resolve => k.job.Patch? && (k.lock.NoLock? || k.lock.Orphan? || k.lock.Declined? || k.lock.Closed?)
        case Done => (k.lock.NoLock? || k.lock.Orphan? || k.lock.Declined? || k.lock.Closed?))
    && ((k.lock.Refused? || k.lock.Declined?) && k.job.Patch? ==> k.job.mode == NonBlocking)
    && (k.lock == Declined && k.pc == Done ==> k.job.Patch?)
    && (k.job.Patch? ==> (k.reply == RowLocked <==> k.lock == Declined))
    && (k.job.Patch? && k.job.mode == Unlocked ==>
          k.lock == NoLock && !k.pc.OpenLock? && !k.pc.AwaitLock? && !k.pc.Register? && !k.pc.Unlock? && !k.pc.Forget?)
    && OuterFits(k)
  }

  predicate InCall(k: Caller) {
    k.lock == if k.job.Patch? && k.job.mode == Unlocked then NoLock else Owner
  }

  predicate OpFits(k: Caller, op: Op) {
    match op
    case Get => true
    case Save => true
    case Insert => k.job.Patch?
    case Notify => k.job.Patch?
    case Probe(i) => k.job.Reconcile? && i < |k.plan|
  }

  predicate OuterFits(k: Caller) {
    if k.job.Reconcile? || k.pc == Idle then k.outer == NotBegun
    else if !k.faults.outerOk then k.pc == Done && k.outer == NotBegun && k.reply == NoTransaction
    else if !k.faults.txidOk then k.pc == Done && k.outer == Stranded && k.reply == NoTransaction
    else if k.pc != Done then k.outer == Open && k.reply != NoTransaction
    else k.outer == (if k.marked then RolledBack else Committed) && k.reply != NoTransaction
  }

  ghost predicate AllCoherent(s: State) {
    forall c :: 0 <= c < |s.callers| ==> Coherent(s.callers[c])
  }

  /** The lock table holds exactly the keys of the callers that have a lock. */
  ghost predicate LocksAgree(cfg: Config, s: State) {
    HoldersAreListed(cfg, s) && ListedAreHolders(cfg, s)
  }

  ghost predicate HoldersAreListed(cfg: Config, s: State) {
    forall c :: 0 <= c < |s.callers| && HasLock(s.callers[c]) ==>
      KeyOf(cfg, s.callers[c].job) in s.locks && s.locks[KeyOf(cfg, s.callers[c].job)] == c
  }

  ghost predicate ListedAreHolders(cfg: Config, s: State) {
    forall key :: key in s.locks ==>
      && s.locks[key] < |s.callers| && HasLock(s.callers[s.locks[key]])
      && KeyOf(cfg, s.callers[s.locks[key]].job) == key
  }

  ghost predicate TxsAgree(s: State) {
    forall c: nat :: c in s.txs <==> c < |s.callers| && OpenTx(s.callers[c])
  }

  ghost predicate RegistryAgrees(s: State) {
    forall f: nat, u: nat :: (f, u) in s.registry <==>
      u < |s.callers| && s.callers[u].factory == f && Registered(s.callers[u])
  }

  /** What the caller keeps of the process's pool. */
  function Keeps(process: nat, k: Caller): nat {
    if k.factory == process then Conns(k) else 0
  }

  function Keeping(process: nat): Caller -> nat {
    (k: Caller) => Keeps(process, k)
  }

  ghost predicate PoolsAgree(s: State) {
    forall f: nat :: Used(s.conns, f) == Total(Keeping(f), s.callers)
  }

  ghost predicate Inv(cfg: Config, s: State) {
    && AllCoherent(s)
    && LocksAgree(cfg, s)
    && TxsAgree(s)
    && RegistryAgrees(s)
    && PoolsAgree(s)
  }

  lemma {:induction false} FreshUsesNothing(f: nat, callers: seq<Caller>)
    requires forall c :: 0 <= c < |callers| ==> Fresh(callers[c])
    ensures Total(Keeping(f), callers) == 0
  {
    if callers != [] { FreshUsesNothing(f, callers[..|callers| - 1]); }
  }

  lemma InitInv(cfg: Config, s: State)
    requires Init(s)
    ensures Inv(cfg, s)
  {
    forall f: nat ensures Total(Keeping(f), s.callers) == 0 {
      FreshUsesNothing(f, s.callers);
    }
  }

  /** The pool of the caller's process follows what the caller keeps, and no other pool changes. */
  ghost predicate PoolFollows(s: State, t: State, k: Caller, k': Caller) {
    forall f: nat :: Used(t.conns, f) == Used(s.conns, f) + Keeps(f, k') - Keeps(f, k)
  }

  /**
   * What a step of caller c may do to everything but the tables: each of the lock table, the open
   * transactions, the registry and the pool changes exactly as c's own phase does.
   */
  ghost predicate Effect(cfg: Config, s: State, t: State, c: nat)
    requires c < |s.callers|
  {
    && |t.callers| == |s.callers|
    && var k, k' := s.callers[c], t.callers[c];
    && t.callers == s.callers[c := k']
    && (k'.job, k'.factory, k'.faults) == (k.job, k.factory, k.faults)
    && Coherent(k')
    && PoolFollows(s, t, k, k')
    && t.txs == (if OpenTx(k') then s.txs + {c} else s.txs - {c})
    && t.registry == (if Registered(k') then s.registry + {(k.factory, c)} else s.registry - {(k.factory, c)})
    && (if HasLock(k') then
          if HasLock(k) then t.locks == s.locks
          else KeyOf(cfg, k.job) !in s.locks && t.locks == Grant(s.locks, KeyOf(cfg, k.job), c)
        else t.locks == Release(s.locks, c))
  }

  /** The part of Inv that is about caller c alone. */
  predicate Local(s: State, c: nat)
    requires c < |s.callers|
  {
    var k := s.callers[c];
    && Coherent(k)
    && (c in s.txs <==> OpenTx(k))
    && ((k.factory, c) in s.registry <==> Registered(k))
    && (!HasLock(k) ==> Release(s.locks, c) == s.locks)
  }

  lemma InvLocal(cfg: Config, s: State, c: nat)
    requires Inv(cfg, s) && c < |s.callers|
    ensures Local(s, c)
  {
  }

  lemma NoOuterEffect(cfg: Config, s: State, c: nat)
    requires c < |s.callers| && Local(s, c)
    requires s.callers[c].pc.Idle? && s.callers[c].job.Patch? && !s.callers[c].faults.outerOk
    ensures Effect(cfg, s, BeginOuter(cfg, s, c).value, c)
  {
  }

  lemma OuterBeginsEffect(cfg: Config, s: State, c: nat)
    requires c < |s.callers| && Local(s, c)
    requires s.callers[c].pc.Idle? && s.callers[c].job.Patch? && s.callers[c].faults.outerOk
    requires Free(cfg, s, s.callers[c].factory)
    ensures Effect(cfg, s, BeginOuter(cfg, s, c).value, c)
  {
  }

  lemma WorkerStartsEffect(cfg: Config, s: State, c: nat)
    requires c < |s.callers| && Local(s, c) && s.callers[c].pc.Idle? && s.callers[c].job.Reconcile?
    ensures Effect(cfg, s, With(s, c, s.callers[c].(pc := OpenLock)), c)
  {
  }

  lemma EndOuterEffect(cfg: Config, s: State, c: nat)
    requires c < |s.callers| && Local(s, c)
    requires s.callers[c].pc.Resolve?
    ensures Effect(cfg, s, EndOuter(s, c), c)
  {
  }

  lemma LockBeginsEffect(cfg: Config, s: State, c: nat)
    requires c < |s.callers| && Local(s, c) && Free(cfg, s, s.callers[c].factory)
    requires s.callers[c].pc.OpenLock? && s.callers[c].faults.beginOk
    ensures Effect(cfg, s, BeginLock(cfg, s, c).value, c)
  {
  }

  lemma LockFailsEffect(cfg: Config, s: State, c: nat)
    requires c < |s.callers| && Local(s, c)
    requires s.callers[c].pc.OpenLock? && !s.callers[c].faults.beginOk
    ensures Effect(cfg, s, BeginLock(cfg, s, c).value, c)
  {
  }

  lemma GrantEffect(cfg: Config, s: State, c: nat)
    requires c < |s.callers| && Local(s, c) && s.callers[c].pc.AwaitLock?
    requires s.callers[c].faults.lockOk && KeyOf(cfg, s.callers[c].job) !in s.locks
    ensures Effect(cfg, s, Lock(cfg, s, c).value, c)
  {
  }

  lemma DenyEffect(cfg: Config, s: State, c: nat)
    requires c < |s.callers| && Local(s, c) && s.callers[c].pc.AwaitLock?
    requires !s.callers[c].faults.lockOk || KeyOf(cfg, s.callers[c].job) in s.locks
    requires Lock(cfg, s, c).Some?
    ensures Effect(cfg, s, Lock(cfg, s, c).value, c)
  {
  }

  lemma RegisterEffect(cfg: Config, s: State, c: nat)
    requires c < |s.callers| && Local(s, c) && s.callers[c].pc.Register?
    ensures Effect(cfg, s, RegisterLock(s, c), c)
  {
  }

  lemma CommitLockEffect(cfg: Config, s: State, c: nat)
    requires c < |s.callers| && Local(s, c) && s.callers[c].pc.Unlock?
    ensures Effect(cfg, s, CommitLock(s, c), c)
  {
  }

  lemma ForgetLockEffect(cfg: Config, s: State, c: nat)
    requires c < |s.callers| && Local(s, c) && s.callers[c].pc.Forget?
    ensures Effect(cfg, s, ForgetLock(s, c), c)
  {
  }

  /** Statements and handlers leave locks, transactions and the registry alone. */
  ghost predicate Calm(s: State, t: State, c: nat)
    requires c < |s.callers|
  {
    && |t.callers| == |s.callers|
    && var k, k' := s.callers[c], t.callers[c];
    && t.callers == s.callers[c := k']
    && (t.txs, t.registry, t.locks) == (s.txs, s.registry, s.locks)
    && SamePerson(k, k')
    && Coherent(k')
    && PoolFollows(s, t, k, k')
  }

  lemma WantCalm(cfg: Config, s: State, c: nat)
    requires c < |s.callers| && Coherent(s.callers[c]) && Next(cfg, s, c).Some?
    requires s.callers[c].pc.Want?
    ensures Calm(s, Next(cfg, s, c).value, c)
  {
  }

  predicate SamePerson(k: Caller, k': Caller) {
    && k'.job == k.job && k'.factory == k.factory && k'.faults == k.faults
    && k'.lock == k.lock && k'.outer == k.outer
  }

  predicate KeepsCoherent(k: Caller, k': Caller) {
    Coherent(k') && SamePerson(k, k') && !k'.pc.In?
  }

  lemma ReturnCoherent(k: Caller, reply: Reply, marked: bool)
    requires k.job.Patch? && k.pc.In? && Coherent(k)
    requires reply != NoTransaction && reply != RowLocked
    ensures KeepsCoherent(k, Return(k, reply).(marked := marked))
  {
  }

  lemma GoesOnCoherent(k: Caller, op: Op)
    requires k.job.Patch? && k.pc.In? && Coherent(k) && !op.Probe?
    ensures KeepsCoherent(k, k.(pc := Want(op)))
  {
  }

  lemma PatchCoherent(k: Caller, op: Op, row: Option<Species>)
    requires k.job.Patch? && k.pc == In(op) && Coherent(k)
    ensures KeepsCoherent(k, AfterPatchOp(k, op, row))
  {
    var k' := AfterPatchOp(k, op, row);
    assert k'.pc.Want? || k' == Return(k, k'.reply).(marked := k'.marked);
    if k'.pc.Want? { GoesOnCoherent(k, k'.pc.op); } else { ReturnCoherent(k, k'.reply, k'.marked); }
  }

  lemma ReconcileCoherent(cfg: Config, k: Caller, op: Op, row: Option<Event>)
    requires k.job.Reconcile? && k.pc == In(op) && Coherent(k)
    ensures Coherent(AfterReconcileOp(cfg, k, op, row))
  {
  }

  lemma WriteCalm(s: State, c: nat, op: Op, k': Caller)
    requires c < |s.callers| && s.callers[c].job.Patch? && s.callers[c].pc.In?
    requires Coherent(k') && SamePerson(s.callers[c], k') && !k'.pc.In?
    ensures Calm(s, Write(s, c, op, k'), c)
  {
    WriteFrame(s, c, op, k');
    GivesBack(s, Write(s, c, op, k'), s.callers[c], k');
  }

  lemma WriteFrame(s: State, c: nat, op: Op, k': Caller)
    requires c < |s.callers| && s.callers[c].job.Patch?
    ensures var t := Write(s, c, op, k');
            && t.callers == s.callers[c := k'] && (t.txs, t.registry, t.locks) == (s.txs, s.registry, s.locks)
            && t.conns == GiveBack(s.conns, s.callers[c].factory)
  {
  }

  /** A statement that has finished gives its connection back. */
  lemma GivesBack(s: State, t: State, k: Caller, k': Caller)
    requires SamePerson(k, k') && k.pc.In? && !k'.pc.In? && t.conns == GiveBack(s.conns, k.factory)
    ensures PoolFollows(s, t, k, k')
  {
  }

  lemma PatchCalm(cfg: Config, s: State, c: nat)
    requires c < |s.callers| && Coherent(s.callers[c])
    requires s.callers[c].pc.In? && s.callers[c].job.Patch?
    ensures Calm(s, PatchOp(s, c, s.callers[c].pc.op), c)
  {
    var k := s.callers[c];
    PatchCoherent(k, k.pc.op, RowOf(s, k.job.id));
    WriteCalm(s, c, k.pc.op, AfterPatchOp(k, k.pc.op, RowOf(s, k.job.id)));
  }

  lemma ReconcileCalm(cfg: Config, s: State, c: nat)
    requires c < |s.callers| && Coherent(s.callers[c])
    requires s.callers[c].pc.In? && s.callers[c].job.Reconcile?
    ensures Calm(s, ReconcileOp(cfg, s, c, s.callers[c].pc.op), c)
  {
    var k := s.callers[c];
    ReconcileCoherent(cfg, k, k.pc.op, EventRow(s, k.job.event));
    ReconcileKeeps(cfg, k, k.pc.op, EventRow(s, k.job.event));
  }

  lemma ReconcileKeeps(cfg: Config, k: Caller, op: Op, row: Option<Event>)
    requires k.pc == In(op)
    ensures var k' := AfterReconcileOp(cfg, k, op, row);
            SamePerson(k, k') && !k'.pc.In? && Conns(k') == Conns(k) - 1
  {
  }

  lemma ActCalm(s: State, c: nat)
    requires c < |s.callers| && Coherent(s.callers[c])
    requires s.callers[c].pc.Acting?
    ensures Calm(s, Act(s, c, s.callers[c].pc.handler, s.callers[c].pc.sawNil), c)
  {
  }

  lemma CalmEffect(cfg: Config, s: State, t: State, c: nat)
    requires c < |s.callers| && Local(s, c) && Calm(s, t, c)
    ensures Effect(cfg, s, t, c)
  {
  }

  // ---------- steps that touch no table ----------

  /** The tables, and what the caller's session has done, are as before. */
  predicate Apart(s: State, t: State, c: nat)
    requires c < |s.callers|
  {
    && |t.callers| == |s.callers|
    && t.rows == s.rows && t.events == s.events && t.history == s.history.(order := t.history.order)
    && var k, k' := s.callers[c], t.callers[c];
       k'.plan == k.plan && k'.ran == k.ran && k'.acted == k.acted && k'.failed == k.failed
  }

  lemma BeginOuterApart(cfg: Config, s: State, c: nat)
    requires c < |s.callers| && s.callers[c].job.Patch? && BeginOuter(cfg, s, c).Some?
    ensures Apart(s, BeginOuter(cfg, s, c).value, c)
  {
  }

  lemma BeginLockApart(cfg: Config, s: State, c: nat)
    requires c < |s.callers| && s.callers[c].pc.OpenLock? && BeginLock(cfg, s, c).Some?
    ensures Apart(s, BeginLock(cfg, s, c).value, c)
  {
  }

  lemma LockApart(cfg: Config, s: State, c: nat)
    requires c < |s.callers| && s.callers[c].pc.AwaitLock? && Lock(cfg, s, c).Some?
    ensures Apart(s, Lock(cfg, s, c).value, c)
  {
  }

  lemma RegisterApart(s: State, c: nat)
    requires c < |s.callers| && s.callers[c].pc.Register?
    ensures Apart(s, RegisterLock(s, c), c)
  {
  }

  lemma CommitApart(s: State, c: nat)
    requires c < |s.callers| && s.callers[c].pc.Unlock?
    ensures Apart(s, CommitLock(s, c), c)
  {
  }

  lemma ForgetApart(s: State, c: nat)
    requires c < |s.callers| && s.callers[c].pc.Forget?
    ensures Apart(s, ForgetLock(s, c), c)
  {
  }

  lemma EndOuterApart(s: State, c: nat)
    requires c < |s.callers| && s.callers[c].pc.Resolve?
    ensures Apart(s, EndOuter(s, c), c)
  {
  }

  /** Only statements and handlers touch the tables. */
  lemma StepApart(cfg: Config, s: State, t: State, c: nat)
    requires c < |s.callers| && Next(cfg, s, c) == Some(t) && !s.callers[c].pc.In? && !s.callers[c].pc.Acting?
    ensures Apart(s, t, c)
  {
    match s.callers[c].pc
    case Idle => if s.callers[c].job.Patch? { BeginOuterApart(cfg, s, c); }
    case OpenLock => BeginLockApart(cfg, s, c);
    case AwaitLock => LockApart(cfg, s, c);
    case Register => RegisterApart(s, c);
    case Unlock => CommitApart(s, c);
    case Forget => ForgetApart(s, c);
    case Resolve => EndOuterApart(s, c);
    case _ =>
  }

  lemma StepEffect(cfg: Config, s: State, c: nat)
    requires Inv(cfg, s) && c < |s.callers| && Next(cfg, s, c).Some?
    ensures Effect(cfg, s, Next(cfg, s, c).value, c)
  {
    InvLocal(cfg, s, c);
    var t := Next(cfg, s, c).value;
    match s.callers[c].pc
    case Idle =>
      if s.callers[c].job.Reconcile? { WorkerStartsEffect(cfg, s, c); }
      else if s.callers[c].faults.outerOk { OuterBeginsEffect(cfg, s, c); }
      else { NoOuterEffect(cfg, s, c); }
    case OpenLock =>
      if s.callers[c].faults.beginOk { LockBeginsEffect(cfg, s, c); } else { LockFailsEffect(cfg, s, c); }
    case AwaitLock =>
      if s.callers[c].faults.lockOk && KeyOf(cfg, s.callers[c].job) !in s.locks { GrantEffect(cfg, s, c); }
      else { DenyEffect(cfg, s, c); }
    case Register => RegisterEffect(cfg, s, c);
    case Want(_) => WantCalm(cfg, s, c); CalmEffect(cfg, s, t, c);
    case In(_) =>
      if s.callers[c].job.Patch? { PatchCalm(cfg, s, c); } else { ReconcileCalm(cfg, s, c); }
      CalmEffect(cfg, s, t, c);
    case Acting(_, _) => ActCalm(s, c); CalmEffect(cfg, s, t, c);
    case Unlock => CommitLockEffect(cfg, s, c);
    case Forget => ForgetLockEffect(cfg, s, c);
    case Resolve => EndOuterEffect(cfg, s, c);
    case Done =>
  }

  lemma EffectHolders(cfg: Config, s: State, t: State, c: nat)
    requires LocksAgree(cfg, s) && c < |s.callers| && Effect(cfg, s, t, c)
    ensures HoldersAreListed(cfg, t)
  {
  }

  lemma EffectListed(cfg: Config, s: State, t: State, c: nat)
    requires LocksAgree(cfg, s) && c < |s.callers| && Effect(cfg, s, t, c)
    ensures ListedAreHolders(cfg, t)
  {
  }

  lemma EffectTables(cfg: Config, s: State, t: State, c: nat)
    requires Inv(cfg, s) && c < |s.callers| && Effect(cfg, s, t, c)
    ensures AllCoherent(t) && TxsAgree(t) && RegistryAgrees(t)
  {
  }

  lemma EffectInv(cfg: Config, s: State, t: State, c: nat)
    requires Inv(cfg, s) && c < |s.callers| && Effect(cfg, s, t, c)
    ensures Inv(cfg, t)
  {
    EffectHolders(cfg, s, t, c);
    EffectListed(cfg, s, t, c);
    EffectTables(cfg, s, t, c);
    EffectPools(s, t, c, t.callers[c]);
  }

  lemma EffectPools(s: State, t: State, c: nat, k': Caller)
    requires PoolsAgree(s) && c < |s.callers| && t.callers == s.callers[c := k'] && PoolFollows(s, t, s.callers[c], k')
    ensures PoolsAgree(t)
  {
    forall f: nat ensures Used(t.conns, f) == Total(Keeping(f), t.callers) {
      TotalUpdate(Keeping(f), s.callers, c, k');
    }
  }

  lemma StepInv(cfg: Config, s: State, c: nat)
    requires Inv(cfg, s) && c < |s.callers| && Next(cfg, s, c).Some?
    ensures Inv(cfg, Next(cfg, s, c).value)
  {
    StepEffect(cfg, s, c);
    EffectInv(cfg, s, Next(cfg, s, c).value, c);
  }
}
