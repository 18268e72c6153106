/**
 * How many pool connections the protocol needs: if every process has room for its callers'
 * long-held transactions and one more, no reachable state is stuck and every run ends cleanly.
 */
module Progress {
  import opened Wrappers
  import opened Domain
  import opened Protocol
  import opened ProtocolInvariants
  import opened MutualExclusion

  /** Connections a caller holds while it waits: its outer transaction and its lock transaction. */
  function Demand(k: Caller): nat {
    if k.job.Patch? && k.job.mode != Unlocked then 2 else 1
  }

  function DemandOf(process: nat, k: Caller): nat {
    if k.factory == process then Demand(k) else 0
  }

  function DemandIn(process: nat): Caller -> nat {
    (k: Caller) => DemandOf(process, k)
  }

  /** Every process with callers can open one connection more than they can hold while they wait. */
  predicate Ample(cfg: Config, callers: seq<Caller>) {
    forall c :: 0 <= c < |callers| ==>
      Allows(cfg, callers[c].factory, Total(DemandIn(callers[c].factory), callers) + 1)
  }

  predicate AllDone(s: State) {
    forall c :: 0 <= c < |s.callers| ==> s.callers[c].pc == Done
  }

  /** Somebody has not finished and nobody can move. */
  predicate Stuck(cfg: Config, s: State) {
    !AllDone(s) && forall c :: 0 <= c < |s.callers| ==> Next(cfg, s, c).None?
  }

  /** A caller that cannot move has no statement running. */
  lemma WaitingHoldsDemand(cfg: Config, s: State, c: nat)
    requires c < |s.callers| && Coherent(s.callers[c]) && Next(cfg, s, c).None?
    ensures Conns(s.callers[c]) <= Demand(s.callers[c])
    ensures s.callers[c].pc != Done && Free(cfg, s, s.callers[c].factory) ==>
              s.callers[c].pc == AwaitLock && KeyOf(cfg, s.callers[c].job) in s.locks
  {
  }

  /** The holder of a lock only ever waits for a connection. */
  lemma HolderMoves(cfg: Config, s: State, c: nat)
    requires c < |s.callers| && Coherent(s.callers[c]) && HasLock(s.callers[c])
    requires Free(cfg, s, s.callers[c].factory)
    ensures Next(cfg, s, c).Some?
  {
  }

  /** When nobody can move, no pool is exhausted. */
  lemma WaitingLeavesRoom(cfg: Config, s: State, c: nat)
    requires Inv(cfg, s) && Ample(cfg, s.callers) && c < |s.callers|
    requires forall d :: 0 <= d < |s.callers| ==> Next(cfg, s, d).None?
    ensures Free(cfg, s, s.callers[c].factory)
  {
    var f := s.callers[c].factory;
    forall d | 0 <= d < |s.callers| ensures Keeping(f)(s.callers[d]) <= DemandIn(f)(s.callers[d]) {
      WaitingHoldsDemand(cfg, s, d);
    }
    TotalAtMost(Keeping(f), DemandIn(f), s.callers);
  }

  lemma NotStuck(cfg: Config, s: State)
    requires Inv(cfg, s) && Ample(cfg, s.callers)
    ensures !Stuck(cfg, s)
  {
    if Stuck(cfg, s) {
      var c :| 0 <= c < |s.callers| && s.callers[c].pc != Done;
      WaitingLeavesRoom(cfg, s, c);
      WaitingHoldsDemand(cfg, s, c);
      var holder := s.locks[KeyOf(cfg, s.callers[c].job)];
      WaitingLeavesRoom(cfg, s, holder);
      HolderMoves(cfg, s, holder);
    }
  }

  // ---------- termination ----------

  /** No event type has more than limit handlers. */
  predicate HandlersWithin(cfg: Config, limit: nat) {
    forall source :: source in cfg.controllers ==>
      forall ev :: ev in cfg.controllers[source] ==> |cfg.controllers[source][ev]| <= limit
  }

  /** Steps left to a caller whose event has at most limit handlers. */
  function Rank(k: Caller, limit: nat): int {
    match k.pc
    case Idle => 15 + 3 * limit
    case OpenLock => 14 + 3 * limit
    case AwaitLock => 13 + 3 * limit
    case Register => 12 + 3 * limit
    case Want(Get) => 11 + 3 * limit
    case In(Get) => 10 + 3 * limit
    case Want(Probe(i)) => 9 + 3 * (|k.plan| - i)
    case In(Probe(i)) => 8 + 3 * (|k.plan| - i)
    case Acting(i, _) => 7 + 3 * (|k.plan| - i)
    case Want(Save) => 9
    case In(Save) => 8
    case Want(Insert) => 7
    case In(Insert) => 6
    case Want(Notify) => 5
    case In(Notify) => 4
    case Unlock => 3
    case Forget => 2
    case Resolve => 1
    case Done => 0
  }

  function Left(limit: nat): Caller -> nat {
    (k: Caller) => if Rank(k, limit) >= 0 then Rank(k, limit) else 0
  }

  lemma PatchDecreases(k: Caller, op: Op, row: Option<Species>, limit: nat)
    requires k.job.Patch? && k.pc == In(op) && Coherent(k)
    ensures 0 <= Rank(AfterPatchOp(k, op, row), limit) < Rank(k, limit)
  {
  }

  lemma ReconcileDecreases(cfg: Config, k: Caller, op: Op, row: Option<Event>, limit: nat)
    requires k.job.Reconcile? && k.pc == In(op) && Coherent(k) && HandlersWithin(cfg, limit)
    ensures 0 <= Rank(AfterReconcileOp(cfg, k, op, row), limit) < Rank(k, limit)
  {
  }

  /** The step of caller c lowers its rank. */
  predicate Lowers(s: State, t: State, c: nat, limit: nat)
    requires c < |s.callers|
  {
    c < |t.callers| && 0 <= Rank(t.callers[c], limit) < Rank(s.callers[c], limit)
  }

  lemma WriteLowers(s: State, c: nat, op: Op, k': Caller, limit: nat)
    requires c < |s.callers| && s.callers[c].job.Patch?
    requires 0 <= Rank(k', limit) < Rank(s.callers[c], limit)
    ensures Lowers(s, Write(s, c, op, k'), c, limit)
  {
  }

  lemma StatementLowers(cfg: Config, s: State, c: nat, limit: nat)
    requires c < |s.callers| && Coherent(s.callers[c]) && HandlersWithin(cfg, limit)
    requires s.callers[c].pc.In?
    ensures Lowers(s, Next(cfg, s, c).value, c, limit)
  {
    var k := s.callers[c];
    if k.job.Patch? {
      var row := RowOf(s, k.job.id);
      PatchDecreases(k, k.pc.op, row, limit);
      WriteLowers(s, c, k.pc.op, AfterPatchOp(k, k.pc.op, row), limit);
    } else {
      ReconcileDecreases(cfg, k, k.pc.op, EventRow(s, k.job.event), limit);
    }
  }

  lemma ActLowers(s: State, c: nat, limit: nat)
    requires c < |s.callers| && Coherent(s.callers[c]) && s.callers[c].pc.Acting?
    ensures Lowers(s, Act(s, c, s.callers[c].pc.handler, s.callers[c].pc.sawNil), c, limit)
  {
  }

  lemma WantLowers(cfg: Config, s: State, c: nat, limit: nat)
    requires c < |s.callers| && Coherent(s.callers[c]) && s.callers[c].pc.Want?
    requires Free(cfg, s, s.callers[c].factory)
    ensures Lowers(s, Next(cfg, s, c).value, c, limit)
  {
  }

  lemma BeginOuterLowers(cfg: Config, s: State, c: nat, limit: nat)
    requires c < |s.callers| && Coherent(s.callers[c]) && s.callers[c].pc.Idle?
    requires s.callers[c].job.Patch? && BeginOuter(cfg, s, c).Some?
    ensures Lowers(s, BeginOuter(cfg, s, c).value, c, limit)
  {
  }

  lemma BeginLockLowers(cfg: Config, s: State, c: nat, limit: nat)
    requires c < |s.callers| && Coherent(s.callers[c]) && s.callers[c].pc.OpenLock? && BeginLock(cfg, s, c).Some?
    ensures Lowers(s, BeginLock(cfg, s, c).value, c, limit)
  {
  }

  lemma LockLowers(cfg: Config, s: State, c: nat, limit: nat)
    requires c < |s.callers| && Coherent(s.callers[c]) && s.callers[c].pc.AwaitLock? && Lock(cfg, s, c).Some?
    ensures Lowers(s, Lock(cfg, s, c).value, c, limit)
  {
  }

  lemma RegisterLowers(s: State, c: nat, limit: nat)
    requires c < |s.callers| && Coherent(s.callers[c]) && s.callers[c].pc.Register?
    ensures Lowers(s, RegisterLock(s, c), c, limit)
  {
  }

  lemma CommitLowers(s: State, c: nat, limit: nat)
    requires c < |s.callers| && Coherent(s.callers[c]) && s.callers[c].pc.Unlock?
    ensures Lowers(s, CommitLock(s, c), c, limit)
  {
  }

  lemma ForgetLowers(s: State, c: nat, limit: nat)
    requires c < |s.callers| && Coherent(s.callers[c]) && s.callers[c].pc.Forget?
    ensures Lowers(s, ForgetLock(s, c), c, limit)
  {
  }

  lemma EndOuterLowers(s: State, c: nat, limit: nat)
    requires c < |s.callers| && Coherent(s.callers[c]) && s.callers[c].pc.Resolve?
    ensures Lowers(s, EndOuter(s, c), c, limit)
  {
  }

  lemma StepLowers(cfg: Config, s: State, c: nat, limit: nat)
    requires c < |s.callers| && Coherent(s.callers[c]) && Next(cfg, s, c).Some? && HandlersWithin(cfg, limit)
    ensures Lowers(s, Next(cfg, s, c).value, c, limit)
  {
    match s.callers[c].pc
    case Want(_) => WantLowers(cfg, s, c, limit);
    case In(_) => StatementLowers(cfg, s, c, limit);
    case Acting(_, _) => ActLowers(s, c, limit);
    case Idle => if s.callers[c].job.Patch? { BeginOuterLowers(cfg, s, c, limit); }
    case OpenLock => BeginLockLowers(cfg, s, c, limit);
    case AwaitLock => LockLowers(cfg, s, c, limit);
    case Register => RegisterLowers(s, c, limit);
    case Unlock => CommitLowers(s, c, limit);
    case Forget => ForgetLowers(s, c, limit);
    case Resolve => EndOuterLowers(s, c, limit);
    case _ =>
  }

  /** A step lowers the steps left to all callers together. */
  lemma StepLowersTotal(cfg: Config, s: State, c: nat, limit: nat)
    requires Inv(cfg, s) && c < |s.callers| && Next(cfg, s, c).Some? && HandlersWithin(cfg, limit)
    ensures Total(Left(limit), Next(cfg, s, c).value.callers) < Total(Left(limit), s.callers)
  {
    InvLocal(cfg, s, c);
    StepLowers(cfg, s, c, limit);
    StepEffect(cfg, s, c);
    TotalUpdate(Left(limit), s.callers, c, Next(cfg, s, c).value.callers[c]);
  }

  /** Every run is finite: a schedule is no longer than the steps its callers started with. */
  lemma {:induction false} RunsAreBounded(cfg: Config, s: State, schedule: seq<nat>, limit: nat)
    requires Init(s) && Run(cfg, s, schedule).Some? && HandlersWithin(cfg, limit)
    ensures var t := Run(cfg, s, schedule).value;
            |schedule| + Total(Left(limit), t.callers) <= Total(Left(limit), s.callers)
  {
    if schedule != [] {
      var n := |schedule| - 1;
      RunsAreBounded(cfg, s, schedule[..n], limit);
      RunInv(cfg, s, schedule[..n]);
      StepLowersTotal(cfg, Run(cfg, s, schedule[..n]).value, schedule[n], limit);
    }
  }

  // ---------- how runs end ----------

  /** Requests of the process whose outer transaction was begun and then forgotten. */
  function Strandings(s: State, process: nat): set<nat> {
    set c: nat | c < |s.callers| && s.callers[c].outer == Stranded && s.callers[c].factory == process
  }

  /** Open lock transactions of the process. */
  function LockTxs(s: State, process: nat): set<nat> {
    set c: nat | c < |s.callers| && c in s.txs && s.callers[c].factory == process
  }

  /** A request's outer transaction when the request is done: it ended if and only if its ID could be read. */
  predicate OuterSettled(k: Caller) {
    k.outer == if !k.faults.outerOk then NotBegun
               else if !k.faults.txidOk then Stranded
               else if k.marked then RolledBack
               else Committed
  }

  /**
   * No lock is held, every outer transaction is settled, and the connections that a process still uses
   * are those of its transactions that nobody ends.
   */
  ghost predicate Clean(s: State) {
    && AllDone(s)
    && s.locks == map[]
    && s.txs == Refusals(s) + Orphans(s)
    && (forall f: nat :: Used(s.conns, f) == |LockTxs(s, f)| + |Strandings(s, f)|)
    && forall c :: 0 <= c < |s.callers| && s.callers[c].job.Patch? ==> OuterSettled(s.callers[c])
  }

  /** A finished caller keeps the connections of its lock transaction and of a stranded outer one. */
  lemma ConnsOfDone(k: Caller)
    requires k.pc == Done && Coherent(k)
    ensures Conns(k) == (if OpenTx(k) then 1 else 0) + (if k.outer == Stranded then 1 else 0)
  {
  }

  lemma CardinalityWithout(all: set<nat>, n: nat)
    ensures |all| == |all - {n}| + if n in all then 1 else 0
  {
    if n in all { assert all == (all - {n}) + {n}; } else { assert all - {n} == all; }
  }

  /** Each caller weighs as many of the two sets as it is in. */
  ghost predicate Counts(weight: Caller -> nat, callers: seq<Caller>, a: set<nat>, b: set<nat>) {
    && (forall c :: c in a ==> c < |callers|)
    && (forall c :: c in b ==> c < |callers|)
    && forall c: nat :: c < |callers| ==>
         weight(callers[c]) == (if c in a then 1 else 0) + (if c in b then 1 else 0)
  }

  lemma CountsRest(weight: Caller -> nat, callers: seq<Caller>, a: set<nat>, b: set<nat>)
    requires callers != [] && Counts(weight, callers, a, b)
    ensures var n := |callers| - 1; Counts(weight, callers[..n], a - {n}, b - {n})
  {
  }

  /** A sum of memberships is the sum of the sets' sizes. */
  lemma {:induction false} TotalOfSets(weight: Caller -> nat, callers: seq<Caller>, a: set<nat>, b: set<nat>)
    requires Counts(weight, callers, a, b)
    ensures Total(weight, callers) == |a| + |b|
  {
    if callers == [] {
      assert a == {} && b == {};
    } else {
      var n := |callers| - 1;
      CountsRest(weight, callers, a, b);
      TotalOfSets(weight, callers[..n], a - {n}, b - {n});
      CardinalityWithout(a, n);
      CardinalityWithout(b, n);
    }
  }

  lemma {:induction false} SameDemand(f: nat, before: seq<Caller>, after: seq<Caller>)
    requires |before| == |after|
    requires forall c :: 0 <= c < |before| ==> before[c].job == after[c].job && before[c].factory == after[c].factory
    ensures Total(DemandIn(f), before) == Total(DemandIn(f), after)
  {
    if before != [] { SameDemand(f, before[..|before| - 1], after[..|after| - 1]); }
  }

  lemma StaysAmple(cfg: Config, s: State, t: State)
    requires SameJobs(s, t) && Ample(cfg, s.callers)
    ensures Ample(cfg, t.callers)
  {
    forall c | 0 <= c < |t.callers|
      ensures Allows(cfg, t.callers[c].factory, Total(DemandIn(t.callers[c].factory), t.callers) + 1)
    {
      SameDemand(t.callers[c].factory, s.callers, t.callers);
    }
  }

  lemma DoneIsClean(cfg: Config, s: State)
    requires Inv(cfg, s) && AllDone(s)
    ensures Clean(s)
  {
    forall c | 0 <= c < |s.callers|
      ensures !HasLock(s.callers[c]) && Coherent(s.callers[c])
      ensures OpenTx(s.callers[c]) <==> c in Refusals(s) + Orphans(s)
    {
    }
    assert s.locks == map[];
    assert s.txs == Refusals(s) + Orphans(s);
    DoneConns(cfg, s);
  }

  lemma DoneConns(cfg: Config, s: State)
    requires Inv(cfg, s) && AllDone(s)
    ensures forall f: nat :: Used(s.conns, f) == |LockTxs(s, f)| + |Strandings(s, f)|
  {
    forall f: nat ensures Used(s.conns, f) == |LockTxs(s, f)| + |Strandings(s, f)| {
      forall c: nat | c < |s.callers|
        ensures Keeping(f)(s.callers[c]) ==
                (if c in LockTxs(s, f) then 1 else 0) + (if c in Strandings(s, f) then 1 else 0)
      {
        ConnsOfDone(s.callers[c]);
      }
      TotalOfSets(Keeping(f), s.callers, LockTxs(s, f), Strandings(s, f));
    }
  }

  /**
   * A run that can go no further, in pools with one connection more than their callers can hold,
   * is finished and clean: the advisory locks are all released, each outer transaction whose ID could
   * be read has ended once as its flag says, and what stays open are only the lock transactions that
   * nobody unlocks and the outer ones that nobody was given.
   */
  lemma RunsEndClean(cfg: Config, s: State, schedule: seq<nat>)
    requires Init(s) && Run(cfg, s, schedule).Some? && Ample(cfg, s.callers)
    requires var t := Run(cfg, s, schedule).value;
             forall c :: 0 <= c < |t.callers| ==> Next(cfg, t, c).None?
    ensures Clean(Run(cfg, s, schedule).value)
  {
    RunInv(cfg, s, schedule);
    var t := Run(cfg, s, schedule).value;
    StaysAmple(cfg, s, t);
    NotStuck(cfg, t);
    DoneIsClean(cfg, t);
  }
}
