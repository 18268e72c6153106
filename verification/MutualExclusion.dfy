/** Safety of the locks over whole runs: mutual exclusion, and where lock transactions go. */
module MutualExclusion {
  import Replacing
  import opened Protocol
  import opened ProtocolInvariants

  /** The callers' jobs, processes and answers are what they were when the run began. */
  predicate SameJobs(s: State, t: State) {
    && |t.callers| == |s.callers|
    && forall c :: 0 <= c < |s.callers| ==>
         && t.callers[c].job == s.callers[c].job && t.callers[c].faults == s.callers[c].faults
         && t.callers[c].factory == s.callers[c].factory
  }

  lemma {:induction false} RunInv(cfg: Config, s: State, schedule: seq<nat>)
    requires Init(s) && Run(cfg, s, schedule).Some?
    ensures Inv(cfg, Run(cfg, s, schedule).value) && SameJobs(s, Run(cfg, s, schedule).value)
  {
    if schedule == [] {
      InitInv(cfg, s);
    } else {
      var n := |schedule| - 1;
      RunInv(cfg, s, schedule[..n]);
      var before := Run(cfg, s, schedule[..n]).value;
      InvLocal(cfg, before, schedule[n]);
      StepEffect(cfg, before, schedule[n]);
      StepInv(cfg, before, schedule[n]);
    }
  }

  /**
   * In every state of every run two callers that have been granted the same key are one caller,
   * whichever processes they are in and whichever mix of blocking and non-blocking calls is running.
   */
  lemma AtMostOneOwner(cfg: Config, s: State, schedule: seq<nat>, c: nat, d: nat)
    requires Init(s) && Run(cfg, s, schedule).Some?
    requires c < |s.callers| && d < |s.callers|
    ensures var t := Run(cfg, s, schedule).value;
            && |t.callers| == |s.callers|
            && (HasLock(t.callers[c]) && HasLock(t.callers[d])
                && KeyOf(cfg, s.callers[c].job) == KeyOf(cfg, s.callers[d].job)
                ==> c == d)
  {
    RunInv(cfg, s, schedule);
  }

  // ---------- whom a lock excludes ----------

  /** What the lock call of a job is given as the ID and as the type. */
  function LockedId(cfg: Config, job: Job): string {
    match job
    case Patch(id, _, _) => id
    case Reconcile(e) => cfg.keyOf(e)
  }

  function LockedType(job: Job): string {
    if job.Patch? then "dinosaurs" else "events"
  }

  /** The hashes of the IDs are the same, and those of the types. */
  predicate SameHashes(cfg: Config, a: Job, b: Job) {
    && cfg.hash(LockedId(cfg, a)) == cfg.hash(LockedId(cfg, b))
    && cfg.hash(LockedType(a)) == cfg.hash(LockedType(b))
  }

  predicate InTheWay(cfg: Config, s: State, c: nat, d: nat)
    requires c < |s.callers|
  {
    d < |s.callers| && d != c && HasLock(s.callers[d]) && SameHashes(cfg, s.callers[c].job, s.callers[d].job)
  }

  /** A caller whose lock statement is sent and will not fail is kept out by the key if and only if somebody has it. */
  lemma KeyTakenIff(cfg: Config, s: State, c: nat)
    requires Inv(cfg, s) && c < |s.callers| && s.callers[c].pc.AwaitLock?
    ensures KeyOf(cfg, s.callers[c].job) in s.locks <==> exists d: nat :: InTheWay(cfg, s, c, d)
  {
    InvLocal(cfg, s, c);
    var key := KeyOf(cfg, s.callers[c].job);
    if key in s.locks {
      assert InTheWay(cfg, s, c, s.locks[key]);
    }
    if d: nat :| InTheWay(cfg, s, c, d) {
      assert KeyOf(cfg, s.callers[d].job) == key;
    }
  }

  predicate WaitsOrIsRefused(cfg: Config, s: State, c: nat)
    requires c < |s.callers|
  {
    var next := Next(cfg, s, c);
    next.None? || (|next.value.callers| == |s.callers| && next.value.callers[c].lock.Refused?)
  }

  lemma LockAnswers(cfg: Config, s: State, c: nat)
    requires c < |s.callers| && s.callers[c].pc.AwaitLock? && s.callers[c].faults.lockOk
    ensures WaitsOrIsRefused(cfg, s, c) <==> KeyOf(cfg, s.callers[c].job) in s.locks
    ensures Next(cfg, s, c).None? <==>
            KeyOf(cfg, s.callers[c].job) in s.locks && s.callers[c].job.Patch? && s.callers[c].job.mode == Blocking
  {
  }

  /**
   * In every reachable state a caller whose lock statement is sent, and will not fail, has to wait or is
   * refused if and only if another caller, in whatever process, has a lock whose ID and type have the
   * same two hashes; it waits, rather than being refused, exactly if it is a blocking update.
   */
  lemma {:induction false} ExcludedIffHeld(cfg: Config, s: State, schedule: seq<nat>, c: nat)
    requires Init(s) && Run(cfg, s, schedule).Some?
    requires var t := Run(cfg, s, schedule).value;
             c < |t.callers| && t.callers[c].pc.AwaitLock? && t.callers[c].faults.lockOk
    ensures var t := Run(cfg, s, schedule).value;
            && (WaitsOrIsRefused(cfg, t, c) <==> exists d: nat :: InTheWay(cfg, t, c, d))
            && (Next(cfg, t, c).None? <==>
                  WaitsOrIsRefused(cfg, t, c) && t.callers[c].job.Patch? && t.callers[c].job.mode == Blocking)
  {
    RunInv(cfg, s, schedule);
    KeyTakenIff(cfg, Run(cfg, s, schedule).value, c);
    LockAnswers(cfg, Run(cfg, s, schedule).value, c);
  }

  // ---------- conservation of lock transactions ----------

  function Owners(s: State): set<nat> {
    set c: nat | c < |s.callers| && s.callers[c].lock == Owner
  }

  /** Non-blocking Replace calls that were refused the lock. */
  function Refusals(s: State): set<nat> {
    set c: nat | c < |s.callers| && s.callers[c].job.Patch? && s.callers[c].reply == Replacing.RowLocked
  }

  /** Lock calls that failed after Begin. */
  function Orphans(s: State): set<nat> {
    set c: nat | c < |s.callers| && s.callers[c].lock == Orphan
  }

  /** No caller is inside a lock call or inside Unlock. */
  predicate Quiescent(s: State) {
    forall c :: 0 <= c < |s.callers| ==>
      var pc := s.callers[c].pc; !pc.AwaitLock? && !pc.Register? && !pc.Unlock? && !pc.Forget?
  }

  /** The registry as (factory, uuid) pairs has as many entries as it has uuids. */
  lemma {:induction false} CountEntries(registry: set<(nat, nat)>, uuids: set<nat>)
    requires forall u :: u in uuids <==> exists f :: (f, u) in registry
    requires forall f, g, u :: (f, u) in registry && (g, u) in registry ==> f == g
    ensures |registry| == |uuids|
    decreases registry
  {
    if registry == {} {
      assert uuids == {};
    } else {
      var e :| e in registry;
      var u := e.1;
      assert (e.0, u) in registry;
      var rest := registry - {e};
      forall v ensures v in uuids - {u} <==> exists g :: (g, v) in rest {
        if v in uuids - {u} {
          var g :| (g, v) in registry;
          assert (g, v) in rest;
        }
      }
      CountEntries(rest, uuids - {u});
    }
  }

  lemma WhereTxsAre(cfg: Config, s: State)
    requires Inv(cfg, s) && Quiescent(s)
    ensures Owners(s) !! Refusals(s) && (Owners(s) + Refusals(s)) !! Orphans(s)
    ensures s.txs == Owners(s) + Refusals(s) + Orphans(s)
    ensures forall c: nat :: c < |s.callers| ==> (Registered(s.callers[c]) <==> c in Owners(s) + Refusals(s))
  {
    forall c: nat | c < |s.callers|
      ensures OpenTx(s.callers[c]) <==> c in Owners(s) + Refusals(s) + Orphans(s)
      ensures Registered(s.callers[c]) <==> c in Owners(s) + Refusals(s)
      ensures !(c in Owners(s) && c in Refusals(s))
    {
      InvLocal(cfg, s, c);
    }
  }

  /**
   * Lock transactions are neither lost nor invented: what is open is registered or is a lock call
   * that failed, and what is registered is owned or was refused to a non-blocking Replace.
   */
  lemma {:induction false} LockTransactionsConserved(cfg: Config, s: State, schedule: seq<nat>)
    requires Init(s) && Run(cfg, s, schedule).Some?
    requires Quiescent(Run(cfg, s, schedule).value)
    ensures var t := Run(cfg, s, schedule).value;
            && |t.txs| == |t.registry| + |Orphans(t)|
            && |t.registry| == |Owners(t)| + |Refusals(t)|
            && t.txs == Owners(t) + Refusals(t) + Orphans(t)
  {
    RunInv(cfg, s, schedule);
    var t := Run(cfg, s, schedule).value;
    WhereTxsAre(cfg, t);
    RegistryCount(cfg, t);
    CountBoth(Owners(t), Refusals(t));
    CountBoth(Owners(t) + Refusals(t), Orphans(t));
  }

  lemma CountBoth(a: set<nat>, b: set<nat>)
    requires a !! b
    ensures |a + b| == |a| + |b|
  {
  }

  lemma RegistryCount(cfg: Config, s: State)
    requires Inv(cfg, s) && Quiescent(s)
    ensures |s.registry| == |Owners(s) + Refusals(s)|
  {
    WhereTxsAre(cfg, s);
    forall u: nat ensures u in Owners(s) + Refusals(s) <==> exists f :: (f, u) in s.registry {
      if u in Owners(s) + Refusals(s) { assert (s.callers[u].factory, u) in s.registry; }
    }
    CountEntries(s.registry, Owners(s) + Refusals(s));
  }
}
