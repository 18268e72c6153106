/** The outer transaction of a request whose transaction ID cannot be read: begun, and never ended. */
module StrandedTransactions {
  import opened Wrappers
  import opened Replacing
  import opened Protocol
  import opened ProtocolInvariants
  import MutualExclusion
  import Progress
  import Runs

  predicate Ended(outer: OuterPhase) {
    outer == Committed || outer == RolledBack
  }

  /**
   * In every run a finished request has ended its outer transaction if and only if it was begun and
   * its ID could be read; it was rolled back exactly if it was marked.
   */
  lemma OuterEndsIffIdIsRead(cfg: Config, s: State, schedule: seq<nat>, c: nat)
    requires Init(s) && Run(cfg, s, schedule).Some? && c < |Run(cfg, s, schedule).value.callers|
    requires var k := Run(cfg, s, schedule).value.callers[c]; k.job.Patch? && k.pc == Done
    ensures var k := Run(cfg, s, schedule).value.callers[c];
            && (Ended(k.outer) <==> k.faults.outerOk && k.faults.txidOk)
            && (Ended(k.outer) ==> (k.outer == RolledBack <==> k.marked))
            && (k.outer == Stranded <==> k.faults.outerOk && !k.faults.txidOk)
  {
    MutualExclusion.RunInv(cfg, s, schedule);
    assert Coherent(Run(cfg, s, schedule).value.callers[c]);
  }

  // ---------- what such requests do to the pool ----------

  const NO_ID := NO_FAULTS.(txidOk := false)

  function Request(f: nat, faults: Faults, pc: PC, outer: OuterPhase, reply: Reply): Caller {
    Caller(Patch("d", "new", Blocking), f, faults, pc, NoLock, outer, false, reply, [], [], {}, false)
  }

  /** n requests of process f that get no transaction ID, a of them done, and one that would get one. */
  function Queue(f: nat, n: nat, a: nat): seq<Caller> {
    seq(n, i requires 0 <= i =>
      if i < a then Request(f, NO_ID, Done, Stranded, NoTransaction) else Request(f, NO_ID, Idle, NotBegun, NoReply))
    + [Request(f, NO_FAULTS, Idle, NotBegun, NoReply)]
  }

  function Stage(f: nat, n: nat, a: nat): State {
    State(Queue(f, n, a), if a == 0 then map[] else map[f := a], {}, map[], {}, map["d" := "old"], [],
          History(map[], multiset{}, multiset{}, map[]))
  }

  lemma NextStage(cfg: Config, f: nat, n: nat, a: nat)
    requires a < n && a < cfg.maxConns(f)
    ensures Next(cfg, Stage(f, n, a), a) == Some(Stage(f, n, a + 1))
  {
    assert Queue(f, n, a)[a] == Request(f, NO_ID, Idle, NotBegun, NoReply);
    assert Queue(f, n, a)[a := Request(f, NO_ID, Done, Stranded, NoTransaction)] == Queue(f, n, a + 1);
    assert TakeOne(Stage(f, n, a).conns, f) == Stage(f, n, a + 1).conns;
  }

  lemma {:induction false} ReachStage(cfg: Config, f: nat, n: nat, a: nat) returns (schedule: seq<nat>)
    requires a <= n && a <= cfg.maxConns(f)
    ensures Run(cfg, Stage(f, n, 0), schedule) == Some(Stage(f, n, a))
  {
    schedule := [];
    if a > 0 {
      schedule := ReachStage(cfg, f, n, a - 1);
      Runs.RunExtends(cfg, Stage(f, n, 0), schedule, a - 1);
      NextStage(cfg, f, n, a - 1);
      schedule := schedule + [a - 1];
    }
  }

  /**
   * As many requests without a transaction ID as their process has connections are all answered, and
   * keep every connection for good: a request without any fault can never begin in that process.
   */
  lemma StrandedRequestsUseUpThePool(cfg: Config, f: nat) returns (s: State, schedule: seq<nat>)
    requires cfg.maxConns(f) >= 1
    ensures Init(s) && |s.callers| == cfg.maxConns(f) + 1 && Run(cfg, s, schedule).Some?
    ensures var t := Run(cfg, s, schedule).value;
            && |t.callers| == cfg.maxConns(f) + 1 && t.txs == {} && t.conns == map[f := cfg.maxConns(f)]
            && (forall c :: 0 <= c < cfg.maxConns(f) ==> t.callers[c].pc == Done && !Ended(t.callers[c].outer))
            && t.callers[cfg.maxConns(f)].faults == NO_FAULTS
            && (forall c :: 0 <= c < |t.callers| ==> t.callers[c].factory == f)
            && Progress.Stuck(cfg, t)
  {
    var n := cfg.maxConns(f);
    s := Stage(f, n, 0);
    forall c | 0 <= c < |s.callers| ensures Fresh(s.callers[c]) {
      assert s.callers[c] == Request(f, if c < n then NO_ID else NO_FAULTS, Idle, NotBegun, NoReply);
    }
    schedule := ReachStage(cfg, f, n, n);
    var t := Stage(f, n, n);
    assert t.callers[n] == Request(f, NO_FAULTS, Idle, NotBegun, NoReply);
    forall c | 0 <= c < n ensures t.callers[c] == Request(f, NO_ID, Done, Stranded, NoTransaction) {
    }
  }
}
