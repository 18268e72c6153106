/** A pool of 2W + 1 connections is exactly what W concurrent locked updates in one process need. */
module PoolBound {
  import opened Wrappers
  import opened Domain
  import opened Replacing
  import opened Protocol
  import opened ProtocolInvariants
  import opened MutualExclusion
  import opened Progress
  import opened Runs

  /** A request that takes the blocking lock before it updates a dinosaur, and that meets no error. */
  predicate Racer(k: Caller) {
    k.job.Patch? && k.job.mode == Blocking && Faultless(k.faults)
  }

  /** Only such requests, in any processes and on any dinosaurs. */
  predicate Race(s: State) {
    forall c :: 0 <= c < |s.callers| ==> Racer(s.callers[c])
  }

  function Here(process: nat, k: Caller): nat {
    if k.factory == process then 1 else 0
  }

  function InProcess(process: nat): Caller -> nat {
    (k: Caller) => Here(process, k)
  }

  /** How many of the requests are in the process. */
  function Racers(s: State, process: nat): nat {
    Total(InProcess(process), s.callers)
  }

  lemma {:induction false} RaceDemand(f: nat, callers: seq<Caller>)
    requires forall c :: 0 <= c < |callers| ==> Racer(callers[c])
    ensures Total(DemandIn(f), callers) == 2 * Total(InProcess(f), callers)
  {
    if callers != [] { RaceDemand(f, callers[..|callers| - 1]); }
  }

  // ---------- using up the pool ----------

  /** Nobody in the process has been granted a lock yet. */
  predicate Arriving(s: State, f: nat) {
    forall c :: 0 <= c < |s.callers| && s.callers[c].factory == f ==>
      s.callers[c].pc.Idle? || s.callers[c].pc.OpenLock? || s.callers[c].pc.AwaitLock?
  }

  predicate TakesNext(k: Caller, f: nat) {
    k.factory == f && (k.pc.Idle? || k.pc.OpenLock?)
  }

  lemma {:induction false} AllKeepTwo(f: nat, callers: seq<Caller>)
    requires forall c :: 0 <= c < |callers| ==> Keeps(f, callers[c]) == 2 * Here(f, callers[c])
    ensures Total(Keeping(f), callers) == 2 * Total(InProcess(f), callers)
  {
    if callers != [] { AllKeepTwo(f, callers[..|callers| - 1]); }
  }

  lemma AwaitingKeepsTwo(k: Caller)
    requires Coherent(k) && Racer(k) && k.pc.AwaitLock?
    ensures Conns(k) == 2
  {
  }

  /** While less than two connections for each racer are used, some racer can take one more. */
  lemma SomebodyTakes(cfg: Config, s: State, f: nat) returns (c: nat)
    requires Inv(cfg, s) && Race(s) && Arriving(s, f) && Used(s.conns, f) < 2 * Racers(s, f)
    ensures c < |s.callers| && TakesNext(s.callers[c], f)
  {
    if d: nat :| d < |s.callers| && TakesNext(s.callers[d], f) {
      c := d;
    } else {
      forall d | 0 <= d < |s.callers| ensures Keeps(f, s.callers[d]) == 2 * Here(f, s.callers[d]) {
        if s.callers[d].factory == f { AwaitingKeepsTwo(s.callers[d]); }
      }
      AllKeepTwo(f, s.callers);
      assert false;
    }
  }

  lemma Takes(cfg: Config, s: State, c: nat, f: nat)
    requires c < |s.callers| && Racer(s.callers[c]) && TakesNext(s.callers[c], f) && Free(cfg, s, f)
    ensures var t := Next(cfg, s, c);
            && t.Some? && |t.value.callers| == |s.callers|
            && t.value.callers == s.callers[c := t.value.callers[c]]
            && (t.value.callers[c].pc.OpenLock? || t.value.callers[c].pc.AwaitLock?)
            && Racer(t.value.callers[c]) && t.value.callers[c].factory == f
            && Used(t.value.conns, f) == Used(s.conns, f) + 1
  {
  }

  lemma TakesOneMore(cfg: Config, s0: State, s: State, f: nat) returns (t: State)
    requires Init(s0) && Leads(cfg, s0, s) && Race(s) && Arriving(s, f)
    requires Used(s.conns, f) < cfg.maxConns(f) <= 2 * Racers(s, f)
    ensures Leads(cfg, s0, t) && Race(t) && Arriving(t, f)
    ensures Used(t.conns, f) == Used(s.conns, f) + 1 && Racers(t, f) == Racers(s, f)
  {
    LeadsInv(cfg, s0, s);
    var c := SomebodyTakes(cfg, s, f);
    Takes(cfg, s, c, f);
    t := Moves(cfg, s0, s, c);
    SameRacers(f, s.callers, t.callers);
  }

  lemma {:induction false} SameRacers(f: nat, before: seq<Caller>, after: seq<Caller>)
    requires |before| == |after|
    requires forall c :: 0 <= c < |before| ==> before[c].factory == after[c].factory
    ensures Total(InProcess(f), before) == Total(InProcess(f), after)
  {
    if before != [] { SameRacers(f, before[..|before| - 1], after[..|after| - 1]); }
  }

  // ---------- nobody gives back ----------

  /** The pool is used up by requests of which none has come as far as its first statement. */
  predicate Jammed(cfg: Config, s: State, f: nat) {
    && Used(s.conns, f) == cfg.maxConns(f) && cfg.maxConns(f) >= 1
    && forall c :: 0 <= c < |s.callers| && s.callers[c].factory == f ==> BeforeStatement(s.callers[c])
  }

  predicate BeforeStatement(k: Caller) {
    k.pc.Idle? || k.pc.OpenLock? || k.pc.AwaitLock? || k.pc.Register? || k.pc == Want(Get)
  }

  lemma {:induction false} FillsUp(cfg: Config, s0: State, s: State, f: nat) returns (t: State)
    requires Init(s0) && Leads(cfg, s0, s) && Race(s) && Arriving(s, f)
    requires Used(s.conns, f) <= cfg.maxConns(f) && 1 <= cfg.maxConns(f) <= 2 * Racers(s, f)
    ensures Leads(cfg, s0, t) && Race(t) && Jammed(cfg, t, f)
    decreases cfg.maxConns(f) - Used(s.conns, f)
  {
    t := s;
    if Used(s.conns, f) < cfg.maxConns(f) {
      t := TakesOneMore(cfg, s0, s, f);
      t := FillsUp(cfg, s0, t, f);
    }
  }

  /** In the jammed process a step can only grant a lock or enter it into the map. */
  lemma OwnStepJams(cfg: Config, s: State, c: nat, f: nat)
    requires Jammed(cfg, s, f) && c < |s.callers| && Next(cfg, s, c).Some?
    requires Coherent(s.callers[c]) && Racer(s.callers[c]) && s.callers[c].factory == f
    ensures var t := Next(cfg, s, c).value;
            && t.conns == s.conns && |t.callers| == |s.callers|
            && t.callers == s.callers[c := t.callers[c]] && BeforeStatement(t.callers[c])
  {
  }

  lemma JamStays(cfg: Config, s: State, c: nat, f: nat)
    requires Inv(cfg, s) && Race(s) && Jammed(cfg, s, f) && c < |s.callers| && Next(cfg, s, c).Some?
    ensures Jammed(cfg, Next(cfg, s, c).value, f) && Race(Next(cfg, s, c).value)
  {
    StepEffect(cfg, s, c);
    if s.callers[c].factory == f { OwnStepJams(cfg, s, c, f); }
  }

  lemma {:induction false} RunStaysJammed(cfg: Config, s: State, schedule: seq<nat>, f: nat)
    requires Inv(cfg, s) && Race(s) && Jammed(cfg, s, f) && Run(cfg, s, schedule).Some?
    ensures var t := Run(cfg, s, schedule).value; Inv(cfg, t) && Race(t) && Jammed(cfg, t, f)
  {
    if schedule != [] {
      var n := |schedule| - 1;
      RunStaysJammed(cfg, s, schedule[..n], f);
      var before := Run(cfg, s, schedule[..n]).value;
      StepInv(cfg, before, schedule[n]);
      JamStays(cfg, before, schedule[n], f);
    }
  }

  lemma {:induction false} SomebodyKeeps(f: nat, callers: seq<Caller>)
    requires Total(Keeping(f), callers) > 0
    ensures exists c :: 0 <= c < |callers| && callers[c].factory == f
  {
    var n := |callers| - 1;
    if Keeps(f, callers[n]) == 0 {
      SomebodyKeeps(f, callers[..n]);
      var c :| 0 <= c < n && callers[..n][c].factory == f;
      assert callers[c].factory == f;
    }
  }

  /** However small the pool of a process, its racers can use it up while each of them needs one more. */
  lemma SmallPoolsGetStuck(cfg: Config, s: State, f: nat) returns (schedule: seq<nat>)
    requires Init(s) && Race(s) && 1 <= cfg.maxConns(f) <= 2 * Racers(s, f)
    ensures Run(cfg, s, schedule).Some? && Stuck(cfg, Run(cfg, s, schedule).value)
  {
    LeadsHere(cfg, s);
    var jam := FillsUp(cfg, s, s, f);
    LeadsInv(cfg, s, jam);
    var limit := SomeLimit(cfg);
    var t := RunsOut(cfg, s, jam, limit);
    var rest :| Run(cfg, jam, rest) == Some(t);
    RunStaysJammed(cfg, jam, rest, f);
    SomebodyKeeps(f, t.callers);
    schedule :| Run(cfg, s, schedule) == Some(t);
  }

  /** Some process limits its pool to at most two connections for each of its own racers. */
  ghost predicate SmallPool(cfg: Config, s: State) {
    exists f: nat :: 1 <= cfg.maxConns(f) <= 2 * Racers(s, f)
  }

  lemma LargePoolsAreAmple(cfg: Config, s: State)
    requires Race(s) && !SmallPool(cfg, s)
    ensures Ample(cfg, s.callers)
  {
    forall c | 0 <= c < |s.callers|
      ensures Allows(cfg, s.callers[c].factory, Total(DemandIn(s.callers[c].factory), s.callers) + 1)
    {
      var f := s.callers[c].factory;
      RaceDemand(f, s.callers);
      assert !(1 <= cfg.maxConns(f) <= 2 * Racers(s, f));
    }
  }

  /**
   * Locked updates that meet no error can reach a state where somebody has not finished and nobody can
   * move if and only if some process has a small pool.
   */
  lemma {:induction false} PoolBoundIsTight(cfg: Config, s: State)
    requires Init(s) && Race(s)
    ensures (exists schedule :: Run(cfg, s, schedule).Some? && Stuck(cfg, Run(cfg, s, schedule).value))
            <==> SmallPool(cfg, s)
  {
    if SmallPool(cfg, s) {
      var f: nat :| 1 <= cfg.maxConns(f) <= 2 * Racers(s, f);
      var schedule := SmallPoolsGetStuck(cfg, s, f);
    } else {
      LargePoolsAreAmple(cfg, s);
      forall schedule | Run(cfg, s, schedule).Some?
        ensures !Stuck(cfg, Run(cfg, s, schedule).value)
      {
        RunInv(cfg, s, schedule);
        StaysAmple(cfg, s, Run(cfg, s, schedule).value);
        NotStuck(cfg, Run(cfg, s, schedule).value);
      }
    }
  }
}
