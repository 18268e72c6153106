/** Runs as they are built step by step, and runs that cannot be continued. */
module Runs {
  import opened Wrappers
  import opened Domain
  import opened Protocol
  import opened ProtocolInvariants
  import opened MutualExclusion
  import opened Progress

  ghost predicate Leads(cfg: Config, s: State, t: State) {
    exists schedule :: Run(cfg, s, schedule) == Some(t)
  }

  lemma LeadsHere(cfg: Config, s: State)
    ensures Leads(cfg, s, s)
  {
    assert Run(cfg, s, []) == Some(s);
  }

  lemma RunExtends(cfg: Config, s: State, schedule: seq<nat>, c: nat)
    requires Run(cfg, s, schedule).Some? && c < |Run(cfg, s, schedule).value.callers|
    ensures Run(cfg, s, schedule + [c]) == Next(cfg, Run(cfg, s, schedule).value, c)
  {
    assert (schedule + [c])[..|schedule|] == schedule;
  }

  lemma Moves(cfg: Config, s0: State, s: State, c: nat) returns (t: State)
    requires Leads(cfg, s0, s) && c < |s.callers| && Next(cfg, s, c).Some?
    ensures Leads(cfg, s0, t) && Next(cfg, s, c) == Some(t)
  {
    t := Next(cfg, s, c).value;
    var schedule :| Run(cfg, s0, schedule) == Some(s);
    RunExtends(cfg, s0, schedule, c);
    assert Run(cfg, s0, schedule + [c]) == Some(t);
  }

  lemma LeadsInv(cfg: Config, s0: State, s: State)
    requires Init(s0) && Leads(cfg, s0, s)
    ensures Inv(cfg, s) && SameJobs(s0, s)
  {
    var schedule :| Run(cfg, s0, schedule) == Some(s);
    RunInv(cfg, s0, schedule);
  }

  // ---------- the end of a run ----------

  predicate NobodyMoves(cfg: Config, s: State) {
    forall c :: 0 <= c < |s.callers| ==> Next(cfg, s, c).None?
  }

  /** Every run can be continued until nobody can move. */
  lemma {:induction false} RunsOut(cfg: Config, s0: State, s: State, limit: nat) returns (t: State)
    requires Init(s0) && Leads(cfg, s0, s) && HandlersWithin(cfg, limit)
    ensures Leads(cfg, s0, t) && Leads(cfg, s, t) && NobodyMoves(cfg, t)
    decreases Total(Left(limit), s.callers)
  {
    LeadsHere(cfg, s);
    t := s;
    if c :| 0 <= c < |s.callers| && Next(cfg, s, c).Some? {
      LeadsInv(cfg, s0, s);
      StepLowersTotal(cfg, s, c, limit);
      var u := Moves(cfg, s0, s, c);
      t := RunsOut(cfg, s0, u, limit);
      LeadsFrom(cfg, s, u, t, c);
    }
  }

  /** A run behind a first step. */
  lemma LeadsFrom(cfg: Config, s: State, u: State, t: State, c: nat)
    requires c < |s.callers| && Next(cfg, s, c) == Some(u) && Leads(cfg, u, t)
    ensures Leads(cfg, s, t)
  {
    var schedule :| Run(cfg, u, schedule) == Some(t);
    RunPrepended(cfg, s, u, c, schedule);
  }

  lemma {:induction false} RunPrepended(cfg: Config, s: State, u: State, c: nat, schedule: seq<nat>)
    requires c < |s.callers| && Next(cfg, s, c) == Some(u) && Run(cfg, u, schedule).Some?
    ensures Run(cfg, s, [c] + schedule) == Run(cfg, u, schedule)
  {
    var all := [c] + schedule;
    if schedule == [] {
      assert all == [c] && [c][..0] == [];
      assert Run(cfg, s, []) == Some(s);
    } else {
      var n := |schedule| - 1;
      RunPrepended(cfg, s, u, c, schedule[..n]);
      assert all[..|all| - 1] == [c] + schedule[..n];
    }
  }

  /** The handlers of a config are finitely many. */
  lemma SomeLimit(cfg: Config) returns (limit: nat)
    ensures HandlersWithin(cfg, limit)
  {
    limit := 0;
    var left := cfg.controllers.Keys;
    while left != {}
      invariant left <= cfg.controllers.Keys
      invariant forall source :: source in cfg.controllers && source !in left ==>
                  forall ev :: ev in cfg.controllers[source] ==> |cfg.controllers[source][ev]| <= limit
      decreases |left|
    {
      var source :| source in left;
      var more := LimitOf(cfg.controllers[source]);
      limit, left := limit + more, left - {source};
    }
  }

  lemma LimitOf(handlers: map<EventType, seq<HandlerName>>) returns (limit: nat)
    ensures forall ev :: ev in handlers ==> |handlers[ev]| <= limit
  {
    limit := 0;
    var left := handlers.Keys;
    while left != {}
      invariant left <= handlers.Keys
      invariant forall ev :: ev in handlers && ev !in left ==> |handlers[ev]| <= limit
      decreases |left|
    {
      var ev :| ev in left;
      limit, left := limit + |handlers[ev]|, left - {ev};
    }
  }
}
