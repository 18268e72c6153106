/**
 * With DisableAdvisoryLock set, two updates of a dinosaur can emit two events for one change: for
 * every race there is a run that does, so having no race is exactly what the match needs.
 */
module UnlockedRace {
  import opened Wrappers
  import opened Domain
  import LockTable
  import opened Replacing
  import opened Protocol
  import opened Runs
  import opened Serialization
  import opened UnlockedUpdates

  /** Connections that a call on a dinosaur keeps until it ends. */
  function Held(k: Caller): nat
    requires k.job.Patch?
  {
    if k.job.mode == Unlocked then 1 else 2
  }

  /** The call k when it is about to send a statement. */
  function Sending(k: Caller, op: Op): Caller
    requires k.job.Patch?
  {
    k.(outer := Open, lock := if k.job.mode == Unlocked then NoLock else Owner, pc := Want(op))
  }

  /** The process of caller c can use n more connections. */
  predicate Has(cfg: Config, s: State, c: nat, n: nat)
    requires c < |s.callers|
  {
    Allows(cfg, s.callers[c].factory, Used(s.conns, s.callers[c].factory) + n)
  }

  // ---------- the steps of one call ----------

  lemma Begins(cfg: Config, s: State, c: nat)
    requires c < |s.callers| && s.callers[c].pc == Idle && Free(cfg, s, s.callers[c].factory)
    requires s.callers[c].job.Patch? && Faultless(s.callers[c].faults)
    ensures var k := s.callers[c];
            Next(cfg, s, c) == Some(
              With(s, c, k.(outer := Open, pc := if k.job.mode == Unlocked then Want(Get) else OpenLock))
              .(conns := TakeOne(s.conns, k.factory)))
  {
  }

  lemma OpensLock(cfg: Config, s: State, c: nat)
    requires c < |s.callers| && s.callers[c].pc == OpenLock && Faultless(s.callers[c].faults)
    requires Free(cfg, s, s.callers[c].factory)
    ensures Next(cfg, s, c) == Some(
              With(s, c, s.callers[c].(lock := Begun, pc := AwaitLock))
              .(conns := TakeOne(s.conns, s.callers[c].factory), txs := s.txs + {c}))
  {
  }

  lemma IsGranted(cfg: Config, s: State, c: nat)
    requires c < |s.callers| && s.callers[c].pc == AwaitLock && Faultless(s.callers[c].faults)
    requires KeyOf(cfg, s.callers[c].job) !in s.locks
    ensures Next(cfg, s, c) == Some(
              With(s, c, s.callers[c].(lock := Granted, pc := Register))
              .(locks := LockTable.Grant(s.locks, KeyOf(cfg, s.callers[c].job), c),
                history := NoteGrant(s.history, s.callers[c].job, c)))
  {
  }

  lemma Registers(cfg: Config, s: State, c: nat)
    requires c < |s.callers| && s.callers[c].pc == Register && s.callers[c].lock == Granted
    ensures Next(cfg, s, c) == Some(
              With(s, c, s.callers[c].(lock := Owner, pc := Want(Get)))
              .(registry := s.registry + {(s.callers[c].factory, c)}))
  {
  }

  /** The process uses that many connections more, and every other process as many as before. */
  ghost predicate UsesMore(s: State, t: State, process: nat, more: int) {
    forall f: nat :: Used(t.conns, f) == Used(s.conns, f) + if f == process then more else 0
  }

  /** What others may see of the moves from s to t: of caller c, the pools, the locks and the dinosaur. */
  ghost predicate Shows(s: State, t: State, c: nat, k': Caller, more: int, locks: LockTable.Locks, id: Id, v: View)
    requires c < |s.callers|
  {
    && t.callers == s.callers[c := k'] && UsesMore(s, t, s.callers[c].factory, more)
    && t.locks == locks && ViewOf(t, id) == v
  }

  /** A fresh call gets its outer transaction and, if it takes one, the lock. */
  lemma Starts(cfg: Config, s0: State, s: State, c: nat, id: Id) returns (t: State)
    requires Leads(cfg, s0, s) && c < |s.callers| && Fresh(s.callers[c])
    requires On(s.callers[c], id) && Faultless(s.callers[c].faults)
    requires s.locks == map[] && Has(cfg, s, c, Held(s.callers[c]))
    ensures Leads(cfg, s0, t)
    ensures var k := s.callers[c];
            && Shows(s, t, c, Sending(k, Get), Held(k),
                     if k.job.mode == Unlocked then map[] else map[KeyOf(cfg, k.job) := c], id, ViewOf(s, id))
            && (k.job.mode != Unlocked ==> (k.factory, c) in t.registry)
  {
    var k := s.callers[c];
    Begins(cfg, s, c);
    t := Moves(cfg, s0, s, c);
    if k.job.mode != Unlocked {
      t := Locks(cfg, s0, t, c, id);
    }
  }

  lemma Locks(cfg: Config, s0: State, s: State, c: nat, id: Id) returns (t: State)
    requires Leads(cfg, s0, s) && c < |s.callers| && s.callers[c].pc == OpenLock && Faultless(s.callers[c].faults)
    requires s.locks == map[] && Has(cfg, s, c, 1)
    ensures Leads(cfg, s0, t)
    ensures var k := s.callers[c];
            && Shows(s, t, c, k.(lock := Owner, pc := Want(Get)), 1, map[KeyOf(cfg, k.job) := c], id, ViewOf(s, id))
            && (k.factory, c) in t.registry
  {
    OpensLock(cfg, s, c);
    t := Moves(cfg, s0, s, c);
    IsGranted(cfg, t, c);
    t := Moves(cfg, s0, t, c);
    Registers(cfg, t, c);
    t := Moves(cfg, s0, t, c);
  }

  lemma Connects(cfg: Config, s: State, c: nat)
    requires c < |s.callers| && s.callers[c].pc.Want? && Free(cfg, s, s.callers[c].factory)
    ensures Next(cfg, s, c) == Some(
              With(s, c, s.callers[c].(pc := In(s.callers[c].pc.op))).(conns := TakeOne(s.conns, s.callers[c].factory)))
  {
  }

  lemma Executes(cfg: Config, s: State, c: nat, id: Id)
    requires c < |s.callers| && On(s.callers[c], id) && s.callers[c].pc.In?
    ensures var k := s.callers[c];
            && Next(cfg, s, c) == Some(PatchOp(s, c, k.pc.op))
            && Shows(s, PatchOp(s, c, k.pc.op), c, AfterPatchOp(k, k.pc.op, RowOf(s, id)), -1, s.locks, id,
                     StatementView(ViewOf(s, id), k, k.pc.op))
            && PatchOp(s, c, k.pc.op).registry == s.registry
  {
    var k := s.callers[c];
    WriteShows(s, c, k.pc.op, AfterPatchOp(k, k.pc.op, RowOf(s, id)), id);
  }

  /** One statement, on a connection of its own. */
  lemma Sends(cfg: Config, s0: State, s: State, c: nat, id: Id) returns (t: State)
    requires Leads(cfg, s0, s) && c < |s.callers| && On(s.callers[c], id) && s.callers[c].pc.Want?
    requires Has(cfg, s, c, 1)
    ensures Leads(cfg, s0, t) && t.registry == s.registry
    ensures var k := s.callers[c];
            Shows(s, t, c, AfterPatchOp(k.(pc := In(k.pc.op)), k.pc.op, RowOf(s, id)), 0, s.locks, id,
                  StatementView(ViewOf(s, id), k, k.pc.op))
  {
    Connects(cfg, s, c);
    t := Moves(cfg, s0, s, c);
    Executes(cfg, t, c, id);
    t := Moves(cfg, s0, t, c);
  }

  /** A fresh call reads another species than its own. */
  lemma ReadsOther(cfg: Config, s0: State, s: State, c: nat, id: Id) returns (t: State)
    requires Leads(cfg, s0, s) && c < |s.callers| && Fresh(s.callers[c])
    requires On(s.callers[c], id) && Faultless(s.callers[c].faults)
    requires s.locks == map[] && Has(cfg, s, c, Held(s.callers[c]) + 1)
    requires RowOf(s, id).Some? && RowOf(s, id) != Some(s.callers[c].job.want)
    ensures Leads(cfg, s0, t)
    ensures var k := s.callers[c];
            && Shows(s, t, c, Sending(k, Save), Held(k),
                     if k.job.mode == Unlocked then map[] else map[KeyOf(cfg, k.job) := c], id, ViewOf(s, id))
            && (k.job.mode != Unlocked ==> (k.factory, c) in t.registry)
  {
    t := Starts(cfg, s0, s, c, id);
    t := Sends(cfg, s0, t, c, id);
  }

  /** What the row, the events and the changes become when a call that has read another species goes on. */
  function Emitted(v: View, want: Species): View {
    v.(row := Some(want), changes := v.changes + (if v.row == Some(want) then 0 else 1), updates := v.updates + 1)
  }

  /** The event is stored and announced. */
  lemma Announces(cfg: Config, s0: State, s: State, c: nat, id: Id) returns (t: State)
    requires Leads(cfg, s0, s) && c < |s.callers| && On(s.callers[c], id) && Faultless(s.callers[c].faults)
    requires s.callers[c].pc == Want(Insert) && Has(cfg, s, c, 1)
    ensures Leads(cfg, s0, t) && t.registry == s.registry
    ensures var k := s.callers[c];
            Shows(s, t, c, Return(k, Updated), 0, s.locks, id, ViewOf(s, id).(updates := ViewOf(s, id).updates + 1))
  {
    t := Sends(cfg, s0, s, c, id);
    t := Sends(cfg, s0, t, c, id);
  }

  /** From the write of the species to the announced event. */
  lemma Writes(cfg: Config, s0: State, s: State, c: nat, id: Id) returns (t: State)
    requires Leads(cfg, s0, s) && c < |s.callers| && On(s.callers[c], id) && Faultless(s.callers[c].faults)
    requires s.callers[c].pc == Want(Save) && Has(cfg, s, c, 1)
    ensures Leads(cfg, s0, t) && t.registry == s.registry
    ensures var k := s.callers[c];
            Shows(s, t, c, Return(k, Updated), 0, s.locks, id, Emitted(ViewOf(s, id), k.job.want))
  {
    t := Sends(cfg, s0, s, c, id);
    t := Announces(cfg, s0, t, c, id);
  }

  /** The call k after everything. */
  function Finished(k: Caller): Caller
    requires k.job.Patch?
  {
    k.(outer := Committed, lock := if k.job.mode == Unlocked then NoLock else Closed, pc := Done, reply := Updated)
  }

  lemma Unlocks(cfg: Config, s0: State, s: State, c: nat, id: Id) returns (t: State)
    requires Leads(cfg, s0, s) && c < |s.callers| && On(s.callers[c], id) && s.callers[c].pc == Unlock
    requires (s.callers[c].factory, c) in s.registry
    ensures Leads(cfg, s0, t)
    ensures Shows(s, t, c, s.callers[c].(lock := Closed, pc := Resolve), -1, LockTable.Release(s.locks, c), id,
                  ViewOf(s, id))
  {
    t := Moves(cfg, s0, s, c);
    t := Moves(cfg, s0, t, c);
  }

  lemma Resolves(cfg: Config, s0: State, s: State, c: nat, id: Id) returns (t: State)
    requires Leads(cfg, s0, s) && c < |s.callers| && s.callers[c].pc == Resolve && !s.callers[c].marked
    ensures Leads(cfg, s0, t)
    ensures Shows(s, t, c, s.callers[c].(outer := Committed, pc := Done), -1, s.locks, id, ViewOf(s, id))
  {
    t := Moves(cfg, s0, s, c);
  }

  /** The lock, if the call took one, and then the outer transaction are given back. */
  lemma Ends(cfg: Config, s0: State, s: State, c: nat, id: Id) returns (t: State)
    requires Leads(cfg, s0, s) && c < |s.callers| && On(s.callers[c], id) && !s.callers[c].marked
    requires var k := s.callers[c];
             if k.job.mode == Unlocked then s.locks == map[] && k.pc == Resolve
             else s.locks == map[KeyOf(cfg, k.job) := c] && (k.factory, c) in s.registry && k.pc == Unlock
    ensures Leads(cfg, s0, t)
    ensures var k := s.callers[c];
            Shows(s, t, c, k.(outer := Committed, lock := if k.job.mode == Unlocked then k.lock else Closed, pc := Done),
                  0 - Held(k), map[], id, ViewOf(s, id))
  {
    t := s;
    if s.callers[c].job.mode != Unlocked {
      t := Unlocks(cfg, s0, t, c, id);
      assert t.locks == map[];
    }
    t := Resolves(cfg, s0, t, c, id);
  }

  /** From the write of the species to the end of the request. */
  lemma Finishes(cfg: Config, s0: State, s: State, c: nat, id: Id) returns (t: State)
    requires Leads(cfg, s0, s) && c < |s.callers| && On(s.callers[c], id) && Faultless(s.callers[c].faults)
    requires s.callers[c] == Sending(s.callers[c], Save) && !s.callers[c].marked && Has(cfg, s, c, 1)
    requires var k := s.callers[c];
             if k.job.mode == Unlocked then s.locks == map[]
             else s.locks == map[KeyOf(cfg, k.job) := c] && (k.factory, c) in s.registry
    ensures Leads(cfg, s0, t)
    ensures var k := s.callers[c];
            Shows(s, t, c, Finished(k), 0 - Held(k), map[], id, Emitted(ViewOf(s, id), k.job.want))
  {
    t := Writes(cfg, s0, s, c, id);
    t := Ends(cfg, s0, t, c, id);
  }

  /** A whole call that finds another species, while nobody has the lock. */
  lemma Completes(cfg: Config, s0: State, s: State, c: nat, id: Id) returns (t: State)
    requires Leads(cfg, s0, s) && c < |s.callers| && Fresh(s.callers[c])
    requires On(s.callers[c], id) && Faultless(s.callers[c].faults)
    requires s.locks == map[] && Has(cfg, s, c, Held(s.callers[c]) + 1)
    requires RowOf(s, id).Some? && RowOf(s, id) != Some(s.callers[c].job.want)
    ensures Leads(cfg, s0, t)
    ensures Shows(s, t, c, Finished(s.callers[c]), 0, map[], id, Emitted(ViewOf(s, id), s.callers[c].job.want))
  {
    t := ReadsOther(cfg, s0, s, c, id);
    t := Finishes(cfg, s0, t, c, id);
  }

  // ---------- the race ----------

  /** c reads, d updates, and c writes what is already there: two events, one change. */
  lemma Races(cfg: Config, s0: State, s: State, c: nat, d: nat, id: Id) returns (t: State)
    requires Leads(cfg, s0, s) && c < |s.callers| && d < |s.callers| && c != d
    requires Fresh(s.callers[c]) && On(s.callers[c], id) && Faultless(s.callers[c].faults)
    requires Fresh(s.callers[d]) && On(s.callers[d], id) && Faultless(s.callers[d].faults)
    requires s.callers[c].job.mode == Unlocked && s.callers[c].job.want == s.callers[d].job.want
    requires s.locks == map[] && (forall f: nat :: Used(s.conns, f) == 0)
    requires Has(cfg, s, c, 2) && Has(cfg, s, d, Held(s.callers[d]) + 2)
    requires RowOf(s, id).Some? && RowOf(s, id) != Some(s.callers[c].job.want)
    ensures Leads(cfg, s0, t)
    ensures t.callers == s.callers[c := Finished(s.callers[c])][d := Finished(s.callers[d])]
    ensures ViewOf(t, id) == ViewOf(s, id).(row := Some(s.callers[c].job.want),
                                            changes := ViewOf(s, id).changes + 1, updates := ViewOf(s, id).updates + 2)
  {
    t := ReadsOther(cfg, s0, s, c, id);
    t := Completes(cfg, s0, t, d, id);
    t := Finishes(cfg, s0, t, c, id);
    assert t.callers == s.callers[c := Finished(s.callers[c])][d := Finished(s.callers[d])];
  }

  /** Everybody is as fresh as in s or has finished; then the dinosaur is settled. */
  lemma SettledWhenDone(s: State, t: State, id: Id)
    requires Init(s) && |t.callers| == |s.callers|
    requires forall i :: 0 <= i < |t.callers| ==> t.callers[i].pc == Done || t.callers[i] == s.callers[i]
    ensures AllSettled(t, id)
  {
  }

  /** Every process can use four connections. */
  ghost predicate Roomy(cfg: Config) {
    forall f: nat :: Allows(cfg, f, 4)
  }

  lemma RoomyHas(cfg: Config, s: State, c: nat, n: nat)
    requires Roomy(cfg) && c < |s.callers| && Used(s.conns, s.callers[c].factory) == 0 && n <= 4
    ensures Has(cfg, s, c, n)
  {
    assert Allows(cfg, s.callers[c].factory, 4);
  }

  /** If two calls race for a species that the row does not have, there is a run that loses the match. */
  lemma RaceFromHere(cfg: Config, s: State, c: nat, d: nat, id: Id) returns (schedule: seq<nat>)
    requires Init(s) && FaultFree(s, id) && id in s.rows && Roomy(cfg)
    requires Racing(s, id, c, d) && RowOf(s, id) != Some(s.callers[c].job.want)
    ensures Run(cfg, s, schedule).Some?
    ensures var t := Run(cfg, s, schedule).value; AllSettled(t, id) && !EventsMatch(s, t, id)
  {
    LeadsHere(cfg, s);
    RoomyHas(cfg, s, c, 2);
    RoomyHas(cfg, s, d, Held(s.callers[d]) + 2);
    var t := Races(cfg, s, s, c, d, id);
    SettledWhenDone(s, t, id);
    schedule :| Run(cfg, s, schedule) == Some(t);
    assert ViewOf(t, id).changes == 1;
  }

  /** A call changes the species before anybody else has begun. */
  lemma ChangesFirst(cfg: Config, s: State, e: nat, id: Id) returns (t: State)
    requires Init(s) && FaultFree(s, id) && id in s.rows && Roomy(cfg)
    requires e < |s.callers| && On(s.callers[e], id) && RowOf(s, id) != Some(s.callers[e].job.want)
    ensures Leads(cfg, s, t)
    ensures Shows(s, t, e, Finished(s.callers[e]), 0, map[], id, Emitted(ViewOf(s, id), s.callers[e].job.want))
  {
    LeadsHere(cfg, s);
    RoomyHas(cfg, s, e, Held(s.callers[e]) + 1);
    t := Completes(cfg, s, s, e, id);
  }

  /** If the row has the species first, another call can change it before the two race. */
  lemma RaceAfterChange(cfg: Config, s: State, c: nat, d: nat, e: nat, id: Id) returns (schedule: seq<nat>)
    requires Init(s) && FaultFree(s, id) && id in s.rows && Roomy(cfg)
    requires Racing(s, id, c, d) && RowOf(s, id) == Some(s.callers[c].job.want)
    requires e < |s.callers| && On(s.callers[e], id) && s.callers[e].job.want != s.callers[c].job.want
    ensures Run(cfg, s, schedule).Some?
    ensures var t := Run(cfg, s, schedule).value; AllSettled(t, id) && !EventsMatch(s, t, id)
  {
    var u := ChangesFirst(cfg, s, e, id);
    RoomyHas(cfg, u, c, 2);
    RoomyHas(cfg, u, d, Held(u.callers[d]) + 2);
    var t := Races(cfg, s, u, c, d, id);
    SettledWhenDone(s, t, id);
    schedule :| Run(cfg, s, schedule) == Some(t);
    assert ViewOf(t, id).changes == 2 && ViewOf(t, id).updates == ViewOf(s, id).updates + 3;
  }

  lemma RacesLoseTheMatch(cfg: Config, s: State, id: Id) returns (schedule: seq<nat>)
    requires Init(s) && FaultFree(s, id) && id in s.rows && Roomy(cfg) && Racy(s, id)
    ensures Run(cfg, s, schedule).Some?
    ensures var t := Run(cfg, s, schedule).value; AllSettled(t, id) && !EventsMatch(s, t, id)
  {
    var c: nat, d: nat :| Racing(s, id, c, d);
    if RowOf(s, id) != Some(s.callers[c].job.want) {
      schedule := RaceFromHere(cfg, s, c, d, id);
    } else {
      var e :| 0 <= e < |s.callers| && On(s.callers[e], id) && s.callers[e].job.want != s.callers[c].job.want;
      schedule := RaceAfterChange(cfg, s, c, d, e, id);
    }
  }

  /**
   * Without faults, in pools of at least four connections, every run of the calls on a dinosaur has
   * one update event for each real change if and only if no two of them, one without the lock, ask
   * for one species while the row has another or some call asks for another.
   */
  lemma {:induction false} EventsMatchIffNotRacy(cfg: Config, s: State, id: Id)
    requires Init(s) && FaultFree(s, id) && id in s.rows && Roomy(cfg)
    ensures !Racy(s, id) <==>
            forall schedule :: Run(cfg, s, schedule).Some? && AllSettled(Run(cfg, s, schedule).value, id) ==>
              EventsMatch(s, Run(cfg, s, schedule).value, id)
  {
    if Racy(s, id) {
      var schedule := RacesLoseTheMatch(cfg, s, id);
    } else {
      forall schedule | Run(cfg, s, schedule).Some? && AllSettled(Run(cfg, s, schedule).value, id)
        ensures EventsMatch(s, Run(cfg, s, schedule).value, id)
      {
        WithoutRaceEventsMatch(cfg, s, schedule, id);
      }
    }
  }

  // ---------- an instance ----------

  const UNLOCKED := Caller(
    Patch("d", "new", Unlocked), 0, NO_FAULTS, Idle, NoLock, NotBegun, false, NoReply, [], [], {}, false)
  const START := State(
    [UNLOCKED, UNLOCKED], map[], {}, map[], {}, map["d" := "old"], [], History(map[], multiset{}, multiset{}, map[]))

  /**
   * Without the lock the match of events and changes is lost: a run without any database error
   * ends with one change of the species and two update events.
   */
  lemma UnlockedUpdatesDuplicateEvents(cfg: Config)
    requires Allows(cfg, 0, 3)
    ensures exists s: State, schedule: seq<nat> ::
              && Init(s) && Run(cfg, s, schedule).Some?
              && var t := Run(cfg, s, schedule).value;
                 && (forall c :: 0 <= c < |t.callers| ==> t.callers[c].pc == Done && t.callers[c].reply == Updated)
                 && t.history.changes["d"] == 1
                 && Updates(t.events, "d") == Updates(s.events, "d") + 2
  {
    LeadsHere(cfg, START);
    var t := Races(cfg, START, START, 0, 1, "d");
    assert ViewOf(t, "d").changes == 1;
    var schedule :| Run(cfg, START, schedule) == Some(t);
    assert Init(START);
  }
}
