/** KindControllerManager: registration of handlers, and the handling of one event. */
module ControllerManager {
  import opened Wrappers
  import opened Domain
  import opened LockTable
  import opened AdvisoryLocks
  import opened Requests

  /** ControllerConfig: the handlers of one source. */
  datatype Config = Config(source: string, handlers: map<EventType, seq<HandlerName>>)

  function ListOf(handlers: map<EventType, seq<HandlerName>>, ev: EventType): seq<HandlerName> {
    if ev in handlers then handlers[ev] else []
  }

  function SourceOf(controllers: Controllers, source: string): map<EventType, seq<HandlerName>> {
    if source in controllers then controllers[source] else map[]
  }

  /** Each event type's list with the config's handlers behind it. */
  function Merged(before: map<EventType, seq<HandlerName>>, handlers: map<EventType, seq<HandlerName>>)
    : map<EventType, seq<HandlerName>>
  {
    map ev | ev in before.Keys + handlers.Keys :: ListOf(before, ev) + ListOf(handlers, ev)
  }

  /** The registrations after Add of a config, in whatever order its map is iterated. */
  function Added(controllers: Controllers, config: Config): Controllers {
    if config.handlers == map[] then controllers
    else controllers[config.source := Merged(SourceOf(controllers, config.source), config.handlers)]
  }

  lemma MergedOneMore(before: map<EventType, seq<HandlerName>>, handlers: map<EventType, seq<HandlerName>>,
                      ev: EventType, fns: seq<HandlerName>)
    requires ev !in handlers
    ensures Merged(before, handlers[ev := fns]) == Merged(before, handlers)[ev := ListOf(Merged(before, handlers), ev) + fns]
  {
    var after, now := Merged(before, handlers[ev := fns]), Merged(before, handlers);
    assert after.Keys == now.Keys + {ev};
    assert ListOf(now, ev) == ListOf(before, ev);
  }

  /** One more event type of a config. */
  lemma AddedOneMore(controllers: Controllers, config: Config, ev: EventType, fns: seq<HandlerName>)
    requires ev !in config.handlers
    ensures var now := Added(controllers, config);
            Added(controllers, config.(handlers := config.handlers[ev := fns])) ==
            now[config.source := SourceOf(now, config.source)[ev := ListOf(SourceOf(now, config.source), ev) + fns]]
  {
    var before := SourceOf(controllers, config.source);
    MergedOneMore(before, config.handlers, ev, fns);
    if config.handlers == map[] {
      assert forall x :: x in before ==> ListOf(before, x) + ListOf(config.handlers, x) == before[x];
      assert Merged(before, config.handlers) == before;
    }
    assert ev in config.handlers[ev := fns];
  }

  /** The registrations that a series of Add calls leads to. */
  function Registrations(configs: seq<Config>): Controllers {
    if configs == [] then map[]
    else Added(Registrations(configs[..|configs| - 1]), configs[|configs| - 1])
  }

  /** The handlers that the configs name for a source and event type, in the order of the Add calls. */
  function Concatenated(configs: seq<Config>, source: string, ev: EventType): seq<HandlerName> {
    if configs == [] then []
    else
      var last := configs[|configs| - 1];
      Concatenated(configs[..|configs| - 1], source, ev) +
      if last.source == source then ListOf(last.handlers, ev) else []
  }

  /** An event type has a list exactly when some config names it, and the list is the concatenation. */
  lemma {:induction false} AddsConcatenate(configs: seq<Config>, source: string, ev: EventType)
    ensures var controllers := Registrations(configs);
            && ListOf(SourceOf(controllers, source), ev) == Concatenated(configs, source, ev)
            && (source in controllers && ev in controllers[source] <==>
                exists i :: 0 <= i < |configs| && configs[i].source == source && ev in configs[i].handlers)
  {
    if configs != [] {
      var n := |configs| - 1;
      AddsConcatenate(configs[..n], source, ev);
      assert forall i :: 0 <= i < n ==> configs[..n][i] == configs[i];
    }
  }

  // ---------- what is run for an event ----------

  /** Some Add call names handlers for the source and the event type, be it none. */
  predicate Named(configs: seq<Config>, source: string, ev: EventType) {
    exists i :: 0 <= i < |configs| && configs[i].source == source && ev in configs[i].handlers
  }

  /** The handlers of the list, in order, up to the first one that returns an error. */
  predicate RunsUpTo(ran: seq<HandlerName>, list: seq<HandlerName>, failsAt: nat) {
    ran <= list && |ran| == if failsAt < |list| then failsAt else |list|
  }

  /**
   * What a session on event e runs and does to the events if the handlers were registered by these Add
   * calls: it runs what they name for the event's source and its own type.
   */
  predicate HandledBy(configs: seq<Config>, before: seq<Event>, after: seq<Event>, e: nat, found: bool,
                      failsAt: nat, save: Outcome, ran: seq<HandlerName>)
  {
    if found && e < |before| && Named(configs, before[e].source, before[e].eventType) then
      var list := Concatenated(configs, before[e].source, before[e].eventType);
      && RunsUpTo(ran, list, failsAt)
      && after == if |list| <= failsAt && save != Failed then before[e := before[e].(reconciled := true)] else before
    else ran == [] && after == before
  }

  /** The lookup in the registrations finds what the Add calls name for the event's source and type. */
  lemma {:induction false} LookupFindsNamed(configs: seq<Config>, e: Event)
    ensures HandlersOf(Registrations(configs), e) ==
            if Named(configs, e.source, e.eventType) then Some(Concatenated(configs, e.source, e.eventType)) else None
  {
    AddsConcatenate(configs, e.source, e.eventType);
  }

  class KindControllerManager {
    const lockFactory: AdvisoryLockFactory
    const tables: Tables
    const keyOf: nat -> Id
    var controllers: Controllers

    constructor (lockFactory: AdvisoryLockFactory, tables: Tables, keyOf: nat -> Id)
      ensures this.lockFactory == lockFactory && this.tables == tables && this.keyOf == keyOf
      ensures controllers == Registrations([])
    {
      this.lockFactory, this.tables, this.keyOf, controllers := lockFactory, tables, keyOf, map[];
    }

    method Add(config: Config)
      modifies this`controllers
      ensures controllers == Added(old(controllers), config)
    {
      var left := config.handlers.Keys;
      ghost var done: map<EventType, seq<HandlerName>> := map[];
      while left != {}
        invariant left <= config.handlers.Keys
        invariant done == map ev | ev in config.handlers.Keys - left :: config.handlers[ev]
        invariant controllers == Added(old(controllers), Config(config.source, done))
        decreases left
      {
        var ev :| ev in left;  // Go iterates the map in no particular order
        AddedOneMore(old(controllers), Config(config.source, done), ev, config.handlers[ev]);
        AddOne(config.source, ev, config.handlers[ev]);
        left, done := left - {ev}, done[ev := config.handlers[ev]];
      }
      assert done == config.handlers;
    }

    /** add: creates what is missing and appends the functions one by one. */
    method AddOne(source: string, ev: EventType, fns: seq<HandlerName>)
      modifies this`controllers
      ensures var before := SourceOf(old(controllers), source);
              controllers == old(controllers)[source := before[ev := ListOf(before, ev) + fns]]
    {
      ghost var before := SourceOf(controllers, source);
      if source !in controllers {
        controllers := controllers[source := map[]];
      }
      if ev !in controllers[source] {
        controllers := controllers[source := controllers[source][ev := []]];
      }
      for i := 0 to |fns|
        invariant source in controllers && controllers == old(controllers)[source := controllers[source]]
        invariant ev in controllers[source] && controllers[source] == before[ev := controllers[source][ev]]
        invariant controllers[source][ev] == ListOf(before, ev) + fns[..i]
      {
        assert fns[..i + 1] == fns[..i] + [fns[i]];
        controllers := controllers[source := controllers[source][ev := controllers[source][ev] + [fns[i]]]];
      }
      assert fns[..|fns|] == fns;
    }

    /** What handle finds to run for event e. */
    ghost function Plan(e: nat, getOk: bool): Option<seq<HandlerName>>
      reads this, tables
    {
      if getOk && e < |tables.events| then HandlersOf(controllers, tables.events[e]) else None
    }

    /** The events after a session that found this plan. */
    ghost function EventsAfter(e: nat, plan: Option<seq<HandlerName>>, failsAt: nat, save: Outcome): seq<Event>
      reads tables
    {
      if plan.Some? && e < |tables.events| && failsAt >= |plan.value| && save != Failed
      then tables.events[e := tables.events[e].(reconciled := true)]
      else tables.events
    }

    /** HandledBy, for whatever Add calls the manager's registrations come from. */
    twostate predicate HandledAsNamed(e: nat, found: bool, failsAt: nat, save: Outcome, ran: seq<HandlerName>)
      reads this, tables
    {
      forall configs :: old(controllers) == Registrations(configs) ==>
        HandledBy(configs, old(tables.events), tables.events, e, found, failsAt, save, ran)
    }

    /** The try of the event's lock is granted. */
    ghost predicate Acquires(e: nat, beginOk: bool, lockOk: bool)
      reads lockFactory.connection
    {
      beginOk && lockOk && !Held(lockFactory.connection.locks, lockFactory.hash, keyOf(e), "events")
    }

    /**
     * Handle: the registry and the lock table are left as they were found, whatever the lock call
     * answered; the handlers run in order up to the first error, and only if there was none is the
     * event's date set.
     */
    method Handle(e: nat, uuid: Uuid, beginOk: bool, lockOk: bool, getOk: bool, failsAt: nat, save: Outcome)
      returns (ran: seq<HandlerName>)
      requires lockFactory.Valid() && uuid != "" && uuid !in lockFactory.locks
      modifies lockFactory`locks, lockFactory.connection, tables`events
      ensures lockFactory.Valid()
      ensures lockFactory.locks == old(lockFactory.locks)
      ensures lockFactory.connection.locks == old(lockFactory.connection.locks)
      ensures lockFactory.connection.open == old(lockFactory.connection.open)
                + (if beginOk && !lockOk then {old(lockFactory.connection.next)} else {})
      ensures var acquired := old(Acquires(e, beginOk, lockOk));
              var plan := if acquired then old(Plan(e, getOk)) else None;
              && ran == (if plan.Some? then RanHandlers(plan.value, failsAt) else [])
              && tables.events == old(EventsAfter(e, plan, failsAt, save))
      ensures HandledAsNamed(e, getOk && old(Acquires(e, beginOk, lockOk)), failsAt, save, ran)
    {
      ran := [];
      var owner, acquired := TryLock(e, uuid, beginOk, lockOk);
      if acquired {
        ReleaseUndoesGrant(old(lockFactory.connection.locks), KeyFor(lockFactory.hash, keyOf(e), EVENTS_LOCK_TYPE),
                           old(lockFactory.connection.next));
        ran := HandleAndUnlock(e, owner, getOk, failsAt, save);
      }
    }

    /** The try of the event's lock; if it is not granted, the deferred Unlock follows at once. */
    method TryLock(e: nat, uuid: Uuid, beginOk: bool, lockOk: bool) returns (owner: Uuid, acquired: bool)
      requires lockFactory.Valid() && uuid != "" && uuid !in lockFactory.locks
      modifies lockFactory`locks, lockFactory.connection
      ensures lockFactory.Valid()
      ensures acquired <==> old(Acquires(e, beginOk, lockOk))
      ensures !acquired ==>
                && lockFactory.locks == old(lockFactory.locks)
                && lockFactory.connection.locks == old(lockFactory.connection.locks)
                && lockFactory.connection.open == old(lockFactory.connection.open)
                     + (if beginOk && !lockOk then {old(lockFactory.connection.next)} else {})
      ensures acquired ==>
                && owner == uuid && uuid in lockFactory.locks && fresh(lockFactory.locks[uuid])
                && lockFactory.locks == old(lockFactory.locks)[uuid := lockFactory.locks[uuid]]
                && lockFactory.locks[uuid].g2 == Some(old(lockFactory.connection.next))
                && KeyFor(lockFactory.hash, keyOf(e), EVENTS_LOCK_TYPE) !in old(lockFactory.connection.locks)
                && lockFactory.connection.locks ==
                   Grant(old(lockFactory.connection.locks), KeyFor(lockFactory.hash, keyOf(e), EVENTS_LOCK_TYPE),
                         old(lockFactory.connection.next))
                && lockFactory.connection.open == old(lockFactory.connection.open) + {old(lockFactory.connection.next)}
    {
      HeldIff(lockFactory.connection.locks, lockFactory.hash, keyOf(e), EVENTS_LOCK_TYPE);
      ReleaseUndoesGrant(lockFactory.connection.locks, KeyFor(lockFactory.hash, keyOf(e), EVENTS_LOCK_TYPE),
                         lockFactory.connection.next);
      var err;
      owner, acquired, err := lockFactory.NewNonBlockingLock(uuid, keyOf(e), EVENTS_LOCK_TYPE, beginOk, lockOk);
      if !acquired {
        lockFactory.Unlock(owner);
      }
    }

    /** handle, followed by the deferred Unlock. */
    method HandleAndUnlock(e: nat, owner: Uuid, getOk: bool, failsAt: nat, save: Outcome)
      returns (ran: seq<HandlerName>)
      requires lockFactory.Valid() && owner in lockFactory.locks
      modifies lockFactory`locks, lockFactory.connection, tables`events, lockFactory.locks[owner]
      ensures lockFactory.Valid() && lockFactory.locks == old(lockFactory.locks) - {owner}
      ensures var tx := old(lockFactory.locks[owner].g2.value);
              && lockFactory.connection.open == old(lockFactory.connection.open) - {tx}
              && lockFactory.connection.locks == Release(old(lockFactory.connection.locks), tx)
      ensures var plan := old(Plan(e, getOk));
              && ran == (if plan.Some? then RanHandlers(plan.value, failsAt) else [])
              && tables.events == old(EventsAfter(e, plan, failsAt, save))
      ensures HandledAsNamed(e, getOk, failsAt, save, ran)
    {
      ran := HandleLocked(e, getOk, failsAt, save);
      lockFactory.Unlock(owner);
    }

    /** handle: failsAt is the place of the first handler that returns an error. */
    method HandleLocked(e: nat, getOk: bool, failsAt: nat, save: Outcome) returns (ran: seq<HandlerName>)
      modifies tables`events
      ensures var plan := old(Plan(e, getOk));
              && ran == (if plan.Some? then RanHandlers(plan.value, failsAt) else [])
              && tables.events == old(EventsAfter(e, plan, failsAt, save))
      ensures HandledAsNamed(e, getOk, failsAt, save, ran)
    {
      ran := [];
      if !getOk || e >= |tables.events| {
        return;
      }
      var event := tables.events[e];
      forall configs | controllers == Registrations(configs)
        ensures HandlersOf(controllers, event) ==
                if Named(configs, event.source, event.eventType)
                then Some(Concatenated(configs, event.source, event.eventType)) else None
      {
        LookupFindsNamed(configs, event);
      }
      if event.source !in controllers {
        return;
      }
      var source := controllers[event.source];
      if event.eventType !in source {
        return;
      }
      var handlerFns := source[event.eventType];
      for i := 0 to |handlerFns|
        invariant i <= failsAt && ran == handlerFns[..i]
        invariant tables.events == old(tables.events)
      {
        if i == failsAt {
          return;
        }
        assert handlerFns[..i + 1] == handlerFns[..i] + [handlerFns[i]];
        ran := ran + [handlerFns[i]];
      }
      event := event.(reconciled := true);
      if save != Failed {
        tables.events := tables.events[e := event];
      }
    }
  }
}
