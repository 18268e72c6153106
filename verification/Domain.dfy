/** The rows and messages that the lock protocol, the services and the controllers share. */
module Domain {
  import opened Wrappers

  type Id = string
  type Species = string
  type HandlerName = string

  /** api.EventType: the three kinds of event that the services emit. */
  datatype EventType = CreateEvent | UpdateEvent | DeleteEvent

  /** api.Event; only whether ReconciledDate is nil is kept of the date. */
  datatype Event = Event(source: string, sourceId: Id, eventType: EventType, reconciled: bool)

  /** KindControllerManager.controllers: handlers by event source, then by event type. */
  type Controllers = map<string, map<EventType, seq<HandlerName>>>

  /** The handlers that handle looks up for an event. */
  function HandlersOf(controllers: Controllers, e: Event): Option<seq<HandlerName>> {
    if e.source in controllers && e.eventType in controllers[e.source]
    then Some(controllers[e.source][e.eventType]) else None
  }

  /** The handlers that return nil when handler failsAt is the first to return an error. */
  function RanHandlers(plan: seq<HandlerName>, failsAt: nat): seq<HandlerName> {
    if failsAt < |plan| then plan[..failsAt] else plan
  }

  const DINOSAURS := "Dinosaurs"
  const DINOSAURS_LOCK_TYPE := "dinosaurs"
  const EVENTS_LOCK_TYPE := "events"

  /** What became of one auto-committed write: an error may be reported although the write was applied. */
  datatype Outcome = Ok | Failed | Unacknowledged

  /** The event that Replace emits for a changed dinosaur. */
  function UpdateOf(id: Id): Event {
    Event(DINOSAURS, id, UpdateEvent, false)
  }

  /** How many update events of dinosaur id the table holds. */
  function Updates(events: seq<Event>, id: Id): nat {
    if events == [] then 0
    else
      var last := events[|events| - 1];
      Updates(events[..|events| - 1], id) +
      if last.source == DINOSAURS && last.sourceId == id && last.eventType == UpdateEvent then 1 else 0
  }

  lemma UpdatesAppend(events: seq<Event>, e: Event, id: Id)
    ensures Updates(events + [e], id) ==
            Updates(events, id) +
            if e.source == DINOSAURS && e.sourceId == id && e.eventType == UpdateEvent then 1 else 0
  {
    assert (events + [e])[..|events|] == events;
  }

  /** Setting an event's date does not change what is counted. */
  lemma {:induction false} UpdatesOverwrite(events: seq<Event>, i: nat, id: Id)
    requires i < |events|
    ensures Updates(events[i := events[i].(reconciled := true)], id) == Updates(events, id)
  {
    var after := events[i := events[i].(reconciled := true)];
    var n := |events| - 1;
    if i == n {
      assert after[..n] == events[..n];
    } else {
      UpdatesOverwrite(events[..n], i, id);
      assert after[..n] == events[..n][i := events[i].(reconciled := true)];
    }
  }
}
