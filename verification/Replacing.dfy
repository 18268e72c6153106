/**
 * The effect of one call of sqlDinosaurService.Replace when nothing else touches its dinosaur.
 * The service method is proved against it (Requests), and so is every interleaving of the
 * lock protocol (Serialization).
 */
module Replacing {
  import opened Wrappers
  import opened Domain

  /** What the database answers to the four statements of one call. */
  datatype DaoFaults = DaoFaults(getOk: bool, save: Outcome, insert: Outcome, notifyOk: bool)

  /** How a call of Replace ends. */
  datatype Reply =
    | NoReply           // not answered yet
    | NoTransaction     // the request's outer transaction could not be started
    | LockError         // DatabaseAdvisoryLock
    | RowLocked         // the non-blocking lock was refused
    | GetError          // no such dinosaur, or the read failed
    | Unchanged         // the species was already the requested one
    | UpdateError       // the row could not be written
    | EventError        // the event could not be stored or announced
    | Updated

  /**
   * One dinosaur as seen from outside: its row, the number of update events emitted for it, how
   * often its species really changed, and how many calls on it returned an error.
   */
  datatype View = View(row: Option<Species>, updates: nat, changes: nat, failures: nat)

  function Replace(v: View, want: Species, faults: DaoFaults): (View, Reply) {
    if !faults.getOk || v.row.None? then
      (v.(failures := v.failures + 1), GetError)
    else if v.row.value == want then
      (v, Unchanged)
    else if faults.save == Failed then
      (v.(failures := v.failures + 1), UpdateError)
    else
      var saved := v.(row := Some(want), changes := v.changes + 1);
      if faults.save == Unacknowledged then
        (saved.(failures := v.failures + 1), UpdateError)
      else if faults.insert == Failed then
        (saved.(failures := v.failures + 1), EventError)
      else
        var emitted := saved.(updates := v.updates + 1);
        if faults.insert == Unacknowledged || !faults.notifyOk then
          (emitted.(failures := v.failures + 1), EventError)
        else
          (emitted, Updated)
  }

  // ---------- what the answers mean ----------

  predicate Success(reply: Reply) {
    reply.Unchanged? || reply.Updated?
  }

  /** The call finds a row of another species, and so writes. */
  predicate Writes(found: Option<Species>, want: Species, faults: DaoFaults) {
    faults.getOk && found.Some? && found.value != want
  }

  /** Which answer a call gives that finds this row and meets these errors. */
  predicate AnswerFits(found: Option<Species>, want: Species, faults: DaoFaults, reply: Reply) {
    && (reply.GetError? <==> !faults.getOk || found.None?)
    && (reply.Unchanged? <==> faults.getOk && found == Some(want))
    && (reply.UpdateError? <==> Writes(found, want, faults) && faults.save != Ok)
    && (reply.EventError? <==>
          Writes(found, want, faults) && faults.save == Ok && (faults.insert != Ok || !faults.notifyOk))
    && (reply.Updated? <==>
          Writes(found, want, faults) && faults.save == Ok && faults.insert == Ok && faults.notifyOk)
  }

  /** A success means that the row was there and has, or was given, the wanted species, with every statement acknowledged. */
  predicate SuccessFits(found: Option<Species>, want: Species, faults: DaoFaults, reply: Reply) {
    Success(reply) <==>
      && faults.getOk && found.Some?
      && (found.value == want || (faults.save == Ok && faults.insert == Ok && faults.notifyOk))
  }

  /** The answers of Replace, and the row after a success. */
  lemma ReplaceAnswers(v: View, want: Species, faults: DaoFaults)
    ensures var (w, reply) := Replace(v, want, faults);
            && AnswerFits(v.row, want, faults, reply) && SuccessFits(v.row, want, faults, reply)
            && (Success(reply) ==> w.row == Some(want))
            && w.row == (if Writes(v.row, want, faults) && faults.save != Failed then Some(want) else v.row)
  {
  }

  /** One call: the species asked for and what the database answers. */
  datatype Call = Call(want: Species, faults: DaoFaults)

  /** The calls one after the other. */
  function ReplaceAll(v: View, calls: seq<Call>): View {
    if calls == [] then v
    else
      var n := |calls| - 1;
      Replace(ReplaceAll(v, calls[..n]), calls[n].want, calls[n].faults).0
  }

  /** Events never outnumber real changes, and a change without its event is a failed call. */
  lemma {:induction false} EventsFollowChanges(v: View, calls: seq<Call>)
    ensures var w := ReplaceAll(v, calls);
            && v.updates + w.changes <= w.updates + v.changes + (w.failures - v.failures)
            && w.updates + v.changes <= v.updates + w.changes
            && v.failures <= w.failures
  {
    if calls != [] {
      EventsFollowChanges(v, calls[..|calls| - 1]);
    }
  }

  /** Without database errors every real change has exactly one event. */
  lemma {:induction false} EventsEqualChanges(v: View, calls: seq<Call>)
    requires v.row.Some?
    requires forall k :: 0 <= k < |calls| ==> calls[k].faults == DaoFaults(true, Ok, Ok, true)
    ensures var w := ReplaceAll(v, calls);
            && w.updates - v.updates == w.changes - v.changes
            && w.failures == v.failures
            && w.row == Some(if calls == [] then v.row.value else calls[|calls| - 1].want)
  {
    if calls != [] {
      EventsEqualChanges(v, calls[..|calls| - 1]);
    }
  }
}
