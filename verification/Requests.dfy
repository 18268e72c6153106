/** The request's outer transaction and sqlDinosaurService.Replace inside it. */
module Requests {
  import opened Wrappers
  import opened Domain
  import opened LockTable
  import opened AdvisoryLocks
  import opened Replacing

  // ---------- pkg/db/transaction ----------

  /** sql.Tx: how often the driver was asked to end the transaction, and how. */
  class SqlTx {
    var commits: nat
    var rollbacks: nat

    constructor ()
      ensures commits == 0 && rollbacks == 0
    {
      commits, rollbacks := 0, 0;
    }

    /** Any answer is possible. */
    method Commit() returns (ok: bool)
      modifies this`commits
      ensures commits == old(commits) + 1
    {
      commits := commits + 1;
      ok := *;
    }

    method Rollback() returns (ok: bool)
      modifies this`rollbacks
      ensures rollbacks == old(rollbacks) + 1
    {
      rollbacks := rollbacks + 1;
      ok := *;
    }
  }

  class Transaction {
    var rollbackFlag: bool
    var tx: SqlTx?

    /** Build: a new transaction is not marked, whatever flag it is given. */
    constructor (tx: SqlTx, rollbackFlag: bool)
      ensures this.tx == tx && !this.rollbackFlag
    {
      this.tx, this.rollbackFlag := tx, false;
    }

    method SetRollbackFlag(flag: bool)
      modifies this`rollbackFlag
      ensures rollbackFlag == flag
    {
      rollbackFlag := flag;
    }

    /** The driver may report an error; the transaction is over all the same. */
    method Commit() returns (ok: bool)
      modifies this`tx, tx
      ensures ok ==> old(tx) != null
      ensures tx == null
      ensures old(tx) != null ==> old(tx).commits == old(tx.commits) + 1 && old(tx).rollbacks == old(tx.rollbacks)
    {
      if tx == null {
        return false;
      }
      ok := tx.Commit();
      tx := null;
    }

    method Rollback() returns (ok: bool)
      modifies this`tx, tx
      ensures ok ==> old(tx) != null
      ensures tx == null
      ensures old(tx) != null ==> old(tx).rollbacks == old(tx.rollbacks) + 1 && old(tx).commits == old(tx.commits)
    {
      if tx == null {
        return false;
      }
      ok := tx.Rollback();
      tx := null;
    }
  }

  /** newTransaction: an error after Begin returns nothing, although the driver's transaction is open. */
  method NewTransaction(beginOk: bool, txidOk: bool) returns (t: Transaction?, begun: SqlTx?)
    ensures begun == null <==> !beginOk
    ensures begun != null ==> fresh(begun) && begun.commits == begun.rollbacks == 0
    ensures t == null <==> !(beginOk && txidOk)
    ensures t != null ==> fresh(t) && t.tx == begun && !t.rollbackFlag
  {
    t, begun := null, null;
    if !beginOk {
      return;
    }
    begun := new SqlTx();
    if !txidOk {
      return;
    }
    t := new Transaction(begun, false);
  }

  /** Resolve: ends the transaction once, as the flag says, and does nothing to one that has ended. */
  method ResolveTransaction(t: Transaction)
    modifies t`tx, t.tx
    ensures t.tx == null
    ensures old(t.tx) != null ==>
              && old(t.tx).rollbacks == old(t.tx.rollbacks) + (if t.rollbackFlag then 1 else 0)
              && old(t.tx).commits == old(t.tx.commits) + (if t.rollbackFlag then 0 else 1)
  {
    if t.rollbackFlag {
      var ok := t.Rollback();
    } else {
      var ok := t.Commit();
    }
  }

  // ---------- plugins/dinosaurs ----------

  class Dinosaur {
    var id: Id
    var species: Species

    constructor (id: Id, species: Species)
      ensures this.id == id && this.species == species
    {
      this.id, this.species := id, species;
    }
  }

  /** The tables of dinosaurs and of events, as the DAOs write them: every statement commits alone. */
  class Tables {
    var rows: map<Id, Species>
    var events: seq<Event>

    method GetDinosaur(id: Id, ok: bool) returns (found: Dinosaur?)
      ensures found == null <==> !ok || id !in rows
      ensures found != null ==> fresh(found) && found.id == id && found.species == rows[id]
    {
      found := null;
      if ok && id in rows {
        found := new Dinosaur(id, rows[id]);
      }
    }

    /** sqlDinosaurDao.Replace: an error marks the request's transaction. */
    method SaveDinosaur(t: Transaction, d: Dinosaur, outcome: Outcome) returns (ok: bool)
      modifies this`rows, t`rollbackFlag
      ensures ok <==> outcome == Ok
      ensures rows == if outcome == Failed then old(rows) else old(rows)[d.id := d.species]
      ensures t.rollbackFlag <==> old(t.rollbackFlag) || !ok
    {
      if outcome != Failed {
        rows := rows[d.id := d.species];
      }
      ok := outcome == Ok;
      if !ok {
        t.SetRollbackFlag(true);
      }
    }

    /** sqlEventDao.Create: the insert marks the transaction when it fails, the notification does not. */
    method CreateEvent(t: Transaction, e: Event, outcome: Outcome, notifyOk: bool) returns (ok: bool)
      modifies this`events, t`rollbackFlag
      ensures ok <==> outcome == Ok && notifyOk
      ensures events == if outcome == Failed then old(events) else old(events) + [e]
      ensures t.rollbackFlag <==> old(t.rollbackFlag) || outcome != Ok
    {
      if outcome != Failed {
        events := events + [e];
      }
      if outcome != Ok {
        t.SetRollbackFlag(true);
        return false;
      }
      ok := notifyOk;
    }
  }

  /** A dinosaur's row and events in the tables. */
  ghost function Seen(rows: map<Id, Species>, events: seq<Event>, id: Id): View {
    View(if id in rows then Some(rows[id]) else None, Updates(events, id), 0, 0)
  }

  ghost predicate SameButCounts(v: View, w: View) {
    v.row == w.row && v.updates == w.updates
  }

  function RowIn(rows: map<Id, Species>, id: Id): Option<Species> {
    if id in rows then Some(rows[id]) else None
  }

  /** The errors that mark the request's transaction for rollback. */
  predicate Marks(reply: Reply, faults: DaoFaults) {
    reply == UpdateError || (reply == EventError && faults.insert != Ok)
  }

  class DinosaurService {
    const lockFactory: AdvisoryLockFactory
    const tables: Tables
    var disableAdvisoryLock: bool
    var useBlockingAdvisoryLock: bool

    constructor (lockFactory: AdvisoryLockFactory, tables: Tables)
      ensures this.lockFactory == lockFactory && this.tables == tables
      ensures !disableAdvisoryLock && useBlockingAdvisoryLock
    {
      this.lockFactory, this.tables := lockFactory, tables;
      disableAdvisoryLock, useBlockingAdvisoryLock := false, true;
    }

    twostate predicate OthersKept(id: Id)
      reads tables
    {
      forall other :: other != id ==>
        Seen(tables.rows, tables.events, other) == old(Seen(tables.rows, tables.events, other))
    }

    /**
     * The answer tells what was found and which statements were acknowledged, after a success the row has
     * the wanted species, and the tables changed by the write and the event of this call only.
     */
    twostate predicate Told(id: Id, want: Species, faults: DaoFaults, reply: Reply)
      reads tables
    {
      var found := RowIn(old(tables.rows), id);
      && AnswerFits(found, want, faults, reply) && SuccessFits(found, want, faults, reply)
      && (Success(reply) ==> RowIn(tables.rows, id) == Some(want))
      && tables.rows == (if Writes(found, want, faults) && faults.save != Failed then old(tables.rows)[id := want]
                         else old(tables.rows))
      && tables.events == old(tables.events)
           + (if Writes(found, want, faults) && faults.save == Ok && faults.insert != Failed
              then [Event("Dinosaurs", id, UpdateEvent, false)] else [])
    }

    /** Replace from its Get on, inside the lock or without one. */
    method Update(t: Transaction, id: Id, want: Species, faults: DaoFaults) returns (reply: Reply)
      modifies tables, t`rollbackFlag
      ensures var (w, r) := Replacing.Replace(old(Seen(tables.rows, tables.events, id)), want, faults);
              reply == r && SameButCounts(Seen(tables.rows, tables.events, id), w)
      ensures Told(id, want, faults, reply)
      ensures OthersKept(id)
      ensures t.rollbackFlag <==> old(t.rollbackFlag) || Marks(reply, faults)
    {
      var found := tables.GetDinosaur(id, faults.getOk);
      if found == null {
        return GetError;
      }
      if found.species == want {
        return Unchanged;
      }
      found.species := want;
      var saved := tables.SaveDinosaur(t, found, faults.save);
      if !saved {
        return UpdateError;
      }
      ghost var events := tables.events;
      var emitted := tables.CreateEvent(t, UpdateOf(id), faults.insert, faults.notifyOk);
      forall other ensures Updates(events + [UpdateOf(id)], other) == Updates(events, other) + if other == id then 1 else 0 {
        UpdatesAppend(events, UpdateOf(id), other);
      }
      reply := if emitted then Updated else EventError;
    }

    /** Whether a call that finds the lock table like this gets into Replace's body. */
    ghost predicate Enters(id: Id, beginOk: bool, lockOk: bool)
      reads this, lockFactory.connection
    {
      disableAdvisoryLock ||
      (beginOk && lockOk && !Held(lockFactory.connection.locks, lockFactory.hash, id, "dinosaurs"))
    }

    /** The call had the effect and the answer of one Replace and cleaned up after itself. */
    twostate predicate Entered(t: Transaction, id: Id, want: Species, faults: DaoFaults, reply: Reply)
      reads tables, t, lockFactory, lockFactory.connection
    {
      var (w, r) := Replacing.Replace(old(Seen(tables.rows, tables.events, id)), want, faults);
      && reply == r && SameButCounts(Seen(tables.rows, tables.events, id), w)
      && Told(id, want, faults, reply)
      && (t.rollbackFlag <==> old(t.rollbackFlag) || Marks(reply, faults))
      && lockFactory.connection.open == old(lockFactory.connection.open)
      && lockFactory.locks == old(lockFactory.locks)
    }

    /** The call did nothing but leave its lock transaction open and, if it was refused, registered. */
    twostate predicate TurnedAway(t: Transaction, uuid: Uuid, beginOk: bool, lockOk: bool, reply: Reply)
      reads this, tables, t, lockFactory, lockFactory.connection
    {
      && tables.rows == old(tables.rows) && tables.events == old(tables.events)
      && t.rollbackFlag == old(t.rollbackFlag)
      && reply == (if !useBlockingAdvisoryLock && beginOk && lockOk then RowLocked else LockError)
      && lockFactory.connection.open == old(lockFactory.connection.open)
           + (if beginOk then {old(lockFactory.connection.next)} else {})
      && lockFactory.locks.Keys == old(lockFactory.locks.Keys) + (if reply == RowLocked then {uuid} else {})
    }

    /** The rest of Replace once it holds the lock, with its deferred Unlock. */
    method UpdateAndUnlock(t: Transaction, id: Id, want: Species, owner: Uuid, faults: DaoFaults) returns (reply: Reply)
      requires lockFactory.Valid() && owner in lockFactory.locks
      modifies lockFactory`locks, lockFactory.connection, tables, t`rollbackFlag, lockFactory.locks[owner]
      ensures lockFactory.Valid() && lockFactory.locks == old(lockFactory.locks) - {owner}
      ensures var tx := old(lockFactory.locks[owner].g2.value);
              && lockFactory.connection.open == old(lockFactory.connection.open) - {tx}
              && lockFactory.connection.locks == Release(old(lockFactory.connection.locks), tx)
      ensures var (w, r) := Replacing.Replace(old(Seen(tables.rows, tables.events, id)), want, faults);
              reply == r && SameButCounts(Seen(tables.rows, tables.events, id), w)
      ensures Told(id, want, faults, reply)
      ensures t.rollbackFlag <==> old(t.rollbackFlag) || Marks(reply, faults)
      ensures OthersKept(id)
    {
      reply := Update(t, id, want, faults);
      lockFactory.Unlock(owner);
    }

    /** The blocking branch of Replace. */
    method ReplaceWaiting(t: Transaction, id: Id, want: Species, uuid: Uuid, beginOk: bool, lockOk: bool, faults: DaoFaults)
      returns (reply: Reply)
      requires lockFactory.Valid() && uuid != "" && uuid !in lockFactory.locks && !disableAdvisoryLock && useBlockingAdvisoryLock
      modifies lockFactory`locks, lockFactory.connection, tables, t`rollbackFlag
      ensures lockFactory.Valid() && lockFactory.connection.locks == old(lockFactory.connection.locks)
      ensures if old(Enters(id, beginOk, lockOk)) then Entered(t, id, want, faults, reply)
              else TurnedAway(t, uuid, beginOk, lockOk, reply)
      ensures OthersKept(id)
    {
      var owner, err := lockFactory.NewAdvisoryLock(uuid, id, DINOSAURS_LOCK_TYPE, beginOk, lockOk);
      if err {
        return LockError;
      }
      reply := UpdateAndUnlock(t, id, want, owner, faults);
    }

    /** The non-blocking branch of Replace: a refused lock is reported and not unlocked. */
    method ReplaceTrying(t: Transaction, id: Id, want: Species, uuid: Uuid, beginOk: bool, lockOk: bool, faults: DaoFaults)
      returns (reply: Reply)
      requires lockFactory.Valid() && uuid != "" && uuid !in lockFactory.locks && !disableAdvisoryLock && !useBlockingAdvisoryLock
      modifies lockFactory`locks, lockFactory.connection, tables, t`rollbackFlag
      ensures lockFactory.Valid() && lockFactory.connection.locks == old(lockFactory.connection.locks)
      ensures if old(Enters(id, beginOk, lockOk)) then Entered(t, id, want, faults, reply)
              else TurnedAway(t, uuid, beginOk, lockOk, reply)
      ensures OthersKept(id)
    {
      var owner, locked, err := lockFactory.NewNonBlockingLock(uuid, id, DINOSAURS_LOCK_TYPE, beginOk, lockOk);
      if err {
        return LockError;
      }
      if !locked {
        return RowLocked;
      }
      reply := UpdateAndUnlock(t, id, want, owner, faults);
    }

    method Replace(t: Transaction, id: Id, want: Species, uuid: Uuid, beginOk: bool, lockOk: bool, faults: DaoFaults)
      returns (reply: Reply)
      requires lockFactory.Valid() && uuid != "" && uuid !in lockFactory.locks
      modifies lockFactory`locks, lockFactory.connection, tables, t`rollbackFlag
      ensures lockFactory.Valid() && lockFactory.connection.locks == old(lockFactory.connection.locks)
      ensures if old(Enters(id, beginOk, lockOk)) then Entered(t, id, want, faults, reply)
              else TurnedAway(t, uuid, beginOk, lockOk, reply)
      ensures OthersKept(id)
    {
      if disableAdvisoryLock {
        reply := Update(t, id, want, faults);
      } else if useBlockingAdvisoryLock {
        reply := ReplaceWaiting(t, id, want, uuid, beginOk, lockOk, faults);
      } else {
        reply := ReplaceTrying(t, id, want, uuid, beginOk, lockOk, faults);
      }
    }

    /**
     * TransactionMiddleware around Replace: an outer transaction that was begun is ended exactly once
     * if its ID could be read, rolled back if and only if a write of Replace marked it, and never
     * otherwise.
     */
    method ServePatch(
        id: Id, want: Species, uuid: Uuid, outerOk: bool, txidOk: bool, beginOk: bool, lockOk: bool, faults: DaoFaults)
      returns (reply: Reply, outer: SqlTx?)
      requires lockFactory.Valid() && uuid != "" && uuid !in lockFactory.locks
      modifies lockFactory`locks, lockFactory.connection, tables
      ensures lockFactory.Valid() && lockFactory.connection.locks == old(lockFactory.connection.locks)
      ensures outer == null <==> !outerOk
      ensures !(outerOk && txidOk) ==>
                && reply == NoTransaction && tables.rows == old(tables.rows) && tables.events == old(tables.events)
                && lockFactory.locks == old(lockFactory.locks)
                && lockFactory.connection.open == old(lockFactory.connection.open)
      ensures outerOk ==>
                && outer.commits + outer.rollbacks == (if txidOk then 1 else 0)
                && (outer.rollbacks == 1 <==> txidOk && old(Enters(id, beginOk, lockOk)) && Marks(reply, faults))
      ensures outerOk && txidOk && old(Enters(id, beginOk, lockOk)) ==>
                var (w, r) := Replacing.Replace(old(Seen(tables.rows, tables.events, id)), want, faults);
                reply == r && SameButCounts(Seen(tables.rows, tables.events, id), w)
      ensures outerOk && txidOk && old(Enters(id, beginOk, lockOk)) ==> Told(id, want, faults, reply)
      ensures outerOk && txidOk && !old(Enters(id, beginOk, lockOk)) ==>
                && tables.rows == old(tables.rows) && tables.events == old(tables.events)
                && reply == (if !useBlockingAdvisoryLock && beginOk && lockOk then RowLocked else LockError)
      ensures OthersKept(id)
    {
      var t;
      t, outer := NewTransaction(outerOk, txidOk);
      if t == null {
        return NoTransaction, outer;
      }
      reply := Replace(t, id, want, uuid, beginOk, lockOk, faults);
      ResolveTransaction(t);
    }
  }
}
