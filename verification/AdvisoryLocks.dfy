/** AdvisoryLockFactory and AdvisoryLock, over a Postgres that nobody else uses during a call. */
module AdvisoryLocks {
  import opened Wrappers
  import opened LockTable

  type Uuid = string

  /** The server's side: open transactions and who holds which advisory lock. */
  class Postgres {
    var open: set<nat>
    var locks: Locks
    var next: nat      // every transaction so far has a smaller number

    ghost predicate Valid()
      reads this
    {
      && (forall tx :: tx in open ==> tx < next)
      && (forall key :: key in locks ==> locks[key] in open)
    }

    constructor ()
      ensures Valid() && open == {} && locks == map[]
    {
      open, locks, next := {}, map[], 0;
    }

    /** Starts a transaction, or reports an error. */
    method Begin(ok: bool) returns (tx: Option<nat>)
      requires Valid()
      modifies this
      ensures Valid() && locks == old(locks)
      ensures ok <==> tx.Some?
      ensures tx.None? ==> open == old(open)
      ensures tx.Some? ==> tx.value == old(next) && tx.value !in old(open) && open == old(open) + {tx.value}
    {
      if !ok {
        return None;
      }
      tx, open, next := Some(next), open + {next}, next + 1;
    }

    /** pg_advisory_xact_lock and, with the answer as a value, pg_try_advisory_xact_lock. */
    method Take(tx: nat, key: Key) returns (acquired: bool)
      requires Valid() && tx in open
      modifies this`locks
      ensures Valid()
      ensures acquired <==> key !in old(locks)
      ensures locks == if acquired then Grant(old(locks), key, tx) else old(locks)
    {
      acquired := key !in locks;
      if acquired {
        locks := Grant(locks, key, tx);
      }
    }

    /** Ends a transaction and thereby gives up its locks, whatever answer arrives. */
    method Commit(tx: nat) returns (ok: bool)
      requires Valid() && tx in open
      modifies this
      ensures Valid()
      ensures open == old(open) - {tx} && locks == Release(old(locks), tx)
    {
      open, locks := open - {tx}, Release(locks, tx);
      ok := *;
    }
  }

  class AdvisoryLock {
    var g2: Option<nat>
    var uuid: Option<Uuid>
    var id: Option<string>
    var lockType: Option<string>

    /** newAdvisoryLock followed by what newLock fills in. */
    constructor (tx: nat, uuid: Uuid, id: string, lockType: string)
      ensures g2 == Some(tx) && this.uuid == Some(uuid) && this.id == Some(id) && this.lockType == Some(lockType)
    {
      g2, this.uuid, this.id, this.lockType := Some(tx), Some(uuid), Some(id), Some(lockType);
    }

    /** lock: an error while somebody else holds the key is the wait timing out. */
    method Lock(db: Postgres, hash: string -> int, ok: bool) returns (granted: bool)
      requires db.Valid() && (g2.Some? ==> g2.value in db.open)
      modifies db`locks
      ensures db.Valid()
      ensures granted <==> ok && g2.Some? && id.Some? && lockType.Some?
                           && !Held(old(db.locks), hash, id.value, lockType.value)
      ensures db.locks == if granted then Grant(old(db.locks), (hash(id.value), hash(lockType.value)), g2.value)
                          else old(db.locks)
    {
      if g2.None? || id.None? || lockType.None? || !ok {
        return false;
      }
      HeldIff(db.locks, hash, id.value, lockType.value);
      granted := db.Take(g2.value, KeyFor(hash, id.value, lockType.value));
    }

    /** nonBlockingLock: None is an error, otherwise whether the lock was acquired. */
    method NonBlockingLock(db: Postgres, hash: string -> int, ok: bool) returns (acquired: Option<bool>)
      requires db.Valid() && (g2.Some? ==> g2.value in db.open)
      modifies db`locks
      ensures db.Valid()
      ensures acquired.None? <==> !(ok && g2.Some? && id.Some? && lockType.Some?)
      ensures acquired.Some? ==>
                (acquired.value <==> !Held(old(db.locks), hash, id.value, lockType.value))
      ensures db.locks == if acquired == Some(true)
                          then Grant(old(db.locks), (hash(id.value), hash(lockType.value)), g2.value)
                          else old(db.locks)
    {
      if g2.None? || id.None? || lockType.None? || !ok {
        return None;
      }
      HeldIff(db.locks, hash, id.value, lockType.value);
      var result := db.Take(g2.value, KeyFor(hash, id.value, lockType.value));
      acquired := Some(result);
    }

    /** unlock: ends the transaction and forgets everything about the lock, also if Commit reports an error. */
    method Unlock(db: Postgres) returns (ok: bool)
      requires db.Valid() && (g2.Some? ==> g2.value in db.open)
      modifies this, db
      ensures db.Valid()
      ensures ok ==> old(g2).Some?
      ensures old(g2).Some? ==>
                && g2.None? && uuid.None? && id.None? && lockType.None?
                && db.open == old(db.open) - {old(g2).value}
                && db.locks == Release(old(db.locks), old(g2).value)
      ensures old(g2).None? ==> db.open == old(db.open) && db.locks == old(db.locks)
    {
      if g2.None? {
        return false;
      }
      ok := db.Commit(g2.value);
      g2, uuid, id, lockType := None, None, None, None;
    }
  }

  class AdvisoryLockFactory {
    const connection: Postgres
    const hash: string -> int
    var locks: map<Uuid, AdvisoryLock>

    /** Every entry is a lock whose transaction is open, and no two entries share one. */
    ghost predicate Valid()
      reads this, connection, locks.Values
    {
      && connection.Valid()
      && Wired()
      && forall u :: u in locks && locks[u].g2.Some? ==> locks[u].g2.value in connection.open
    }

    ghost predicate Wired()
      reads this, locks.Values
    {
      && "" !in locks
      && (forall u :: u in locks ==> Holds(locks[u], u))
      && (forall u, v :: u in locks && v in locks && u != v ==> locks[u] != locks[v] && locks[u].g2 != locks[v].g2)
    }

    /** No entry shares an object or a transaction with the lock. */
    ghost predicate Apart(lock: AdvisoryLock)
      reads this, lock, locks.Values
    {
      forall u :: u in locks ==> locks[u] != lock && locks[u].g2 != lock.g2
    }

    ghost predicate Holds(lock: AdvisoryLock, u: Uuid)
      reads lock
    {
      lock.uuid == Some(u) && lock.id.Some? && lock.lockType.Some? && lock.g2.Some?
    }

    constructor (connection: Postgres, hash: string -> int)
      requires connection.Valid()
      ensures Valid() && locks == map[] && this.connection == connection && this.hash == hash
    {
      this.connection, this.hash, this.locks := connection, hash, map[];
    }

    /** newLock: begins the lock's transaction. */
    method NewLock(uuid: Uuid, id: string, lockType: string, beginOk: bool) returns (lock: Option<AdvisoryLock>)
      requires Valid() && uuid != "" && uuid !in locks
      modifies connection
      ensures Valid() && connection.locks == old(connection.locks)
      ensures lock.Some? <==> beginOk
      ensures !beginOk ==> connection.open == old(connection.open)
      ensures beginOk ==>
                && fresh(lock.value) && Holds(lock.value, uuid) && Apart(lock.value)
                && lock.value.id == Some(id) && lock.value.lockType == Some(lockType)
                && lock.value.g2.value == old(connection.next)
                && connection.open == old(connection.open) + {lock.value.g2.value}
    {
      var tx := connection.Begin(beginOk);
      if tx.None? {
        return None;
      }
      var l := new AdvisoryLock(tx.value, uuid, id, lockType);
      lock := Some(l);
    }

    method Register(uuid: Uuid, lock: AdvisoryLock)
      requires Wired() && uuid != "" && uuid !in locks && Holds(lock, uuid)
      requires Apart(lock)
      modifies this`locks
      ensures Wired() && locks == old(locks)[uuid := lock]
    {
      locks := locks[uuid := lock];
    }

    /**
     * A failed Begin leaves no trace; a failed lock statement leaves an open transaction that no
     * entry names; a granted lock is registered under the uuid.
     */
    method NewAdvisoryLock(uuid: Uuid, id: string, lockType: string, beginOk: bool, lockOk: bool)
      returns (owner: Uuid, err: bool)
      requires Valid() && uuid != "" && uuid !in locks
      modifies this`locks, connection
      ensures Valid()
      ensures !err ==> uuid in locks && fresh(locks[uuid]) && locks == old(locks)[uuid := locks[uuid]]
      ensures err ==> locks == old(locks)
      ensures owner == if beginOk then uuid else ""
      ensures err <==> !(beginOk && lockOk && !Held(old(connection.locks), hash, id, lockType))
      ensures err ==> connection.locks == old(connection.locks)
      ensures !beginOk ==> connection.open == old(connection.open)
      ensures beginOk ==> connection.open == old(connection.open) + {old(connection.next)}
      ensures !err ==> locks[uuid].g2 == Some(old(connection.next))
      ensures !err ==>
                connection.locks == Grant(old(connection.locks), (hash(id), hash(lockType)), old(connection.next))
    {
      var lock := NewLock(uuid, id, lockType, beginOk);
      if lock.None? {
        return "", true;
      }
      var granted := lock.value.Lock(connection, hash, lockOk);
      if granted {
        Register(uuid, lock.value);
      }
      return uuid, !granted;
    }

    /** As NewAdvisoryLock, except that a refused lock is not an error and is registered too. */
    method NewNonBlockingLock(uuid: Uuid, id: string, lockType: string, beginOk: bool, lockOk: bool)
      returns (owner: Uuid, acquired: bool, err: bool)
      requires Valid() && uuid != "" && uuid !in locks
      modifies this`locks, connection
      ensures Valid()
      ensures !err ==> uuid in locks && fresh(locks[uuid]) && locks == old(locks)[uuid := locks[uuid]]
      ensures err ==> locks == old(locks)
      ensures owner == if beginOk then uuid else ""
      ensures err <==> !(beginOk && lockOk)
      ensures acquired <==> !err && !Held(old(connection.locks), hash, id, lockType)
      ensures !acquired ==> connection.locks == old(connection.locks)
      ensures !beginOk ==> connection.open == old(connection.open)
      ensures beginOk ==> connection.open == old(connection.open) + {old(connection.next)}
      ensures !err ==> locks[uuid].g2 == Some(old(connection.next))
      ensures acquired ==>
                connection.locks == Grant(old(connection.locks), (hash(id), hash(lockType)), old(connection.next))
    {
      var lock := NewLock(uuid, id, lockType, beginOk);
      if lock.None? {
        return "", false, true;
      }
      var answer := lock.value.NonBlockingLock(connection, hash, lockOk);
      if answer.None? {
        return uuid, false, true;
      }
      Register(uuid, lock.value);
      return uuid, answer.value, false;
    }

    /** Ends the transaction behind a registered uuid and removes its entry; ignores any other uuid. */
    method Unlock(uuid: Uuid)
      requires Valid()
      modifies this`locks, connection, if uuid in locks then {locks[uuid]} else {}
      ensures Valid() && locks == old(locks) - {uuid}
      ensures uuid !in old(locks) ==>
                && connection.open == old(connection.open) && connection.locks == old(connection.locks)
      ensures uuid in old(locks) ==>
                var tx := old(locks[uuid].g2.value);
                && connection.open == old(connection.open) - {tx}
                && connection.locks == Release(old(connection.locks), tx)
    {
      if uuid == "" || uuid !in locks {
        return;
      }
      var lock := locks[uuid];
      var ok := lock.Unlock(connection);
      locks := locks - {uuid};
    }
  }
}
