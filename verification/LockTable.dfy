/** Postgres transaction-level advisory locks, as a value: which transaction holds which key. */
module LockTable {

  /** (hash(id), hash(lockType)), the two arguments of pg_advisory_xact_lock. */
  type Key = (int, int)

  function KeyFor(hash: string -> int, id: string, lockType: string): Key {
    (hash(id), hash(lockType))
  }

  /** Holder of each key that is locked. */
  type Locks = map<Key, nat>

  /** Two locks exclude each other if and only if their IDs and their types have the same hashes. */
  lemma KeysEqualIff(hash: string -> int, id: string, lockType: string, id': string, lockType': string)
    ensures KeyFor(hash, id, lockType) == KeyFor(hash, id', lockType') <==>
            hash(id) == hash(id') && hash(lockType) == hash(lockType')
  {
  }

  /** pg_advisory_xact_lock returning, or pg_try_advisory_xact_lock answering true. */
  function Grant(locks: Locks, key: Key, tx: nat): Locks
    requires key !in locks
  {
    locks[key := tx]
  }

  /** The end of transaction tx gives up every key it holds. */
  function Release(locks: Locks, tx: nat): (after: Locks)
    ensures forall k :: k in after <==> k in locks && locks[k] != tx
    ensures forall k :: k in after ==> after[k] == locks[k]
  {
    map k | k in locks && locks[k] != tx :: locks[k]
  }

  /** A lock is held on an ID and a type with the hashes of these. */
  predicate Held(locks: Locks, hash: string -> int, id: string, lockType: string) {
    exists key :: key in locks && key.0 == hash(id) && key.1 == hash(lockType)
  }

  lemma HeldIff(locks: Locks, hash: string -> int, id: string, lockType: string)
    ensures Held(locks, hash, id, lockType) <==> KeyFor(hash, id, lockType) in locks
  {
    if KeyFor(hash, id, lockType) in locks { assert KeyFor(hash, id, lockType).0 == hash(id); }
  }

  /** A single lock that is held keeps out exactly the locks on an ID and a type of its hashes. */
  lemma OnlyLockHeld(locks: Locks, hash: string -> int, id: string, lockType: string, id': string, lockType': string)
    requires locks.Keys == {(hash(id'), hash(lockType'))}
    ensures Held(locks, hash, id, lockType) <==> hash(id) == hash(id') && hash(lockType) == hash(lockType')
  {
    assert (hash(id'), hash(lockType')) in locks;
  }

  /** A transaction that ends gives back exactly what it was granted. */
  lemma ReleaseUndoesGrant(locks: Locks, key: Key, tx: nat)
    requires forall k :: k in locks ==> locks[k] != tx
    ensures Release(locks, tx) == locks
    ensures key !in locks ==> Release(Grant(locks, key, tx), tx) == locks
  {
  }
}
