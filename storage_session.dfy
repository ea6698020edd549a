/** Advisory locks and the durable storage session the reassignment tick
    runs in. A lock id is held by at most one database session at a time,
    either until that session releases it (session scope) or until its
    transaction ends (transaction scope); lock ids are independent of each
    other. A transaction is a snapshot of the tables taken when it begins:
    rolling back restores the snapshot, committing keeps the current tables. */
module Sessions {
  import opened Common
  import opened Schema

  type SessionId = nat

  datatype LockScope = SessionScope | TransactionScope

  datatype LockHolder = LockHolder(session: SessionId, scope: LockScope)

  /** The lock table: which session holds each advisory lock id. */
  type LockTable = map<int, LockHolder>

  /** Whether `session` can take lock `id`: nobody holds it, or it already does. */
  predicate Available(locks: LockTable, id: int, session: SessionId)
  {
    id !in locks || locks[id].session == session
  }

  /** A non-blocking attempt by `session` to take lock `id`: it succeeds
      exactly when the lock is available to that session, records the
      session as holder of a lock nobody held, and changes nothing when it
      fails. */
  function TryAcquire(locks: LockTable, id: int, session: SessionId, scope: LockScope): (r: (bool, LockTable))
    ensures r.0 <==> Available(locks, id, session)
    ensures !r.0 ==> r.1 == locks
    ensures r.0 ==> id in r.1 && r.1[id].session == session
    ensures forall other :: other != id ==> (other in r.1 <==> other in locks)
    ensures forall other :: other != id && other in locks ==> r.1[other] == locks[other]
  {
    if id !in locks then (true, locks[id := LockHolder(session, scope)])
    else if locks[id].session == session then (true, locks)
    else (false, locks)
  }

  /** An explicit release of lock `id` by `session`: a lock held by another
      session stays where it is. */
  function Release(locks: LockTable, id: int, session: SessionId): (r: LockTable)
    ensures id in locks && locks[id].session == session ==> r == locks - {id}
    ensures !(id in locks && locks[id].session == session) ==> r == locks
  {
    if id in locks && locks[id].session == session then locks - {id} else locks
  }

  /** The end of `session`'s transaction, by commit or rollback: every
      transaction-scoped lock it holds is freed, every other lock stays. */
  function EndTransaction(locks: LockTable, session: SessionId): (r: LockTable)
    ensures forall id :: id in r <==> id in locks && locks[id] != LockHolder(session, TransactionScope)
    ensures forall id :: id in r ==> r[id] == locks[id]
  {
    map id | id in locks && locks[id] != LockHolder(session, TransactionScope) :: locks[id]
  }

  /** `session` holds no transaction-scoped lock. */
  predicate NoTransactionLocks(locks: LockTable, session: SessionId)
  {
    forall id :: id in locks ==> locks[id] != LockHolder(session, TransactionScope)
  }

  /** A lock held by one session cannot be taken by another; once the
      holder releases a session lock, or rolls back the transaction holding
      a transaction lock, the other session gets it. */
  lemma {:induction false} LockExclusion(locks: LockTable, id: int, holder: SessionId, other: SessionId, scope: LockScope)
    requires id in locks && locks[id].session == holder && holder != other
    ensures !TryAcquire(locks, id, other, scope).0
    ensures locks[id].scope == SessionScope ==> TryAcquire(Release(locks, id, holder), id, other, scope).0
    ensures locks[id].scope == TransactionScope ==> TryAcquire(EndTransaction(locks, holder), id, other, scope).0
  {
    if locks[id].scope == TransactionScope {
      assert id !in EndTransaction(locks, holder);
    }
  }

  /** Taking or releasing one lock id leaves whether any other id is
      available to any session as it was. */
  lemma {:induction false} LocksIndependent(locks: LockTable, id: int, other: int, s: SessionId, t: SessionId, scope: LockScope)
    requires id != other
    ensures Available(TryAcquire(locks, id, s, scope).1, other, t) == Available(locks, other, t)
    ensures Available(Release(locks, id, s), other, t) == Available(locks, other, t)
  {
  }

  /** The advisory lock table of the database, shared by every session. */
  class AdvisoryLocks {
    var holders: LockTable

    constructor ()
      ensures holders == map[]
    {
      holders := map[];
    }
  }

  /** One node's storage session: the database and lock table it works
      on, its own session id, and the snapshot of its open transaction. */
  class DurableStorageSession {
    const db: EnvelopeDatabase
    const locks: AdvisoryLocks
    const id: SessionId
    /** The tables as they were when the open transaction began. */
    var transaction: Option<Tables>

    /** Outside a transaction the session holds no transaction-scoped lock. */
    ghost predicate Valid()
      reads this, locks
    {
      transaction.None? ==> NoTransactionLocks(locks.holders, id)
    }

    constructor (db: EnvelopeDatabase, locks: AdvisoryLocks, id: SessionId)
      requires NoTransactionLocks(locks.holders, id)
      ensures this.db == db && this.locks == locks && this.id == id
      ensures transaction.None? && Valid()
    {
      this.db, this.locks, this.id := db, locks, id;
      transaction := None;
    }

    method BeginAsync()
      modifies this`transaction
      ensures transaction == Some(db.Contents())
    {
      transaction := Some(db.Contents());
    }

    /** Session-scoped `pg_try_advisory_lock`. */
    method TryGetGlobalLock(lockId: int) returns (acquired: bool)
      modifies locks
      ensures (acquired, locks.holders) == TryAcquire(old(locks.holders), lockId, id, SessionScope)
    {
      var r := TryAcquire(locks.holders, lockId, id, SessionScope);
      acquired := r.0;
      locks.holders := r.1;
    }

    /** Transaction-scoped `pg_try_advisory_xact_lock`, inside the open
        transaction. */
    method TryGetGlobalTxLock(lockId: int) returns (acquired: bool)
      requires transaction.Some?
      modifies locks
      ensures (acquired, locks.holders) == TryAcquire(old(locks.holders), lockId, id, TransactionScope)
    {
      var r := TryAcquire(locks.holders, lockId, id, TransactionScope);
      acquired := r.0;
      locks.holders := r.1;
    }

    method ReleaseGlobalLock(lockId: int)
      modifies locks
      ensures locks.holders == Release(old(locks.holders), lockId, id)
    {
      locks.holders := Release(locks.holders, lockId, id);
    }

    /** Rolls the open transaction back: the tables return to the snapshot
        and the transaction's locks are freed. Without an open transaction
        nothing changes. */
    method RollbackAsync()
      modifies this`transaction, db, locks
      ensures transaction.None?
      ensures old(transaction).Some? ==> db.Contents() == old(transaction).value
      ensures old(transaction).None? ==> db.Contents() == old(db.Contents())
      ensures locks.holders == if old(transaction).Some? then EndTransaction(old(locks.holders), id) else old(locks.holders)
    {
      if transaction.Some? {
        db.Restore(transaction.value);
        locks.holders := EndTransaction(locks.holders, id);
        transaction := None;
      }
    }

    /** Commits the open transaction: the tables stay as they are and the
        transaction's locks are freed. */
    method CommitAsync()
      requires transaction.Some?
      modifies this`transaction, locks
      ensures transaction.None?
      ensures locks.holders == EndTransaction(old(locks.holders), id)
    {
      locks.holders := EndTransaction(locks.holders, id);
      transaction := None;
    }
  }
}
