/** The durability agent's dormant-node reassignment tick: under a global
    advisory lock, every node that owns stored envelopes but no longer
    holds its own node lock has its envelopes released to any node, all in
    one transaction. */
module Durability {
  import opened Common
  import opened Envelopes
  import opened Schema
  import opened Sessions
  import opened Persistence

  /** Where the tick's body throws, if it does: in the owner query, or at
      the owner with this position in the query's result (a position past
      the end never comes). */
  datatype Fault = NoFault | FindOwnersFails | OwnerStepFails(index: nat)

  /** How a tick ends: it did not get the reassignment lock, it committed,
      or its body threw and it rolled back. */
  datatype TickOutcome = Skipped | Committed | Failed

  /** The owners among `owners` whose lock this session can take in the
      tick: those no other session holds, and the reassignment lock id
      itself, which the tick holds already. */
  function Reclaimable(owners: set<int>, locks: LockTable, reassignmentLockId: int, session: SessionId): set<int>
  {
    set k | k in owners && (k == reassignmentLockId || Available(locks, k, session))
  }

  /** The values of a sequence, as a set. */
  function Elements(s: seq<int>): set<int>
  {
    set x | x in s
  }

  /** Looking at one more owner adds it to the reclaimable owners exactly
      when its lock can be taken. */
  lemma {:induction false} ReclaimableStep(owners: seq<int>, i: nat, locks: LockTable, reassignmentLockId: int, session: SessionId)
    requires i < |owners|
    ensures Reclaimable(Elements(owners[..i + 1]), locks, reassignmentLockId, session)
            == Reclaimable(Elements(owners[..i]), locks, reassignmentLockId, session)
               + (if owners[i] == reassignmentLockId || Available(locks, owners[i], session) then {owners[i]} else {})
  {
    assert owners[..i + 1] == owners[..i] + [owners[i]];
    assert Elements(owners[..i + 1]) == Elements(owners[..i]) + {owners[i]};
  }

  /** The lock table during a tick: the locks held when the reassignment
      lock was taken, plus a transaction lock of this session on each owner
      reclaimed so far. */
  ghost predicate LockShape(holders: LockTable, taken: LockTable, done: set<int>, session: SessionId)
  {
    && (forall x :: x in holders <==> x in taken || x in done)
    && (forall x :: x in taken ==> holders[x] == taken[x])
    && (forall x :: x in done && x !in taken ==> holders[x] == LockHolder(session, TransactionScope))
  }

  /** During the tick, an owner whose lock the tick has not yet taken can
      be locked exactly when it is the reassignment lock id or no other
      session held it when the tick began. */
  lemma {:induction false} OwnerLockAvailable(before: LockTable, taken: LockTable, holders: LockTable, done: set<int>,
                                              x: int, reassignmentLockId: int, session: SessionId)
    requires Available(before, reassignmentLockId, session)
    requires taken == TryAcquire(before, reassignmentLockId, session, SessionScope).1
    requires LockShape(holders, taken, done, session)
    requires x !in done
    ensures Available(holders, x, session) <==> x == reassignmentLockId || Available(before, x, session)
  {
    if x != reassignmentLockId {
      LocksIndependent(before, reassignmentLockId, x, session, session, SessionScope);
    }
  }

  /** The lock table at the end of a tick that took the reassignment lock,
      whether it commits (release, then commit) or rolls back (rollback,
      then release): the transaction locks it took on owners are gone and
      so is the reassignment lock, whether it was newly taken or already
      held by this session. */
  lemma {:induction false} TickLeavesLocks(before: LockTable, taken: LockTable, holders: LockTable, owners: set<int>,
                                           reassignmentLockId: int, session: SessionId)
    requires NoTransactionLocks(before, session)
    requires Available(before, reassignmentLockId, session)
    requires taken == TryAcquire(before, reassignmentLockId, session, SessionScope).1
    requires LockShape(holders, taken, owners, session)
    ensures EndTransaction(Release(holders, reassignmentLockId, session), session) == before - {reassignmentLockId}
    ensures Release(EndTransaction(holders, session), reassignmentLockId, session) == before - {reassignmentLockId}
  {
    var rl := reassignmentLockId;
    if rl in before {
      assert before[rl] != LockHolder(session, TransactionScope);
      assert before[rl].scope == SessionScope;
      assert taken == before;
    } else {
      assert taken == before[rl := LockHolder(session, SessionScope)];
    }
    assert taken[rl] == LockHolder(session, SessionScope);
    var a := EndTransaction(Release(holders, rl, session), session);
    forall x ensures x in a <==> x in before - {rl} {
      if x in before && x != rl {
        assert taken[x] == before[x];
      }
    }
    forall x | x in a ensures a[x] == before[x] {
      assert taken[x] == before[x];
    }
    assert a == before - {rl};
    var b := Release(EndTransaction(holders, session), rl, session);
    forall x ensures x in b <==> x in before - {rl} {
      if x in before && x != rl {
        assert taken[x] == before[x];
      }
    }
    forall x | x in b ensures b[x] == before[x] {
      assert taken[x] == before[x];
    }
    assert b == before - {rl};
  }

  /** The dormant-node reassignment action of the durability agent. */
  class NodeReassignment {
    /** AdvancedSettings.UniqueNodeId: the node this agent runs on. */
    const uniqueNodeId: int
    /** The advisory lock id that serialises reassignment across nodes. */
    const reassignmentLockId: int

    constructor (uniqueNodeId: int, reassignmentLockId: int)
      ensures this.uniqueNodeId == uniqueNodeId && this.reassignmentLockId == reassignmentLockId
    {
      this.uniqueNodeId := uniqueNodeId;
      this.reassignmentLockId := reassignmentLockId;
    }

    /** One tick. Without the reassignment lock, nothing changes. With it,
      a tick whose body throws rolls back and changes no row; otherwise it
      commits, having released to any node exactly the rows of the owners
      (other than AnyNode and this node) whose node lock it could take.
      Either way it ends outside a transaction, holding neither the
      reassignment lock nor any owner's lock. */
    method ExecuteAsync(storage: DatabaseBackedEnvelopePersistence, fault: Fault) returns (outcome: TickOutcome)
      requires storage.Valid() && storage.session.Valid() && storage.session.transaction.None?
      modifies storage.db, storage.session, storage.session.locks
      ensures storage.session.transaction.None? && storage.session.Valid()
      ensures storage.db.deadLetters == old(storage.db.deadLetters)
      ensures outcome == Skipped <==>
                !Available(old(storage.session.locks.holders), reassignmentLockId, storage.session.id)
      ensures outcome == Skipped ==> storage.session.locks.holders == old(storage.session.locks.holders)
      ensures outcome != Skipped ==>
                storage.session.locks.holders == old(storage.session.locks.holders) - {reassignmentLockId}
      ensures outcome == Failed <==>
                outcome != Skipped
                && (fault == FindOwnersFails
                    || (fault.OwnerStepFails? && fault.index < |UniqueOwners(old(storage.db.incoming), old(storage.db.outgoing), uniqueNodeId)|))
      ensures outcome != Committed ==>
                storage.db.incoming == old(storage.db.incoming) && storage.db.outgoing == old(storage.db.outgoing)
      ensures outcome == Committed ==>
                var reclaimed := Reclaimable(UniqueOwners(old(storage.db.incoming), old(storage.db.outgoing), uniqueNodeId),
                                             old(storage.session.locks.holders), reassignmentLockId, storage.session.id);
                && storage.db.incoming == ReleaseIncoming(old(storage.db.incoming), reclaimed)
                && storage.db.outgoing == ReleaseOutgoing(old(storage.db.outgoing), reclaimed)
                && UniqueOwners(storage.db.incoming, storage.db.outgoing, uniqueNodeId)
                   == UniqueOwners(old(storage.db.incoming), old(storage.db.outgoing), uniqueNodeId) - reclaimed
    {
      var session := storage.session;
      ghost var before := session.locks.holders;

      session.BeginAsync();
      var gotLock := session.TryGetGlobalLock(reassignmentLockId);
      if !gotLock {
        session.RollbackAsync();
        forall x | x in before ensures x in EndTransaction(before, session.id) {
          assert before[x] != LockHolder(session.id, TransactionScope);
        }
        assert EndTransaction(before, session.id) == before;
        return Skipped;
      }

      var failed := ReassignDormantOwners(storage, fault, before);
      session.ReleaseGlobalLock(reassignmentLockId);
      if failed {
        return Failed;
      }
      session.CommitAsync();
      outcome := Committed;
    }

    /** The step of the tick's loop for `owners[i]`: when it is another
      node whose lock this session can take inside the transaction, its
      rows are released to any node; otherwise nothing changes. Either way
      the reclaimed owners and the lock table keep their shape. */
    method ReassignOwner(storage: DatabaseBackedEnvelopePersistence, owners: seq<int>, i: nat,
                         ghost start: Tables, ghost before: LockTable, ghost taken: LockTable, ghost done: set<int>)
      returns (ghost reclaimed: set<int>)
      requires storage.Valid() && storage.session.transaction.Some?
      requires i < |owners|
      requires forall k :: 0 <= k < |owners| ==> owners[k] != AnyNode && owners[k] != uniqueNodeId
      requires forall k, l :: 0 <= k < l < |owners| ==> owners[k] != owners[l]
      requires Available(before, reassignmentLockId, storage.session.id)
      requires taken == TryAcquire(before, reassignmentLockId, storage.session.id, SessionScope).1
      requires done == Reclaimable(Elements(owners[..i]), before, reassignmentLockId, storage.session.id)
      requires LockShape(storage.session.locks.holders, taken, done, storage.session.id)
      requires storage.db.incoming == ReleaseIncoming(start.incoming, done)
      requires storage.db.outgoing == ReleaseOutgoing(start.outgoing, done)
      modifies storage.db`incoming, storage.db`outgoing, storage.session.locks
      ensures reclaimed == Reclaimable(Elements(owners[..i + 1]), before, reassignmentLockId, storage.session.id)
      ensures LockShape(storage.session.locks.holders, taken, reclaimed, storage.session.id)
      ensures storage.db.incoming == ReleaseIncoming(start.incoming, reclaimed)
      ensures storage.db.outgoing == ReleaseOutgoing(start.outgoing, reclaimed)
    {
      var session := storage.session;
      var owner := owners[i];
      ReclaimableStep(owners, i, before, reassignmentLockId, session.id);
      assert forall k :: 0 <= k < i ==> owners[..i][k] != owner;
      assert owner !in Elements(owners[..i]);
      OwnerLockAvailable(before, taken, session.locks.holders, done, owner, reassignmentLockId, session.id);
      reclaimed := done;
      if owner != AnyNode && owner != uniqueNodeId {
        var got := session.TryGetGlobalTxLock(owner);
        if got {
          ReleaseOneMore(start.incoming, start.outgoing, done, owner);
          storage.ReassignDormantNodeToAnyNode(owner);
          reclaimed := done + {owner};
        }
      }
    }

    /** The guarded body of a tick that holds the reassignment lock: finds
      the owners and, for each whose node lock it can take inside the
      transaction, releases that owner's rows. When the body throws, the
      transaction rolls back. */
    method ReassignDormantOwners(storage: DatabaseBackedEnvelopePersistence, fault: Fault, ghost before: LockTable)
      returns (failed: bool)
      requires storage.Valid()
      requires storage.session.transaction == Some(storage.db.Contents())
      requires NoTransactionLocks(before, storage.session.id) && Available(before, reassignmentLockId, storage.session.id)
      requires storage.session.locks.holders == TryAcquire(before, reassignmentLockId, storage.session.id, SessionScope).1
      modifies storage.db, storage.session`transaction, storage.session.locks
      ensures storage.db.deadLetters == old(storage.db.deadLetters)
      ensures failed <==>
                fault == FindOwnersFails
                || (fault.OwnerStepFails? && fault.index < |UniqueOwners(old(storage.db.incoming), old(storage.db.outgoing), uniqueNodeId)|)
      ensures failed ==> storage.session.transaction.None?
                         && storage.db.incoming == old(storage.db.incoming) && storage.db.outgoing == old(storage.db.outgoing)
                         && Release(storage.session.locks.holders, reassignmentLockId, storage.session.id)
                            == before - {reassignmentLockId}
      ensures !failed ==>
                var reclaimed := Reclaimable(UniqueOwners(old(storage.db.incoming), old(storage.db.outgoing), uniqueNodeId),
                                             before, reassignmentLockId, storage.session.id);
                && storage.session.transaction.Some?
                && storage.db.incoming == ReleaseIncoming(old(storage.db.incoming), reclaimed)
                && storage.db.outgoing == ReleaseOutgoing(old(storage.db.outgoing), reclaimed)
                && UniqueOwners(storage.db.incoming, storage.db.outgoing, uniqueNodeId)
                   == UniqueOwners(old(storage.db.incoming), old(storage.db.outgoing), uniqueNodeId) - reclaimed
                && EndTransaction(Release(storage.session.locks.holders, reassignmentLockId, storage.session.id), storage.session.id)
                   == before - {reassignmentLockId}
    {
      var session := storage.session;
      var db := storage.db;
      var rl := reassignmentLockId;
      ghost var start := db.Contents();
      ghost var taken := session.locks.holders;
      ghost var candidates := UniqueOwners(db.incoming, db.outgoing, uniqueNodeId);

      if fault == FindOwnersFails {
        session.RollbackAsync();
        TickLeavesLocks(before, taken, taken, {}, rl, session.id);
        return true;
      }
      var owners := storage.FindUniqueOwners(uniqueNodeId);
      assert Elements(owners) == candidates;
      UniqueOwnersMembers(start.incoming, start.outgoing, uniqueNodeId);

      ghost var done: set<int> := {};
      var thrown := false;
      var i := 0;
      while i < |owners|
        invariant 0 <= i <= |owners|
        invariant session.transaction == Some(start)
        invariant !(fault.OwnerStepFails? && fault.index < i)
        invariant db.incoming == ReleaseIncoming(start.incoming, done)
        invariant db.outgoing == ReleaseOutgoing(start.outgoing, done)
        invariant db.deadLetters == start.deadLetters
        invariant done == Reclaimable(Elements(owners[..i]), before, rl, session.id)
        invariant LockShape(session.locks.holders, taken, done, session.id)
      {
        if fault == OwnerStepFails(i) {
          thrown := true;
          break;
        }
        done := ReassignOwner(storage, owners, i, start, before, taken, done);
        i := i + 1;
      }
      TickLeavesLocks(before, taken, session.locks.holders, done, rl, session.id);
      if thrown {
        session.RollbackAsync();
        return true;
      }
      assert owners[..|owners|] == owners;
      ReleaseRemovesCandidates(start.incoming, start.outgoing, done, uniqueNodeId);
      failed := false;
    }
  }
}
