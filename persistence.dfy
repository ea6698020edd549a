/** The database-backed envelope store: each operation is one SQL statement
    (or one batch of them) over the incoming, outgoing and dead-letter
    tables, modelled by its effect on the rows. */
module Persistence {
  import opened Common
  import opened Envelopes
  import opened Schema
  import opened Sessions

  /** The exceptions the store's operations raise. */
  datatype StoreError =
    | DuplicateKey(id: Guid)          // primary key violation on insert
    | MissingExecutionTime(id: Guid)  // `ExecutionTime.Value` of an envelope without one
    | MissingDestination(id: Guid)    // `Destination.ToString()` of an envelope without one

  /** The incoming row an insert writes for `e`: its status, owner,
      execution time, attempts and serialized body. */
  function IncomingRowOf(e: Envelope): IncomingRow
    reads e
  {
    IncomingRow(e.Status, e.OwnerId, e.ExecutionTime, e.Attempts, e.Serialized)
  }

  // ---------------------------------------------------------------------
  // Scheduling

  /** One `update ... set execution_time, status = 'Scheduled', attempts,
      owner_id = 0 where id = ...` statement of ScheduleExecution. */
  datatype ScheduleUpdate = ScheduleUpdate(id: Guid, executionTime: int, attempts: int)

  function ScheduledRow(row: IncomingRow, u: ScheduleUpdate): IncomingRow
  {
    row.(executionTime := Some(u.executionTime), status := Scheduled, attempts := u.attempts, ownerId := AnyNode)
  }

  /** The schedule updates run one after another; an update whose id has
      no row changes nothing. */
  function ApplyScheduleUpdates(table: map<Guid, IncomingRow>, updates: seq<ScheduleUpdate>): map<Guid, IncomingRow>
    decreases |updates|
  {
    if |updates| == 0 then table
    else
      var u := updates[0];
      var next := if u.id in table then table[u.id := ScheduledRow(table[u.id], u)] else table;
      ApplyScheduleUpdates(next, updates[1..])
  }

  /** Running schedule updates keeps the set of rows; a row no update names
      is unchanged; a row an update names ends Scheduled, owned by any node,
      with its body; and its execution time and attempts are those of the
      last update naming it. */
  lemma {:induction false} ScheduleOutcome(table: map<Guid, IncomingRow>, updates: seq<ScheduleUpdate>)
    ensures var r := ApplyScheduleUpdates(table, updates);
      && r.Keys == table.Keys
      && (forall id :: id in table && (forall i :: 0 <= i < |updates| ==> updates[i].id != id) ==> r[id] == table[id])
      && (forall i :: 0 <= i < |updates| && updates[i].id in table ==>
            r[updates[i].id].status == Scheduled && r[updates[i].id].ownerId == AnyNode
            && r[updates[i].id].body == table[updates[i].id].body)
      && (forall i :: 0 <= i < |updates| && updates[i].id in table
                      && (forall j :: i < j < |updates| ==> updates[j].id != updates[i].id) ==>
            r[updates[i].id].executionTime == Some(updates[i].executionTime)
            && r[updates[i].id].attempts == updates[i].attempts)
    decreases |updates|
  {
    if |updates| > 0 {
      var u := updates[0];
      var rest := updates[1..];
      var next := if u.id in table then table[u.id := ScheduledRow(table[u.id], u)] else table;
      ScheduleOutcome(next, rest);
      var r := ApplyScheduleUpdates(table, updates);
      assert r == ApplyScheduleUpdates(next, rest);
      forall i | 0 <= i < |updates| && updates[i].id in table
        ensures r[updates[i].id].status == Scheduled && r[updates[i].id].ownerId == AnyNode
        ensures r[updates[i].id].body == table[updates[i].id].body
      {
        if i == 0 {
          if exists j :: 0 <= j < |rest| && rest[j].id == u.id {
            var j :| 0 <= j < |rest| && rest[j].id == u.id;
            assert updates[j + 1] == rest[j];
          } else {
            assert forall j :: 0 <= j < |rest| ==> rest[j].id != u.id;
          }
        } else {
          assert rest[i - 1] == updates[i];
        }
      }
      forall i | 0 <= i < |updates| && updates[i].id in table
                 && (forall j :: i < j < |updates| ==> updates[j].id != updates[i].id)
        ensures r[updates[i].id].executionTime == Some(updates[i].executionTime)
        ensures r[updates[i].id].attempts == updates[i].attempts
      {
        if i == 0 {
          forall j | 0 <= j < |rest| ensures rest[j].id != u.id {
            assert rest[j] == updates[j + 1];
          }
        } else {
          assert rest[i - 1] == updates[i];
          forall j | i - 1 < j < |rest| ensures rest[j].id != rest[i - 1].id {
            assert rest[j] == updates[j + 1];
          }
        }
      }
      forall id | id in table && (forall i :: 0 <= i < |updates| ==> updates[i].id != id)
        ensures r[id] == table[id]
      {
        assert updates[0].id != id;
        forall i | 0 <= i < |rest| ensures rest[i].id != id {
          assert rest[i] == updates[i + 1];
        }
      }
    }
  }

  /** What LoadScheduledToExecute reads back for one row: its body and
      its attempts. */
  datatype ScheduledJob = ScheduledJob(body: seq<byte>, attempts: int)

  /** `where status = 'Scheduled' and execution_time <= @time`: a row with
      no execution time never qualifies. */
  predicate ReadyAt(row: IncomingRow, now: int)
  {
    row.status == Scheduled && row.executionTime.Some? && row.executionTime.value <= now
  }

  /** The rows LoadScheduledToExecute(now) returns: exactly the Scheduled
      rows whose execution time has come, each with its body and attempts. */
  function ReadyToExecute(incoming: map<Guid, IncomingRow>, now: int): (r: map<Guid, ScheduledJob>)
    ensures forall id :: id in r <==>
              id in incoming && incoming[id].status == Scheduled
              && incoming[id].executionTime.Some? && incoming[id].executionTime.value <= now
    ensures forall id :: id in r ==> r[id] == ScheduledJob(incoming[id].body, incoming[id].attempts)
  {
    map id | id in incoming && ReadyAt(incoming[id], now) :: ScheduledJob(incoming[id].body, incoming[id].attempts)
  }

  /** A job due at `now` is still due later: the set of due jobs only grows
      as time passes. */
  lemma {:induction false} ReadyToExecuteGrows(incoming: map<Guid, IncomingRow>, now: int, later: int)
    requires now <= later
    ensures ReadyToExecute(incoming, now).Keys <= ReadyToExecute(incoming, later).Keys
  {
  }

  /** After a row is scheduled for time `at`, it is among the jobs due at
      `now` exactly when `at <= now`: absent before its time, present from
      then on. */
  lemma {:induction false} ScheduledRowDueAt(table: map<Guid, IncomingRow>, u: ScheduleUpdate, now: int)
    requires u.id in table
    ensures u.id in ReadyToExecute(ApplyScheduleUpdates(table, [u]), now) <==> u.executionTime <= now
  {
    ScheduleOutcome(table, [u]);
  }

  // ---------------------------------------------------------------------
  // Ownership

  /** The owner ids found in the incoming table. */
  function IncomingOwners(incoming: map<Guid, IncomingRow>): set<int>
  {
    set id | id in incoming :: incoming[id].ownerId
  }

  /** The owner ids found in the outgoing table. */
  function OutgoingOwners(outgoing: map<Guid, OutgoingRow>): set<int>
  {
    set id | id in outgoing :: outgoing[id].ownerId
  }

  /** The owner query of FindUniqueOwners: the distinct owners of either
      table, never AnyNode and never the asking node. */
  function UniqueOwners(incoming: map<Guid, IncomingRow>, outgoing: map<Guid, OutgoingRow>, currentNodeId: int): set<int>
  {
    (IncomingOwners(incoming) + OutgoingOwners(outgoing)) - {AnyNode, currentNodeId}
  }

  /** The owner query returns exactly the ids, other than AnyNode and the
      asking node, that own an incoming or an outgoing row. */
  lemma {:induction false} UniqueOwnersMembers(incoming: map<Guid, IncomingRow>, outgoing: map<Guid, OutgoingRow>, currentNodeId: int)
    ensures AnyNode !in UniqueOwners(incoming, outgoing, currentNodeId)
    ensures currentNodeId !in UniqueOwners(incoming, outgoing, currentNodeId)
    ensures forall o :: o in UniqueOwners(incoming, outgoing, currentNodeId) <==>
              o != AnyNode && o != currentNodeId
              && ((exists id :: id in incoming && incoming[id].ownerId == o)
                  || (exists id :: id in outgoing && outgoing[id].ownerId == o))
  {
    forall o | o != AnyNode && o != currentNodeId && exists id :: id in incoming && incoming[id].ownerId == o
      ensures o in UniqueOwners(incoming, outgoing, currentNodeId)
    {
      var id :| id in incoming && incoming[id].ownerId == o;
      assert o in IncomingOwners(incoming);
    }
    forall o | o != AnyNode && o != currentNodeId && exists id :: id in outgoing && outgoing[id].ownerId == o
      ensures o in UniqueOwners(incoming, outgoing, currentNodeId)
    {
      var id :| id in outgoing && outgoing[id].ownerId == o;
      assert o in OutgoingOwners(outgoing);
    }
  }

  /** `update incoming set owner_id = 0 where owner_id = @owner`, for every
      owner in `owners` (see ReleaseEffect). */
  function ReleaseIncoming(incoming: map<Guid, IncomingRow>, owners: set<int>): map<Guid, IncomingRow>
  {
    map id | id in incoming :: if incoming[id].ownerId in owners then incoming[id].(ownerId := AnyNode) else incoming[id]
  }

  /** The same update on the outgoing table. */
  function ReleaseOutgoing(outgoing: map<Guid, OutgoingRow>, owners: set<int>): map<Guid, OutgoingRow>
  {
    map id | id in outgoing :: if outgoing[id].ownerId in owners then outgoing[id].(ownerId := AnyNode) else outgoing[id]
  }

  /** Releasing owners keeps every row: the rows of those owners pass to
      any node with every other column kept, and every other row is
      unchanged. */
  lemma {:induction false} ReleaseEffect(incoming: map<Guid, IncomingRow>, outgoing: map<Guid, OutgoingRow>, owners: set<int>)
    ensures var r := ReleaseIncoming(incoming, owners);
      && r.Keys == incoming.Keys
      && (forall id :: id in incoming && incoming[id].ownerId !in owners ==> r[id] == incoming[id])
      && (forall id :: id in incoming && incoming[id].ownerId in owners ==>
            r[id].ownerId == AnyNode && r[id].(ownerId := incoming[id].ownerId) == incoming[id])
    ensures var r := ReleaseOutgoing(outgoing, owners);
      && r.Keys == outgoing.Keys
      && (forall id :: id in outgoing && outgoing[id].ownerId !in owners ==> r[id] == outgoing[id])
      && (forall id :: id in outgoing && outgoing[id].ownerId in owners ==>
            r[id].ownerId == AnyNode && r[id].(ownerId := outgoing[id].ownerId) == outgoing[id])
  {
  }

  /** Releasing one more owner after a set of owners is releasing the
      larger set at once, in both tables. */
  lemma {:induction false} ReleaseOneMore(incoming: map<Guid, IncomingRow>, outgoing: map<Guid, OutgoingRow>, owners: set<int>, k: int)
    ensures ReleaseIncoming(ReleaseIncoming(incoming, owners), {k}) == ReleaseIncoming(incoming, owners + {k})
    ensures ReleaseOutgoing(ReleaseOutgoing(outgoing, owners), {k}) == ReleaseOutgoing(outgoing, owners + {k})
  {
    ReleaseEffect(incoming, outgoing, owners);
    ReleaseEffect(incoming, outgoing, owners + {k});
    ReleaseEffect(ReleaseIncoming(incoming, owners), ReleaseOutgoing(outgoing, owners), {k});
    var a := ReleaseIncoming(ReleaseIncoming(incoming, owners), {k});
    var b := ReleaseIncoming(incoming, owners + {k});
    forall id | id in incoming ensures a[id] == b[id] {
      var o := incoming[id].ownerId;
      if o in owners {
        assert ReleaseIncoming(incoming, owners)[id] == incoming[id].(ownerId := AnyNode);
      } else if o == k {
        assert ReleaseIncoming(incoming, owners)[id] == incoming[id];
      }
    }
    assert a == b;
    var c := ReleaseOutgoing(ReleaseOutgoing(outgoing, owners), {k});
    var d := ReleaseOutgoing(outgoing, owners + {k});
    forall id | id in outgoing ensures c[id] == d[id] {
      var o := outgoing[id].ownerId;
      if o in owners {
        assert ReleaseOutgoing(outgoing, owners)[id] == outgoing[id].(ownerId := AnyNode);
      } else if o == k {
        assert ReleaseOutgoing(outgoing, owners)[id] == outgoing[id];
      }
    }
    assert c == d;
  }

  /** Releasing a set of owners takes exactly those owners out of the
      candidates the owner query returns: no other candidate appears or
      disappears. */
  lemma {:induction false} ReleaseRemovesCandidates(incoming: map<Guid, IncomingRow>, outgoing: map<Guid, OutgoingRow>,
                                                    owners: set<int>, currentNodeId: int)
    ensures UniqueOwners(ReleaseIncoming(incoming, owners), ReleaseOutgoing(outgoing, owners), currentNodeId)
            == UniqueOwners(incoming, outgoing, currentNodeId) - owners
  {
    var ri, ro := ReleaseIncoming(incoming, owners), ReleaseOutgoing(outgoing, owners);
    ReleaseEffect(incoming, outgoing, owners);
    UniqueOwnersMembers(incoming, outgoing, currentNodeId);
    UniqueOwnersMembers(ri, ro, currentNodeId);
    var before, after := UniqueOwners(incoming, outgoing, currentNodeId), UniqueOwners(ri, ro, currentNodeId);
    forall o | o in after ensures o in before - owners {
      if exists id :: id in ri && ri[id].ownerId == o {
        var id :| id in ri && ri[id].ownerId == o;
        assert incoming[id].ownerId !in owners;
      } else {
        var id :| id in ro && ro[id].ownerId == o;
        assert outgoing[id].ownerId !in owners;
      }
    }
    forall o | o in before - owners ensures o in after {
      if exists id :: id in incoming && incoming[id].ownerId == o {
        var id :| id in incoming && incoming[id].ownerId == o;
        assert ri[id].ownerId == o;
      } else {
        var id :| id in outgoing && outgoing[id].ownerId == o;
        assert ro[id].ownerId == o;
      }
    }
  }

  /** The destination query of FindAllDestinations: the distinct
      destinations of the outgoing table. */
  function Destinations(outgoing: map<Guid, OutgoingRow>): (r: set<Uri>)
    ensures forall d :: d in r <==> exists id :: id in outgoing && outgoing[id].destination == d
  {
    set id | id in outgoing :: outgoing[id].destination
  }

  // ---------------------------------------------------------------------
  // Counting

  /** The ids of the incoming rows with status `status`. */
  function IdsWithStatus(incoming: map<Guid, IncomingRow>, status: EnvelopeStatus): set<Guid>
  {
    set id | id in incoming && incoming[id].status == status
  }

  /** Inserting a new incoming row adds one to the count of its own status
      and leaves the count of every other status as it was. */
  lemma {:induction false} InsertCountsOnce(incoming: map<Guid, IncomingRow>, id: Guid, row: IncomingRow, status: EnvelopeStatus)
    requires id !in incoming
    ensures |IdsWithStatus(incoming[id := row], status)|
            == |IdsWithStatus(incoming, status)| + (if row.status == status then 1 else 0)
  {
    if row.status == status {
      assert IdsWithStatus(incoming[id := row], status) == IdsWithStatus(incoming, status) + {id};
    } else {
      assert IdsWithStatus(incoming[id := row], status) == IdsWithStatus(incoming, status);
    }
  }

  // ---------------------------------------------------------------------
  // Statement builders

  /** The ids of a batch of envelopes. */
  function EnvelopeIds(envelopes: seq<Envelope>): set<Guid>
    reads envelopes
  {
    set i | 0 <= i < |envelopes| :: envelopes[i].Id
  }

  /** A command built from a batch keys its rows by the envelopes' ids, in
      order: it has the batch's ids, its ids are distinct exactly when the
      envelopes' are, and they miss a table's keys exactly when every
      envelope's id does. */
  lemma {:induction false} CommandIds<R>(envelopes: seq<Envelope>, command: seq<(Guid, R)>, keys: set<Guid>)
    requires |command| == |envelopes|
    requires forall i :: 0 <= i < |envelopes| ==> command[i].0 == envelopes[i].Id
    ensures Ids(command) == EnvelopeIds(envelopes)
    ensures DistinctIds(command) <==> forall i, j :: 0 <= i < j < |envelopes| ==> envelopes[i].Id != envelopes[j].Id
    ensures Ids(command) !! keys <==> forall i :: 0 <= i < |envelopes| ==> envelopes[i].Id !in keys
  {
    forall id | id in Ids(command) ensures id in EnvelopeIds(envelopes) {
      var i :| 0 <= i < |command| && command[i].0 == id;
      assert envelopes[i].Id == id;
    }
    forall id | id in EnvelopeIds(envelopes) ensures id in Ids(command) {
      var i :| 0 <= i < |envelopes| && envelopes[i].Id == id;
      assert command[i].0 == id;
    }
  }

  /** BuildIncomingStorageCommand: one insert per envelope, in order,
      carrying its id and the row for it. */
  method BuildIncomingStorageCommand(envelopes: seq<Envelope>) returns (command: seq<(Guid, IncomingRow)>)
    ensures |command| == |envelopes|
    ensures forall i :: 0 <= i < |envelopes| ==> command[i] == (envelopes[i].Id, IncomingRowOf(envelopes[i]))
  {
    command := [];
    for i := 0 to |envelopes|
      invariant |command| == i
      invariant forall k :: 0 <= k < i ==> command[k] == (envelopes[k].Id, IncomingRowOf(envelopes[k]))
    {
      var e := envelopes[i];
      command := command + [(e.Id, IncomingRow(e.Status, e.OwnerId, e.ExecutionTime, e.Attempts, e.Serialized))];
    }
  }

  /** BuildOutgoingStorageCommand: one insert per envelope, in order, all
      owned by `ownerId`. Building throws at the first envelope without a
      destination. */
  method BuildOutgoingStorageCommand(envelopes: seq<Envelope>, ownerId: int)
    returns (r: Result<seq<(Guid, OutgoingRow)>, StoreError>)
    ensures r.Failure? <==> exists i :: 0 <= i < |envelopes| && envelopes[i].Destination.None?
    ensures r.Failure? ==> exists i :: 0 <= i < |envelopes| && envelopes[i].Destination.None?
                              && r.error == MissingDestination(envelopes[i].Id)
                              && forall k :: 0 <= k < i ==> envelopes[k].Destination.Some?
    ensures r.Success? ==> |r.value| == |envelopes|
    ensures r.Success? ==> forall i :: 0 <= i < |envelopes| ==>
              r.value[i] == (envelopes[i].Id, OutgoingRow(ownerId, envelopes[i].Destination.value,
                                                          envelopes[i].DeliverBy, envelopes[i].Serialized))
  {
    var command := [];
    for i := 0 to |envelopes|
      invariant |command| == i
      invariant forall k :: 0 <= k < i ==> envelopes[k].Destination.Some?
      invariant forall k :: 0 <= k < i ==>
                  command[k] == (envelopes[k].Id, OutgoingRow(ownerId, envelopes[k].Destination.value,
                                                             envelopes[k].DeliverBy, envelopes[k].Serialized))
    {
      var e := envelopes[i];
      if e.Destination.None? {
        return Failure(MissingDestination(e.Id));
      }
      command := command + [(e.Id, OutgoingRow(ownerId, e.Destination.value, e.DeliverBy, e.Serialized))];
    }
    r := Success(command);
  }

  /** The envelope store of one node over the shared database. */
  class DatabaseBackedEnvelopePersistence {
    const db: EnvelopeDatabase
    const session: DurableStorageSession
    /** Settings.UniqueNodeId: the id of the node this store works for. */
    const uniqueNodeId: int

    ghost predicate Valid()
      reads this, session
    {
      session.db == db
    }

    constructor (session: DurableStorageSession, uniqueNodeId: int)
      ensures this.db == session.db && this.session == session && this.uniqueNodeId == uniqueNodeId
      ensures Valid()
    {
      this.db := session.db;
      this.session := session;
      this.uniqueNodeId := uniqueNodeId;
    }

    /** `delete from incoming where id = @id`. */
    method DeleteIncomingEnvelope(envelope: Envelope)
      modifies db`incoming
      ensures db.incoming == old(db.incoming) - {envelope.Id}
    {
      db.incoming := db.incoming - {envelope.Id};
    }

    /** ScheduleExecution: every envelope of the batch must have an
      execution time, or the command is never run. Otherwise each
      envelope's row takes its execution time and attempts, becomes
      Scheduled and is released to any node; when an id occurs twice the
      later envelope wins; rows outside the batch are unchanged. */
    method ScheduleExecution(envelopes: seq<Envelope>) returns (r: Outcome<StoreError>)
      modifies db`incoming
      ensures r.Fail? <==> exists i :: 0 <= i < |envelopes| && envelopes[i].ExecutionTime.None?
      ensures r.Fail? ==> db.incoming == old(db.incoming)
                          && exists i :: 0 <= i < |envelopes| && envelopes[i].ExecutionTime.None?
                                         && r.error == MissingExecutionTime(envelopes[i].Id)
      ensures db.incoming.Keys == old(db.incoming).Keys
      ensures forall id :: id in old(db.incoming) && (forall i :: 0 <= i < |envelopes| ==> envelopes[i].Id != id) ==>
                db.incoming[id] == old(db.incoming)[id]
      ensures r.Pass? ==> forall i :: 0 <= i < |envelopes| && envelopes[i].Id in old(db.incoming) ==>
                db.incoming[envelopes[i].Id].status == Scheduled && db.incoming[envelopes[i].Id].ownerId == AnyNode
                && db.incoming[envelopes[i].Id].body == old(db.incoming)[envelopes[i].Id].body
      ensures r.Pass? ==> forall i :: 0 <= i < |envelopes| && envelopes[i].Id in old(db.incoming)
                                      && (forall j :: i < j < |envelopes| ==> envelopes[j].Id != envelopes[i].Id) ==>
                db.incoming[envelopes[i].Id].executionTime == envelopes[i].ExecutionTime
                && db.incoming[envelopes[i].Id].attempts == envelopes[i].Attempts
    {
      var command: seq<ScheduleUpdate> := [];
      for i := 0 to |envelopes|
        invariant |command| == i
        invariant forall k :: 0 <= k < i ==> envelopes[k].ExecutionTime.Some?
        invariant forall k :: 0 <= k < i ==>
                    command[k] == ScheduleUpdate(envelopes[k].Id, envelopes[k].ExecutionTime.value, envelopes[k].Attempts)
      {
        var e := envelopes[i];
        if e.ExecutionTime.None? {
          return Fail(MissingExecutionTime(e.Id));
        }
        command := command + [ScheduleUpdate(e.Id, e.ExecutionTime.value, e.Attempts)];
      }
      ScheduleOutcome(db.incoming, command);
      db.incoming := ApplyScheduleUpdates(db.incoming, command);
      r := Pass;
    }

    /** `update incoming set attempts = @attempts where id = @id`: the
      attempts column of that one row takes the envelope's count (the
      statement assigns it; it does not add one). No other row or column
      changes, and without a row nothing changes. */
    method IncrementIncomingEnvelopeAttempts(envelope: Envelope)
      modifies db`incoming
      ensures envelope.Id in old(db.incoming) ==>
                db.incoming == old(db.incoming)[envelope.Id := old(db.incoming)[envelope.Id].(attempts := envelope.Attempts)]
      ensures envelope.Id !in old(db.incoming) ==> db.incoming == old(db.incoming)
    {
      if envelope.Id in db.incoming {
        db.incoming := db.incoming[envelope.Id := db.incoming[envelope.Id].(attempts := envelope.Attempts)];
      }
    }

    /** StoreIncoming: inserts one incoming row keyed by the envelope's id
      with its status, owner, execution time, attempts and body; an id
      already stored violates the primary key and nothing changes. */
    method StoreIncoming(envelope: Envelope) returns (r: Outcome<StoreError>)
      modifies db`incoming
      ensures r.Fail? <==> envelope.Id in old(db.incoming)
      ensures r.Fail? ==> r.error == DuplicateKey(envelope.Id) && db.incoming == old(db.incoming)
      ensures r.Pass? ==> db.incoming == old(db.incoming)[envelope.Id := IncomingRowOf(envelope)]
    {
      if envelope.Id in db.incoming {
        return Fail(DuplicateKey(envelope.Id));
      }
      db.incoming := db.incoming[envelope.Id := IncomingRowOf(envelope)];
      r := Pass;
    }

    /** StoreIncoming for a batch, with or without the caller's transaction
      (both overloads run the same statements): all rows are inserted, or,
      when an id repeats or is already stored, none. */
    method StoreIncomingBatch(envelopes: seq<Envelope>) returns (r: Outcome<StoreError>)
      modifies db`incoming
      ensures r.Pass? <==> (forall i, j :: 0 <= i < j < |envelopes| ==> envelopes[i].Id != envelopes[j].Id)
                           && (forall i :: 0 <= i < |envelopes| ==> envelopes[i].Id !in old(db.incoming))
      ensures r.Fail? ==> db.incoming == old(db.incoming) && r.error.DuplicateKey?
      ensures r.Pass? ==> db.incoming.Keys == old(db.incoming).Keys + EnvelopeIds(envelopes)
      ensures r.Pass? ==> forall id :: id in old(db.incoming) ==> db.incoming[id] == old(db.incoming)[id]
      ensures r.Pass? ==> forall i :: 0 <= i < |envelopes| ==> db.incoming[envelopes[i].Id] == IncomingRowOf(envelopes[i])
    {
      var command := BuildIncomingStorageCommand(envelopes);
      InsertRowsOutcome(db.incoming, command);
      CommandIds(envelopes, command, db.incoming.Keys);
      var inserted := InsertRows(db.incoming, command);
      match inserted
      case Success(table) =>
        forall i | 0 <= i < |envelopes| ensures table[envelopes[i].Id] == IncomingRowOf(envelopes[i]) {
          assert command[i] == (envelopes[i].Id, IncomingRowOf(envelopes[i]));
        }
        db.incoming := table;
        r := Pass;
      case Failure(id) =>
        r := Fail(DuplicateKey(id));
    }

    /** ScheduleJob: the envelope becomes Scheduled and owned by any node,
      whatever it was before, and is then stored as an incoming row. */
    method ScheduleJob(envelope: Envelope) returns (r: Outcome<StoreError>)
      modifies envelope`Status, envelope`OwnerId, db`incoming
      ensures envelope.Status == Scheduled && envelope.OwnerId == AnyNode
      ensures r.Fail? <==> envelope.Id in old(db.incoming)
      ensures r.Fail? ==> db.incoming == old(db.incoming)
      ensures r.Pass? ==> envelope.Id in db.incoming
                          && db.incoming[envelope.Id].status == Scheduled && db.incoming[envelope.Id].ownerId == AnyNode
      ensures r.Pass? ==> db.incoming == old(db.incoming)[envelope.Id := IncomingRowOf(envelope)]
    {
      envelope.Status := Scheduled;
      envelope.OwnerId := AnyNode;
      r := StoreIncoming(envelope);
    }

    /** ClearAllStoredMessages: deletes every row of all three tables. */
    method ClearAllStoredMessages()
      modifies db
      ensures db.incoming == map[] && db.outgoing == map[] && db.deadLetters == map[]
    {
      db.incoming, db.outgoing, db.deadLetters := map[], map[], map[];
    }

    /** LoadScheduledToExecute: the due Scheduled rows (see ReadyToExecute). */
    function LoadScheduledToExecute(now: int): (r: map<Guid, ScheduledJob>)
      reads db
      ensures r.Keys <= db.incoming.Keys
      ensures forall id :: (id in db.incoming && db.incoming[id].executionTime.Some? &&
                            db.incoming[id].executionTime.value > now) ==> id !in r
      ensures forall id :: id in r ==>
                (db.incoming[id].status == Scheduled &&
                 r[id] == ScheduledJob(db.incoming[id].body, db.incoming[id].attempts))
    {
      ReadyToExecute(db.incoming, now)
    }

    /** ReassignDormantNodeToAnyNode: every incoming and outgoing row owned
      by `nodeId` passes to any node; nothing else changes. */
    method ReassignDormantNodeToAnyNode(nodeId: int)
      modifies db`incoming, db`outgoing
      ensures db.incoming == ReleaseIncoming(old(db.incoming), {nodeId})
      ensures db.outgoing == ReleaseOutgoing(old(db.outgoing), {nodeId})
    {
      db.incoming := ReleaseIncoming(db.incoming, {nodeId});
      db.outgoing := ReleaseOutgoing(db.outgoing, {nodeId});
    }

    /** FindUniqueOwners: reads the owner query's rows into a list: each
      owner of an incoming or outgoing row exactly once, never AnyNode and
      never `currentNodeId`. */
    method FindUniqueOwners(currentNodeId: int) returns (owners: seq<int>)
      ensures forall o :: o in owners <==>
                o != AnyNode && o != currentNodeId
                && ((exists id :: id in db.incoming && db.incoming[id].ownerId == o)
                    || (exists id :: id in db.outgoing && db.outgoing[id].ownerId == o))
      ensures forall i, j :: 0 <= i < j < |owners| ==> owners[i] != owners[j]
      ensures |owners| == |UniqueOwners(db.incoming, db.outgoing, currentNodeId)|
      ensures forall o :: o in owners <==> o in UniqueOwners(db.incoming, db.outgoing, currentNodeId)
    {
      var rows := UniqueOwners(db.incoming, db.outgoing, currentNodeId);
      owners := [];
      while rows != {}
        invariant rows <= UniqueOwners(db.incoming, db.outgoing, currentNodeId)
        invariant forall o :: o in owners <==> o in UniqueOwners(db.incoming, db.outgoing, currentNodeId) && o !in rows
        invariant forall i, j :: 0 <= i < j < |owners| ==> owners[i] != owners[j]
        invariant |owners| + |rows| == |UniqueOwners(db.incoming, db.outgoing, currentNodeId)|
        decreases rows
      {
        var owner :| owner in rows;
        owners := owners + [owner];
        rows := rows - {owner};
      }
      UniqueOwnersMembers(db.incoming, db.outgoing, currentNodeId);
    }

    /** DeleteByDestination: deletes the outgoing rows for `destination`
      that are owned by any node; rows owned by a live node survive, and
      every surviving row is unchanged. */
    method DeleteByDestination(destination: Uri)
      modifies db`outgoing
      ensures forall id :: id in db.outgoing <==>
                id in old(db.outgoing)
                && !(old(db.outgoing)[id].ownerId == AnyNode && old(db.outgoing)[id].destination == destination)
      ensures forall id :: id in db.outgoing ==> db.outgoing[id] == old(db.outgoing)[id]
    {
      db.outgoing := map id | id in db.outgoing && !(db.outgoing[id].ownerId == AnyNode && db.outgoing[id].destination == destination)
                              :: db.outgoing[id];
    }

    /** `delete from outgoing where id = @id`. */
    method DeleteOutgoing(envelope: Envelope)
      modifies db`outgoing
      ensures db.outgoing == old(db.outgoing) - {envelope.Id}
    {
      db.outgoing := db.outgoing - {envelope.Id};
    }

    /** FindAllDestinations: reads the destination query's rows into a
      list: each destination with an outgoing row exactly once. */
    method FindAllDestinations() returns (destinations: seq<Uri>)
      ensures forall d :: d in destinations <==> exists id :: id in db.outgoing && db.outgoing[id].destination == d
      ensures forall i, j :: 0 <= i < j < |destinations| ==> destinations[i] != destinations[j]
    {
      var rows := Destinations(db.outgoing);
      destinations := [];
      while rows != {}
        invariant rows <= Destinations(db.outgoing)
        invariant forall d :: d in destinations <==> d in Destinations(db.outgoing) && d !in rows
        invariant forall i, j :: 0 <= i < j < |destinations| ==> destinations[i] != destinations[j]
        decreases rows
      {
        var d :| d in rows;
        destinations := destinations + [d];
        rows := rows - {d};
      }
    }

    /** StoreOutgoing: inserts one outgoing row owned by `ownerId` with the
      envelope's destination, deadline and body. Without a destination the
      statement is never built; an id already stored violates the key. */
    method StoreOutgoing(envelope: Envelope, ownerId: int) returns (r: Outcome<StoreError>)
      modifies db`outgoing
      ensures envelope.Destination.None? ==> r == Fail(MissingDestination(envelope.Id))
      ensures envelope.Destination.Some? && envelope.Id in old(db.outgoing) ==> r == Fail(DuplicateKey(envelope.Id))
      ensures r.Fail? ==> db.outgoing == old(db.outgoing)
      ensures r.Pass? <==> envelope.Destination.Some? && envelope.Id !in old(db.outgoing)
      ensures r.Pass? ==> db.outgoing == old(db.outgoing)[envelope.Id :=
                OutgoingRow(ownerId, envelope.Destination.value, envelope.DeliverBy, envelope.Serialized)]
    {
      if envelope.Destination.None? {
        return Fail(MissingDestination(envelope.Id));
      }
      if envelope.Id in db.outgoing {
        return Fail(DuplicateKey(envelope.Id));
      }
      db.outgoing := db.outgoing[envelope.Id := OutgoingRow(ownerId, envelope.Destination.value, envelope.DeliverBy, envelope.Serialized)];
      r := Pass;
    }

    /** StoreOutgoing for a batch owned by `ownerId`: all rows are
      inserted, or none when a destination is missing or an id repeats or
      is already stored. */
    method StoreOutgoingBatch(envelopes: seq<Envelope>, ownerId: int) returns (r: Outcome<StoreError>)
      modifies db`outgoing
      ensures r.Pass? <==> (forall i :: 0 <= i < |envelopes| ==> envelopes[i].Destination.Some?)
                           && (forall i, j :: 0 <= i < j < |envelopes| ==> envelopes[i].Id != envelopes[j].Id)
                           && (forall i :: 0 <= i < |envelopes| ==> envelopes[i].Id !in old(db.outgoing))
      ensures r.Fail? ==> db.outgoing == old(db.outgoing)
      ensures r.Pass? ==> db.outgoing.Keys == old(db.outgoing).Keys + EnvelopeIds(envelopes)
      ensures r.Pass? ==> forall id :: id in old(db.outgoing) ==> db.outgoing[id] == old(db.outgoing)[id]
      ensures r.Pass? ==> forall i :: 0 <= i < |envelopes| ==>
                db.outgoing[envelopes[i].Id] == OutgoingRow(ownerId, envelopes[i].Destination.value,
                                                            envelopes[i].DeliverBy, envelopes[i].Serialized)
    {
      var built := BuildOutgoingStorageCommand(envelopes, ownerId);
      if built.Failure? {
        return Fail(built.error);
      }
      var command := built.value;
      InsertRowsOutcome(db.outgoing, command);
      CommandIds(envelopes, command, db.outgoing.Keys);
      var inserted := InsertRows(db.outgoing, command);
      match inserted
      case Success(table) =>
        db.outgoing := table;
        r := Pass;
      case Failure(id) =>
        r := Fail(DuplicateKey(id));
    }

    /** StoreOutgoing inside the caller's transaction: the same batch
      insert as StoreOutgoingBatch, with every row owned by this node. */
    method StoreOutgoingInTransaction(envelopes: seq<Envelope>) returns (r: Outcome<StoreError>)
      modifies db`outgoing
      ensures r.Pass? <==> (forall i :: 0 <= i < |envelopes| ==> envelopes[i].Destination.Some?)
                           && (forall i, j :: 0 <= i < j < |envelopes| ==> envelopes[i].Id != envelopes[j].Id)
                           && (forall i :: 0 <= i < |envelopes| ==> envelopes[i].Id !in old(db.outgoing))
      ensures r.Fail? ==> db.outgoing == old(db.outgoing)
      ensures r.Pass? ==> db.outgoing.Keys == old(db.outgoing).Keys + EnvelopeIds(envelopes)
      ensures r.Pass? ==> forall id :: id in old(db.outgoing) ==> db.outgoing[id] == old(db.outgoing)[id]
      ensures r.Pass? ==> forall i :: 0 <= i < |envelopes| ==>
                db.outgoing[envelopes[i].Id] == OutgoingRow(uniqueNodeId, envelopes[i].Destination.value,
                                                            envelopes[i].DeliverBy, envelopes[i].Serialized)
    {
      r := StoreOutgoingBatch(envelopes, uniqueNodeId);
    }
  }
}
