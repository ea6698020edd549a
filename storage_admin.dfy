/** The administrative side of the PostgreSQL envelope store: counting,
    clearing, reading back and releasing the rows of the three tables. */
module StorageAdmin {
  import opened Common
  import opened Envelopes
  import opened Schema
  import opened Persistence

  /** How many rows the store holds: incoming rows by status, and all
      outgoing rows. */
  datatype PersistedCounts = PersistedCounts(incoming: int, scheduled: int, outgoing: int)

  /** A dead letter as read back. */
  datatype ErrorReport = ErrorReport(
    id: Guid,
    rawData: seq<byte>,
    explanation: string,
    exceptionText: string,
    exceptionType: string,
    exceptionMessage: string,
    source: string,
    messageType: string)

  /** Reading a NULL into a string field throws; the column is named. */
  datatype ReadError = NullColumn(column: string)

  /** What reading an envelope back from a table gives: its body (which
      also carries its id) with the status and owner columns applied. */
  datatype EnvelopeView = EnvelopeView(body: seq<byte>, status: EnvelopeStatus, ownerId: int)

  /** `select status, count(*) from incoming group by status`: one entry
      per status that occurs, counting the rows with it. */
  function StatusCounts(incoming: map<Guid, IncomingRow>): (r: map<EnvelopeStatus, nat>)
    ensures forall s :: s in r <==> exists id :: id in incoming && incoming[id].status == s
    ensures forall s :: s in r ==> r[s] == |IdsWithStatus(incoming, s)|
  {
    map s | s in (set id | id in incoming :: incoming[id].status) :: |IdsWithStatus(incoming, s)|
  }

  /** The dead-letter query for one id: no row gives no report; the first
      NULL column among those read (explanation, exception text, type and
      message, source, message type, in that order) throws; otherwise the
      report carries the row's columns. */
  function ReadDeadLetter(deadLetters: map<Guid, DeadLetterRow>, id: Guid): (r: Result<Option<ErrorReport>, ReadError>)
    ensures r == Success(None) <==> id !in deadLetters
    ensures r.Failure? <==> id in deadLetters && !Complete(deadLetters[id])
    ensures r.Success? && r.value.Some? ==>
              var row := deadLetters[id];
              r.value.value == ErrorReport(id, row.body, row.explanation.value, row.exceptionText.value,
                                           row.exceptionType.value, row.exceptionMessage.value,
                                           row.source.value, row.messageType.value)
  {
    if id !in deadLetters then Success(None)
    else
      var row := deadLetters[id];
      if row.explanation.None? then Failure(NullColumn("explanation"))
      else if row.exceptionText.None? then Failure(NullColumn("exception_text"))
      else if row.exceptionType.None? then Failure(NullColumn("exception_type"))
      else if row.exceptionMessage.None? then Failure(NullColumn("exception_message"))
      else if row.source.None? then Failure(NullColumn("source"))
      else if row.messageType.None? then Failure(NullColumn("message_type"))
      else Success(Some(ErrorReport(id, row.body, row.explanation.value, row.exceptionText.value,
                                    row.exceptionType.value, row.exceptionMessage.value,
                                    row.source.value, row.messageType.value)))
  }

  /** Every nullable column of a dead-letter row holds a value. */
  predicate Complete(row: DeadLetterRow)
  {
    row.explanation.Some? && row.exceptionText.Some? && row.exceptionType.Some?
    && row.exceptionMessage.Some? && row.source.Some? && row.messageType.Some?
  }

  /** A report stored as a dead-letter row with every column filled reads
      back as the same report. */
  lemma {:induction false} DeadLetterRoundTrip(deadLetters: map<Guid, DeadLetterRow>, report: ErrorReport)
    ensures ReadDeadLetter(deadLetters[report.id := DeadLetterRow(Some(report.source), Some(report.messageType),
                                                                  Some(report.explanation), Some(report.exceptionText),
                                                                  Some(report.exceptionType), Some(report.exceptionMessage),
                                                                  report.rawData)], report.id)
            == Success(Some(report))
  {
  }

  /** `select body, status, owner_id from incoming`: every incoming row,
      with its own status and owner. */
  function IncomingViews(incoming: map<Guid, IncomingRow>): (r: map<Guid, EnvelopeView>)
    ensures r.Keys == incoming.Keys
    ensures forall id :: id in r ==>
              r[id].body == incoming[id].body && r[id].status == incoming[id].status && r[id].ownerId == incoming[id].ownerId
  {
    map id | id in incoming :: EnvelopeView(incoming[id].body, incoming[id].status, incoming[id].ownerId)
  }

  /** `select body, 'Outgoing', owner_id from outgoing`: every outgoing
      row, always with status Outgoing, with its owner. */
  function OutgoingViews(outgoing: map<Guid, OutgoingRow>): (r: map<Guid, EnvelopeView>)
    ensures r.Keys == outgoing.Keys
    ensures forall id :: id in r ==>
              r[id].body == outgoing[id].body && r[id].status == Outgoing && r[id].ownerId == outgoing[id].ownerId
  {
    map id | id in outgoing :: EnvelopeView(outgoing[id].body, Outgoing, outgoing[id].ownerId)
  }

  /** Once every row is owned by any node, the owner query finds no
      owner for any node: there is nothing left to reassign. */
  lemma {:induction false} ReleasedStoreHasNoOwners(incoming: map<Guid, IncomingRow>, outgoing: map<Guid, OutgoingRow>,
                                                    currentNodeId: int)
    requires forall id :: id in incoming ==> incoming[id].ownerId == AnyNode
    requires forall id :: id in outgoing ==> outgoing[id].ownerId == AnyNode
    ensures UniqueOwners(incoming, outgoing, currentNodeId) == {}
  {
    UniqueOwnersMembers(incoming, outgoing, currentNodeId);
  }

  /** The storage administration for the PostgreSQL envelope tables. */
  class PostgresqlEnvelopeStorageAdmin {
    const db: EnvelopeDatabase

    constructor (db: EnvelopeDatabase)
      ensures this.db == db
    {
      this.db := db;
    }

    /** ClearAllPersistedEnvelopes: truncates all three tables. */
    method ClearAllPersistedEnvelopes()
      modifies db
      ensures db.incoming == map[] && db.outgoing == map[] && db.deadLetters == map[]
    {
      TruncateEnvelopeData();
    }

    /** The three truncate statements. */
    method TruncateEnvelopeData()
      modifies db
      ensures db.incoming == map[] && db.outgoing == map[] && db.deadLetters == map[]
    {
      db.outgoing, db.incoming, db.deadLetters := map[], map[], map[];
    }

    /** RebuildSchemaObjects: once the tables exist in their declared
      shape, they are truncated; the store ends empty. */
    method RebuildSchemaObjects()
      modifies db
      ensures db.incoming == map[] && db.outgoing == map[] && db.deadLetters == map[]
    {
      TruncateEnvelopeData();
    }

    /** GetPersistedCounts: reads the group-by-status rows one by one,
      keeping the Incoming and Scheduled counts, then counts the outgoing
      rows. */
    method GetPersistedCounts() returns (counts: PersistedCounts)
      ensures counts.incoming == |IdsWithStatus(db.incoming, Incoming)|
      ensures counts.scheduled == |IdsWithStatus(db.incoming, Scheduled)|
      ensures counts.outgoing == |db.outgoing|
    {
      var groups := StatusCounts(db.incoming);
      var remaining := groups.Keys;
      counts := PersistedCounts(0, 0, 0);
      while remaining != {}
        invariant remaining <= groups.Keys
        invariant counts.incoming == if Incoming in groups && Incoming !in remaining then groups[Incoming] else 0
        invariant counts.scheduled == if Scheduled in groups && Scheduled !in remaining then groups[Scheduled] else 0
        decreases remaining
      {
        var status :| status in remaining;
        var count := groups[status];
        if status == Incoming {
          counts := counts.(incoming := count);
        } else if status == Scheduled {
          counts := counts.(scheduled := count);
        }
        remaining := remaining - {status};
      }
      counts := counts.(outgoing := |db.outgoing|);
      if Incoming !in groups {
        assert IdsWithStatus(db.incoming, Incoming) == {};
      }
      if Scheduled !in groups {
        assert IdsWithStatus(db.incoming, Scheduled) == {};
      }
    }

    /** LoadDeadLetterEnvelope (see ReadDeadLetter). */
    function LoadDeadLetterEnvelope(id: Guid): Result<Option<ErrorReport>, ReadError>
      reads db
    {
      ReadDeadLetter(db.deadLetters, id)
    }

    /** AllIncomingEnvelopes (see IncomingViews). */
    function AllIncomingEnvelopes(): map<Guid, EnvelopeView>
      reads db
    {
      IncomingViews(db.incoming)
    }

    /** AllOutgoingEnvelopes (see OutgoingViews). */
    function AllOutgoingEnvelopes(): map<Guid, EnvelopeView>
      reads db
    {
      OutgoingViews(db.outgoing)
    }

    /** ReleaseAllOwnership: every incoming and outgoing row passes to any
      node; no other column changes and no row is added or removed. */
    method ReleaseAllOwnership()
      modifies db`incoming, db`outgoing
      ensures db.incoming.Keys == old(db.incoming).Keys && db.outgoing.Keys == old(db.outgoing).Keys
      ensures forall id :: id in db.incoming ==> db.incoming[id] == old(db.incoming)[id].(ownerId := AnyNode)
      ensures forall id :: id in db.outgoing ==> db.outgoing[id] == old(db.outgoing)[id].(ownerId := AnyNode)
    {
      db.incoming := map id | id in db.incoming :: db.incoming[id].(ownerId := AnyNode);
      db.outgoing := map id | id in db.outgoing :: db.outgoing[id].(ownerId := AnyNode);
    }
  }
}
