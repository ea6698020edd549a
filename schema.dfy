/** The three envelope tables. Each is keyed by envelope id (its primary
    key), so a table is a map from id to row and holds at most one row per
    id; an insert of an id already present fails. */
module Schema {
  import opened Common
  import opened Envelopes

  /** A row of the incoming table. */
  datatype IncomingRow = IncomingRow(
    status: EnvelopeStatus,
    ownerId: int,
    executionTime: Option<int>,
    attempts: int,
    body: seq<byte>)

  /** A row of the outgoing table. */
  datatype OutgoingRow = OutgoingRow(
    ownerId: int,
    destination: Uri,
    deliverBy: Option<int>,
    body: seq<byte>)

  /** A row of the dead-letter table. */
  datatype DeadLetterRow = DeadLetterRow(
    source: Option<string>,
    messageType: Option<string>,
    explanation: Option<string>,
    exceptionText: Option<string>,
    exceptionType: Option<string>,
    exceptionMessage: Option<string>,
    body: seq<byte>)

  /** The contents of all three tables at one moment. */
  datatype Tables = Tables(
    incoming: map<Guid, IncomingRow>,
    outgoing: map<Guid, OutgoingRow>,
    deadLetters: map<Guid, DeadLetterRow>)

  /** The shared database holding the three tables. */
  class EnvelopeDatabase {
    var incoming: map<Guid, IncomingRow>
    var outgoing: map<Guid, OutgoingRow>
    var deadLetters: map<Guid, DeadLetterRow>

    constructor ()
      ensures incoming == map[] && outgoing == map[] && deadLetters == map[]
    {
      incoming, outgoing, deadLetters := map[], map[], map[];
    }

    function Contents(): Tables
      reads this
    {
      Tables(incoming, outgoing, deadLetters)
    }

    /** Puts the tables back as they were in `tables`. */
    method Restore(tables: Tables)
      modifies this
      ensures Contents() == tables
    {
      incoming, outgoing, deadLetters := tables.incoming, tables.outgoing, tables.deadLetters;
    }
  }

  /** The ids a batch of rows is keyed by. */
  function Ids<R>(rows: seq<(Guid, R)>): set<Guid>
  {
    set i | 0 <= i < |rows| :: rows[i].0
  }

  /** No id occurs twice in a batch of rows. */
  predicate DistinctIds<R>(rows: seq<(Guid, R)>)
  {
    forall i, j :: 0 <= i < j < |rows| ==> rows[i].0 != rows[j].0
  }

  /** A batch of inserts into a table keyed by id, run as one statement
      batch: the first insert whose id is already present violates the
      primary key, and then the batch fails with that id and nothing is
      inserted. */
  function InsertRows<R>(table: map<Guid, R>, rows: seq<(Guid, R)>): Result<map<Guid, R>, Guid>
    decreases |rows|
  {
    if |rows| == 0 then Success(table)
    else if rows[0].0 in table then Failure(rows[0].0)
    else InsertRows(table[rows[0].0 := rows[0].1], rows[1..])
  }

  /** A batch insert succeeds exactly when its ids are distinct and new to
      the table. Then it adds one row per insert, keyed by its id, and keeps
      every row already there; when it fails, it names an id of the batch. */
  lemma {:induction false} InsertRowsOutcome<R>(table: map<Guid, R>, rows: seq<(Guid, R)>)
    ensures InsertRows(table, rows).Success? <==> DistinctIds(rows) && Ids(rows) !! table.Keys
    ensures InsertRows(table, rows).Failure? ==> InsertRows(table, rows).error in Ids(rows)
    ensures InsertRows(table, rows).Success? ==>
              var t := InsertRows(table, rows).value;
              && t.Keys == table.Keys + Ids(rows)
              && (forall id :: id in table ==> t[id] == table[id])
              && (forall i :: 0 <= i < |rows| ==> t[rows[i].0] == rows[i].1)
    decreases |rows|
  {
    if |rows| > 0 {
      var head, rest := rows[0], rows[1..];
      assert Ids(rows) == {head.0} + Ids(rest) by {
        forall id | id in Ids(rows) ensures id in {head.0} + Ids(rest) {
          var i :| 0 <= i < |rows| && rows[i].0 == id;
          if i > 0 { assert rest[i - 1] == rows[i]; }
        }
        forall id | id in Ids(rest) ensures id in Ids(rows) {
          var i :| 0 <= i < |rest| && rest[i].0 == id;
          assert rows[i + 1] == rest[i];
        }
      }
      if head.0 in table {
        assert !(Ids(rows) !! table.Keys);
      } else {
        var next := table[head.0 := head.1];
        InsertRowsOutcome(next, rest);
        assert DistinctIds(rows) <==> DistinctIds(rest) && head.0 !in Ids(rest) by {
          if DistinctIds(rows) {
            forall i, j | 0 <= i < j < |rest| ensures rest[i].0 != rest[j].0 {
              assert rest[i] == rows[i + 1] && rest[j] == rows[j + 1];
            }
            forall i | 0 <= i < |rest| ensures rest[i].0 != head.0 {
              assert rest[i] == rows[i + 1];
            }
          }
          if DistinctIds(rest) && head.0 !in Ids(rest) {
            forall i, j | 0 <= i < j < |rows| ensures rows[i].0 != rows[j].0 {
              assert rows[j] == rest[j - 1];
              if i > 0 { assert rows[i] == rest[i - 1]; }
            }
          }
        }
        if InsertRows(table, rows).Success? {
          var t := InsertRows(table, rows).value;
          forall i | 0 <= i < |rows| ensures t[rows[i].0] == rows[i].1 {
            if i > 0 { assert rows[i] == rest[i - 1]; }
            else {
              assert head.0 !in Ids(rest);
            }
          }
        }
      }
    }
  }
}
