/** The outbox table and the relay that publishes it in batches. */
module Outbox {

  /** Payloads are left out: an event is known by its id. */
  datatype Row = Row(id: nat, createdAt: int, published: bool)

  function Ids(rows: seq<Row>): set<nat> {
    set i | 0 <= i < |rows| :: rows[i].id
  }

  ghost predicate UniqueIds(rows: seq<Row>) {
    forall i, j :: 0 <= i < j < |rows| ==> rows[i].id != rows[j].id
  }

  // ----- Storing -----

  datatype NewEvent = NewEvent(id: nat, occurredAt: int)

  /** An event whose id is taken, also by an earlier one of the same call, is skipped. */
  function Inserted(rows: seq<Row>, events: seq<NewEvent>): seq<Row> {
    if events == [] then rows
    else
      var r, last := Inserted(rows, events[..|events| - 1]), events[|events| - 1];
      if last.id in Ids(r) then r else r + [Row(last.id, last.occurredAt, false)]
  }

  /** Rows are only added, each id has one row, and every stored event has one. */
  lemma {:induction false} InsertedKeeps(rows: seq<Row>, events: seq<NewEvent>)
    ensures rows <= Inserted(rows, events)
    ensures UniqueIds(rows) ==> UniqueIds(Inserted(rows, events))
    ensures Ids(Inserted(rows, events)) == Ids(rows) + (set i | 0 <= i < |events| :: events[i].id)
  {
    if events != [] {
      var init, last := events[..|events| - 1], events[|events| - 1];
      InsertedKeeps(rows, init);
      assert (set i | 0 <= i < |events| :: events[i].id) == (set i | 0 <= i < |init| :: init[i].id) + {last.id};
      var r := Inserted(rows, init);
      if last.id !in Ids(r) {
        AppendedIds(r, Row(last.id, last.occurredAt, false));
      }
    }
  }

  lemma AppendedIds(rows: seq<Row>, row: Row)
    ensures Ids(rows + [row]) == Ids(rows) + {row.id}
  {
    var all := rows + [row];
    forall x | x in Ids(rows) + {row.id}
      ensures x in Ids(all)
    {
      if x == row.id {
        assert all[|rows|].id == x;
      } else {
        var i :| 0 <= i < |rows| && rows[i].id == x;
        assert all[i].id == x;
      }
    }
  }

  /** Storing the same events again changes nothing. */
  lemma {:induction false} StoringTwice(rows: seq<Row>, events: seq<NewEvent>)
    requires forall i :: 0 <= i < |events| ==> events[i].id in Ids(rows)
    ensures Inserted(rows, events) == rows
  {
    if events != [] {
      StoringTwice(rows, events[..|events| - 1]);
    }
  }

  // ----- Fetching -----

  predicate Sorted(rows: seq<Row>) {
    forall i, j :: 0 <= i < j < |rows| ==> rows[i].createdAt <= rows[j].createdAt
  }

  /** The unpublished rows by creation time, as they are listed. */
  function Pending(rows: seq<Row>): seq<Row> {
    if rows == [] then []
    else
      var last := rows[|rows| - 1];
      if last.published then Pending(rows[..|rows| - 1]) else Insert(Pending(rows[..|rows| - 1]), last)
  }

  /** Behind every row that is not later. */
  function Insert(sorted: seq<Row>, row: Row): seq<Row> {
    if sorted == [] then [row]
    else if sorted[|sorted| - 1].createdAt <= row.createdAt then sorted + [row]
    else Insert(sorted[..|sorted| - 1], row) + [sorted[|sorted| - 1]]
  }

  lemma {:induction false} InsertAdds(sorted: seq<Row>, row: Row)
    ensures multiset(Insert(sorted, row)) == multiset(sorted) + multiset{row}
  {
    if sorted != [] && sorted[|sorted| - 1].createdAt > row.createdAt {
      InsertAdds(sorted[..|sorted| - 1], row);
      assert sorted == sorted[..|sorted| - 1] + [sorted[|sorted| - 1]];
    }
  }

  lemma {:induction false} InsertSorts(sorted: seq<Row>, row: Row)
    requires Sorted(sorted)
    ensures Sorted(Insert(sorted, row))
  {
    if sorted != [] && sorted[|sorted| - 1].createdAt > row.createdAt {
      var init, last := sorted[..|sorted| - 1], sorted[|sorted| - 1];
      InsertSorts(init, row);
      InsertAdds(init, row);
      var rest := Insert(init, row);
      forall i | 0 <= i < |rest|
        ensures rest[i].createdAt <= last.createdAt
      {
        assert rest[i] in multiset(rest);
      }
    }
  }

  function Unpublished(rows: seq<Row>): multiset<Row> {
    if rows == [] then multiset{}
    else Unpublished(rows[..|rows| - 1]) + if rows[|rows| - 1].published then multiset{} else multiset{rows[|rows| - 1]}
  }

  /** Every unpublished row once, and no other, by creation time. */
  lemma {:induction false} PendingIsSorted(rows: seq<Row>)
    ensures Sorted(Pending(rows))
    ensures multiset(Pending(rows)) == Unpublished(rows)
  {
    if rows != [] {
      PendingIsSorted(rows[..|rows| - 1]);
      if !rows[|rows| - 1].published {
        InsertSorts(Pending(rows[..|rows| - 1]), rows[|rows| - 1]);
        InsertAdds(Pending(rows[..|rows| - 1]), rows[|rows| - 1]);
      }
    }
  }

  lemma {:induction false} UnpublishedIs(rows: seq<Row>, row: Row)
    ensures row in Unpublished(rows) <==> row in rows && !row.published
  {
    if rows != [] {
      UnpublishedIs(rows[..|rows| - 1], row);
      assert rows == rows[..|rows| - 1] + [rows[|rows| - 1]];
    }
  }

  function Batch(rows: seq<Row>, limit: nat): seq<Row> {
    var p := Pending(rows);
    if |p| <= limit then p else p[..limit]
  }

  lemma SameElements(p: seq<Row>, rows: seq<Row>, row: Row)
    requires multiset(p) == Unpublished(rows)
    ensures row in p <==> row in rows && !row.published
  {
    UnpublishedIs(rows, row);
    assert row in p <==> row in multiset(p);
  }

  /** A row that is left out of a batch is not older than any row in it. */
  lemma BatchIsOldest(rows: seq<Row>, limit: nat, k: nat, row: Row)
    requires k < |Batch(rows, limit)| && row in rows && !row.published
    ensures Batch(rows, limit)[k] in rows && !Batch(rows, limit)[k].published
    ensures row in Batch(rows, limit)[..k] || Batch(rows, limit)[k].createdAt <= row.createdAt
  {
    PendingIsSorted(rows);
    var p := Pending(rows);
    SameElements(p, rows, row);
    SameElements(p, rows, p[k]);
    var i :| 0 <= i < |p| && p[i] == row;
    if i < k {
      assert Batch(rows, limit)[..k][i] == row;
    }
  }

  // ----- Publishing -----

  function MarkedRows(rows: seq<Row>, ids: set<nat>): seq<Row> {
    seq(|rows|, i requires 0 <= i < |rows| => if rows[i].id in ids then rows[i].(published := true) else rows[i])
  }

  class Table {
    var rows: seq<Row>
    /** How many statements have reported an error. */
    ghost var faults: nat

    constructor ()
      ensures rows == [] && faults == 0
    {
      rows, faults := [], 0;
    }

    /** Whether a statement reports success. */
    method Answers() returns (ok: bool)
      modifies this`faults
      ensures faults == old(faults) + if ok then 0 else 1
    {
      ok := *;
      if !ok {
        faults := faults + 1;
      }
    }

    method StoreEvents(events: seq<NewEvent>) returns (ok: bool)
      modifies this
      ensures ok <==> faults == old(faults)
      ensures events == [] ==> ok
      ensures rows == if ok then Inserted(old(rows), events) else old(rows)
    {
      if events == [] {
        return true;
      }
      ok := Answers();
      if !ok {
        return;
      }
      ghost var before := rows;
      for i := 0 to |events|
        invariant rows == Inserted(before, events[..i]) && faults == old(faults)
      {
        assert events[..i + 1][..i] == events[..i];
        if events[i].id !in Ids(rows) {
          rows := rows + [Row(events[i].id, events[i].occurredAt, false)];
        }
      }
      assert events[..|events|] == events;
    }

    method FetchUnpublished(limit: nat) returns (ok: bool, batch: seq<Row>)
      modifies this`faults
      ensures ok <==> faults == old(faults)
      ensures ok ==> batch == Batch(rows, limit)
    {
      ok := Answers();
      batch := [];
      for i := 0 to |rows|
        invariant batch == Pending(rows[..i])
      {
        assert rows[..i + 1][..i] == rows[..i];
        if !rows[i].published {
          batch := Insert(batch, rows[i]);
        }
      }
      assert rows[..|rows|] == rows;
      if |batch| > limit {
        batch := batch[..limit];
      }
    }

    /** One statement; an error may be reported although it has taken effect. */
    method MarkPublished(ids: set<nat>) returns (ok: bool)
      modifies this
      ensures ok <==> faults == old(faults)
      ensures rows == MarkedRows(old(rows), ids) || (!ok && rows == old(rows))
    {
      ok := Answers();
      var arrived := *;
      if ok || arrived {
        rows := MarkedRows(rows, ids);
      }
    }
  }

  class Broker {
    /** The ids sent, in order. */
    var sent: seq<nat>
    ghost var faults: nat

    constructor ()
      ensures sent == [] && faults == 0
    {
      sent, faults := [], 0;
    }

    /** An error may be reported although the event has been sent. */
    method Publish(id: nat) returns (ok: bool)
      modifies this
      ensures faults == old(faults) + if ok then 0 else 1
      ensures sent == old(sent) + [id] || (!ok && sent == old(sent))
    {
      ok := *;
      var arrived := *;
      if ok || arrived {
        sent := sent + [id];
      }
      if !ok {
        faults := faults + 1;
      }
    }
  }

  function IdsOf(batch: seq<Row>): seq<nat> {
    seq(|batch|, i requires 0 <= i < |batch| => batch[i].id)
  }

  /**
   One poll: a prefix of the batch is sent, in order, up to the first failure; what was sent
   without an error is then marked (when marking reports an error, all of it or none).  The event
   whose sending reported an error may have been sent all the same, and is then not marked.  When
   nothing fails the whole batch is sent and marked.
   */
  method PublishBatch(table: Table, broker: Broker, batchSize: nat) returns (sent: nat, ghost arrived: nat, ok: bool)
    modifies table, broker
    ensures sent <= arrived <= |Batch(old(table.rows), batchSize)| && arrived <= sent + 1
    ensures ok <==> table.faults == old(table.faults)
    ensures broker.faults == old(broker.faults) ==> arrived == sent
    ensures ok && broker.faults == old(broker.faults) ==> sent == |Batch(old(table.rows), batchSize)|
    ensures broker.faults <= old(broker.faults) + 1
    ensures broker.sent == old(broker.sent) + IdsOf(Batch(old(table.rows), batchSize)[..arrived])
    ensures table.rows == MarkedRows(old(table.rows), Ids(Batch(old(table.rows), batchSize)[..sent]))
      || (!ok && table.rows == old(table.rows))
  {
    sent, arrived := 0, 0;
    var batch;
    ok, batch := table.FetchUnpublished(batchSize);
    if !ok {
      return 0, 0, false;
    }
    var published: set<nat> := {};
    while sent < |batch|
      invariant sent <= |batch| && arrived == sent
      invariant broker.sent == old(broker.sent) + IdsOf(batch[..sent])
      invariant published == Ids(batch[..sent]) && table.rows == old(table.rows)
      invariant broker.faults == old(broker.faults) && table.faults == old(table.faults)
      decreases |batch| - sent
    {
      ghost var before := broker.sent;
      var done := broker.Publish(batch[sent].id);
      assert batch[..sent + 1] == batch[..sent] + [batch[sent]];
      assert IdsOf(batch[..sent + 1]) == IdsOf(batch[..sent]) + [batch[sent].id];
      if !done {
        arrived := if broker.sent == before then sent else sent + 1;
        break;
      }
      AppendedIds(batch[..sent], batch[sent]);
      published := published + {batch[sent].id};
      sent, arrived := sent + 1, sent + 1;
    }
    if sent == 0 {
      assert MarkedRows(table.rows, Ids(batch[..0])) == table.rows;
      return 0, arrived, true;
    }
    ok := table.MarkPublished(published);
  }

  /** Nothing is marked published that was not sent, whatever fails during the poll. */
  lemma OnlySentIsMarked(rows: seq<Row>, limit: nat, sent: nat, row: Row)
    requires sent <= |Batch(rows, limit)| && row in MarkedRows(rows, Ids(Batch(rows, limit)[..sent])) && row.published
    ensures row in rows || row.id in IdsOf(Batch(rows, limit)[..sent])
  {
    var b := Batch(rows, limit)[..sent];
    var i :| 0 <= i < |rows| && MarkedRows(rows, Ids(b))[i] == row;
    if rows[i].id in Ids(b) {
      var k :| 0 <= k < |b| && b[k].id == row.id;
      assert IdsOf(b)[k] == row.id;
    }
  }
}
