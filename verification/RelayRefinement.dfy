/** A poll of the relay refines the delivery protocol. */
module RelayRefinement {
  import opened Outbox
  import P = DeliveryProtocol

  /** The table as the protocol sees it: by id. */
  function View(rows: seq<Row>): map<nat, P.Row> {
    if rows == [] then map[]
    else
      var last := rows[|rows| - 1];
      View(rows[..|rows| - 1])[last.id := P.Row(last.createdAt, last.published)]
  }

  lemma {:induction false} ViewAt(rows: seq<Row>, i: nat)
    requires i < |rows| && UniqueIds(rows)
    ensures rows[i].id in View(rows) && View(rows)[rows[i].id] == P.Row(rows[i].createdAt, rows[i].published)
  {
    if i < |rows| - 1 {
      ViewAt(rows[..|rows| - 1], i);
    }
  }

  lemma {:induction false} ViewHas(rows: seq<Row>, id: nat) returns (i: nat)
    requires id in View(rows)
    ensures i < |rows| && rows[i].id == id
  {
    if rows[|rows| - 1].id == id {
      i := |rows| - 1;
    } else {
      i := ViewHas(rows[..|rows| - 1], id);
    }
  }

  /** Storing an event is the protocol's step, whether its id is taken or not. */
  lemma StoreRefines(rows: seq<Row>, e: NewEvent, s: P.Sender)
    requires UniqueIds(rows) && s.rows == View(rows)
    ensures P.SenderActs(s, P.Store(e.id, e.occurredAt), s.(rows := View(Inserted(rows, [e]))))
  {
    assert [e][..0] == [];
    if e.id in Ids(rows) {
      var i :| 0 <= i < |rows| && rows[i].id == e.id;
      ViewAt(rows, i);
    } else {
      var row := Row(e.id, e.occurredAt, false);
      assert (rows + [row])[..|rows|] == rows;
      if e.id in View(rows) {
        var i := ViewHas(rows, e.id);
        assert false;
      }
    }
  }

  /** What the table returns is a batch the protocol allows. */
  lemma FetchRefines(rows: seq<Row>, limit: nat, s: P.Sender)
    requires UniqueIds(rows) && s.rows == View(rows)
    ensures P.IsBatch(s, IdsOf(Batch(rows, limit)))
  {
    var batch := Batch(rows, limit);
    var items := IdsOf(batch);
    forall k | 0 <= k < |items|
      ensures items[k] in s.rows && !s.rows[items[k]].published && s.rows[items[k]].createdAt == batch[k].createdAt
    {
      var _ := BatchRow(rows, limit, k);
    }
    forall k, e | 0 <= k < |items| && P.Older(s, e, items[k]) && !s.rows[e].published
      ensures e in items[..k]
    {
      var i := ViewHas(rows, e);
      ViewAt(rows, i);
      BatchIsOldest(rows, limit, k, rows[i]);
      var j :| 0 <= j < k && batch[..k][j] == rows[i];
      assert items[..k][j] == e;
    }
  }

  lemma BatchRow(rows: seq<Row>, limit: nat, k: nat) returns (i: nat)
    requires UniqueIds(rows) && k < |Batch(rows, limit)|
    ensures i < |rows| && rows[i] == Batch(rows, limit)[k] && !rows[i].published
    ensures rows[i].id in View(rows) && View(rows)[rows[i].id] == P.Row(rows[i].createdAt, false)
  {
    PendingIsSorted(rows);
    var row := Batch(rows, limit)[k];
    UnpublishedIs(rows, row);
    assert row == Pending(rows)[k] && row in multiset(Pending(rows));
    i :| 0 <= i < |rows| && rows[i] == row;
    ViewAt(rows, i);
  }

  /** Marking rows is the protocol's marking. */
  lemma {:induction false} MarkRefines(rows: seq<Row>, ids: set<nat>)
    ensures View(MarkedRows(rows, ids)) == P.Published(View(rows), ids)
  {
    if rows != [] {
      var init := rows[..|rows| - 1];
      MarkRefines(init, ids);
      assert MarkedRows(rows, ids)[..|rows| - 1] == MarkedRows(init, ids);
    }
  }

  // ----- A whole poll -----

  ghost predicate StepsTo(h: seq<P.Sender>, actions: seq<P.SendAction>, s: P.Sender, s': P.Sender) {
    && |h| == |actions| + 1 && h[0] == s && h[|h| - 1] == s'
    && forall i :: 0 <= i < |actions| ==> P.SenderActs(h[i], actions[i], h[i + 1])
  }

  lemma Then(h: seq<P.Sender>, actions: seq<P.SendAction>, s: P.Sender, s': P.Sender, a: P.SendAction, s'': P.Sender)
    returns (h': seq<P.Sender>, actions': seq<P.SendAction>)
    requires StepsTo(h, actions, s, s') && P.SenderActs(s', a, s'')
    ensures StepsTo(h', actions', s, s'')
  {
    h', actions' := h + [s''], actions + [a];
    forall i | 0 <= i < |actions'|
      ensures P.SenderActs(h'[i], actions'[i], h'[i + 1])
    {
      if i < |actions| {
        assert P.SenderActs(h[i], actions[i], h[i + 1]);
      }
    }
  }

  /** The protocol's state after the first `n` items of a batch have been sent by relay 0. */
  function AfterSends(s: P.Sender, items: seq<nat>, n: nat): P.Sender
    requires n <= |items|
  {
    s.(relays := s.relays[0 := P.Batch(items, n, s.rows.Keys)],
       sends := s.sends + seq(n, i requires 0 <= i < n => P.Send(items[i], s.rows.Keys)))
  }

  lemma {:induction false} SendsRefine(s: P.Sender, items: seq<nat>, n: nat)
    returns (h: seq<P.Sender>, actions: seq<P.SendAction>)
    requires n <= |items| && 0 !in s.relays && P.IsBatch(s, items)
    ensures StepsTo(h, actions, s, AfterSends(s, items, n))
  {
    if n == 0 {
      h, actions := [s, AfterSends(s, items, 0)], [P.Fetch(0, items)];
      assert AfterSends(s, items, 0) == s.(relays := s.relays[0 := P.Batch(items, 0, s.rows.Keys)]);
    } else {
      h, actions := SendsRefine(s, items, n - 1);
      var s', s'' := AfterSends(s, items, n - 1), AfterSends(s, items, n);
      assert s''.sends == s'.sends + [P.Send(items[n - 1], s.rows.Keys)];
      h, actions := Then(h, actions, s, s', P.SendNext(0), s'');
    }
  }

  ghost predicate Reaches(s: P.Sender, s': P.Sender) {
    exists h, actions :: StepsTo(h, actions, s, s')
  }

  /** The protocol's state after a poll that sent `n` events and marked `count` of them or none. */
  function AfterPoll(s: P.Sender, rows: seq<Row>, limit: nat, n: nat, count: nat, marked: bool): P.Sender
    requires count <= n <= |Batch(rows, limit)|
  {
    var items := IdsOf(Batch(rows, limit));
    s.(rows := View(if marked then MarkedRows(rows, Ids(Batch(rows, limit)[..count])) else rows),
       sends := s.sends + seq(n, i requires 0 <= i < n => P.Send(items[i], s.rows.Keys)))
  }

  /**
   However a poll ends, `n` events sent and `count` of them marked or none, its effect on table and
   broker is that of a run of the protocol: fetch, `n` sends, and mark or drop.
   */
  lemma PollRefines(rows: seq<Row>, limit: nat, n: nat, count: nat, marked: bool, s: P.Sender)
    requires UniqueIds(rows) && s.rows == View(rows) && 0 !in s.relays && count <= n <= |Batch(rows, limit)|
    ensures Reaches(s, AfterPoll(s, rows, limit, n, count, marked))
  {
    var items := IdsOf(Batch(rows, limit));
    FetchRefines(rows, limit, s);
    var h, actions := SendsRefine(s, items, n);
    var sent, s' := AfterSends(s, items, n), AfterPoll(s, rows, limit, n, count, marked);
    assert sent.relays - {0} == s.relays;
    if marked {
      MarkRefines(rows, Ids(Batch(rows, limit)[..count]));
      SentIds(Batch(rows, limit), count);
      h, actions := Then(h, actions, s, sent, P.MarkSent(0, count), s');
    } else {
      h, actions := Then(h, actions, s, sent, P.Drop(0), s');
    }
  }

  lemma SentIds(batch: seq<Row>, n: nat)
    requires n <= |batch|
    ensures Ids(batch[..n]) == set k | 0 <= k < n :: IdsOf(batch)[k]
  {
    forall x | x in Ids(batch[..n])
      ensures exists k :: 0 <= k < n && IdsOf(batch)[k] == x
    {
      var i :| 0 <= i < n && batch[..n][i].id == x;
      assert IdsOf(batch)[i] == x;
    }
    forall k | 0 <= k < n
      ensures IdsOf(batch)[k] in Ids(batch[..n])
    {
      assert batch[..n][k].id == IdsOf(batch)[k];
    }
  }
}
