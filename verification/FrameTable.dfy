/** The frames table: one row per segment and index, whose id never changes. */
module FrameTable {
  import opened Domain
  import opened Faults

  /** A frame as a caller has it: `id` is new until the table says otherwise. */
  datatype Frame = Frame(id: nat, key: FrameKey, timestampMs: int)

  datatype Row = Row(id: nat, timestampMs: int)

  predicate Distinct(frames: seq<Frame>) {
    forall i, j :: 0 <= i < j < |frames| ==> frames[i].key != frames[j].key
  }

  /** Rows after an upsert: an existing row keeps its id. */
  function Upserted(rows: map<FrameKey, Row>, frames: seq<Frame>): map<FrameKey, Row> {
    if frames == [] then rows
    else
      var r, f := Upserted(rows, frames[..|frames| - 1]), frames[|frames| - 1];
      r[f.key := Row(if f.key in r then r[f.key].id else f.id, f.timestampMs)]
  }

  /** The frames with the ids of their rows. */
  function Identified(rows: map<FrameKey, Row>, frames: seq<Frame>): seq<Frame> {
    seq(|frames|, i requires 0 <= i < |frames| =>
      if frames[i].key in rows then frames[i].(id := rows[frames[i].key].id) else frames[i])
  }

  lemma {:induction false} UpsertKeepsIds(rows: map<FrameKey, Row>, frames: seq<Frame>)
    ensures forall k :: k in rows ==> k in Upserted(rows, frames) && Upserted(rows, frames)[k].id == rows[k].id
    ensures forall i :: 0 <= i < |frames| ==> frames[i].key in Upserted(rows, frames)
    ensures forall k :: k in Upserted(rows, frames) && k !in rows ==>
      exists i :: 0 <= i < |frames| && frames[i].key == k
  {
    if frames != [] {
      UpsertKeepsIds(rows, frames[..|frames| - 1]);
    }
  }

  /** The row of a frame that occurs once has the frame's data, and its id if the row is new. */
  lemma {:induction false} UpsertStores(rows: map<FrameKey, Row>, frames: seq<Frame>, i: nat)
    requires i < |frames| && Distinct(frames)
    ensures var k := frames[i].key;
      k in Upserted(rows, frames)
      && Upserted(rows, frames)[k] == Row(if k in rows then rows[k].id else frames[i].id, frames[i].timestampMs)
  {
    var init := frames[..|frames| - 1];
    if i < |init| {
      UpsertStores(rows, init, i);
    } else {
      UpsertLeaves(rows, init, frames[i].key);
    }
  }

  lemma {:induction false} UpsertLeaves(rows: map<FrameKey, Row>, frames: seq<Frame>, k: FrameKey)
    requires forall i :: 0 <= i < |frames| ==> frames[i].key != k
    ensures k in Upserted(rows, frames) <==> k in rows
    ensures k in rows ==> Upserted(rows, frames)[k] == rows[k]
  {
    if frames != [] {
      UpsertLeaves(rows, frames[..|frames| - 1], k);
    }
  }

  /** Storing the frames of a segment again, with whatever new ids, gives every frame the id it had. */
  lemma {:induction false} RerunKeepsIds(rows: map<FrameKey, Row>, frames: seq<Frame>, again: seq<Frame>,
                                         i: nat, j: nat)
    requires i < |frames| && j < |again| && frames[i].key == again[j].key
    ensures var once := Upserted(rows, frames); var twice := Upserted(once, again);
      frames[i].key in once && Identified(twice, again)[j].id == once[frames[i].key].id
  {
    UpsertKeepsIds(rows, frames);
    UpsertKeepsIds(Upserted(rows, frames), again);
  }

  class Table {
    const reliable: bool
    var rows: map<FrameKey, Row>

    constructor (reliable: bool)
      ensures rows == map[] && this.reliable == reliable
    {
      this.reliable, rows := reliable, map[];
    }

    /**
     Inserts or updates all rows in one statement and writes the stored ids back into the
     frames.  The statement fails as a whole, also when a key occurs twice in it.
     */
    method UpsertAll(frames: array<Frame>) returns (ok: bool)
      modifies this, frames
      ensures frames.Length == 0 ==> ok
      ensures ok ==> Distinct(old(frames[..]))
      ensures reliable ==> (ok <==> Distinct(old(frames[..])))
      ensures reliable && (forall i, j :: 0 <= i < j < frames.Length ==> old(frames[i]).key != old(frames[j]).key) ==>
        ok
      ensures rows == if ok then Upserted(old(rows), old(frames[..])) else old(rows)
      ensures frames[..] == if ok then Identified(rows, old(frames[..])) else old(frames[..])
    {
      if frames.Length == 0 {
        return true;
      }
      ok := Try(reliable);
      if !ok || !Distinct(frames[..]) {
        return false;
      }
      ghost var before := frames[..];
      for i := 0 to frames.Length
        invariant rows == Upserted(old(rows), before[..i])
        invariant frames[..] == before
      {
        var f := frames[i];
        assert before[..i + 1][..i] == before[..i];
        rows := rows[f.key := Row(if f.key in rows then rows[f.key].id else f.id, f.timestampMs)];
      }
      assert before[..frames.Length] == before;
      for i := 0 to frames.Length
        invariant forall k :: 0 <= k < i ==> frames[k] == Identified(rows, before)[k]
        invariant forall k :: i <= k < frames.Length ==> frames[k] == before[k]
        invariant rows == Upserted(old(rows), before)
      {
        if frames[i].key in rows {
          frames[i] := frames[i].(id := rows[frames[i].key].id);
        }
      }
    }
  }
}
