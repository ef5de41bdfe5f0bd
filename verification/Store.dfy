/**
 The repositories of one video as the handlers see them.  Any read or commit may fail; a
 failed commit changes nothing.  The ghost history lists the committed states.
 */
module Repositories {
  import opened Pipeline

  /** How many reads and how many commits have failed so far. */
  datatype Faults = Faults(queries: nat, commits: nat)

  class Store {
    var db: Db
    ghost var history: seq<Db>
    ghost var faults: Faults

    /** Every committed state follows from the one before by one transaction. */
    ghost predicate Valid()
      reads this
    {
      History(history) && history[|history| - 1] == db
    }

    /** Valid, with nothing forgotten of an earlier history and its faults. */
    ghost predicate Follows(h: seq<Db>, f: Faults)
      reads this
    {
      Valid() && h <= history && f.queries <= faults.queries && f.commits <= faults.commits
    }

    constructor (d: Db)
      ensures Valid() && db == d && history == [d] && faults == Faults(0, 0)
    {
      db, history, faults := d, [d], Faults(0, 0);
    }

    /** Whether a read succeeds. */
    method Reads() returns (ok: bool)
      modifies this`faults
      ensures faults == if ok then old(faults) else old(faults).(queries := old(faults).queries + 1)
    {
      ok := *;
      if !ok {
        faults := faults.(queries := faults.queries + 1);
      }
    }

    method Commit(next: Db, ghost tx: Tx) returns (ok: bool)
      requires Valid() && Does(db, tx, next)
      modifies this
      ensures Follows(old(history), old(faults))
      ensures faults == if ok then old(faults) else old(faults).(commits := old(faults).commits + 1)
      ensures db == if ok then next else old(db)
    {
      ok := *;
      if ok {
        HistoryGrows(history, next, tx);
        db, history := next, history + [next];
      } else {
        faults := faults.(commits := faults.commits + 1);
      }
    }
  }

  lemma HistoryGrows(h: seq<Db>, next: Db, tx: Tx)
    requires History(h) && Does(h[|h| - 1], tx, next)
    ensures History(h + [next])
  {
    var h' := h + [next];
    forall i | 0 <= i < |h'| - 1
      ensures StepAt(h', i)
    {
      if i < |h| - 1 {
        assert StepAt(h, i);
      }
    }
  }
}
