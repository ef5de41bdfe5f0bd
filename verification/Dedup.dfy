/** Marks of processed events, and the wrapper around handlers. */
module Dedup {
  import opened Domain
  import opened Faults
  import opened Messaging

  /** One row of the processed-events table. */
  datatype Mark = Mark(event: nat, handler: string)

  /** What the `eventId` of a payload is. */
  datatype EventRef = Malformed | Missing | NotAUuid | Event(id: nat)

  /** An id that is no UUID is only refused by the table, like any of its errors. */
  function Refusal(ref: EventRef): Outcome {
    if ref.NotAUuid? then Retryable else NonRetryable
  }

  /**
   One run of a handler: what it returned, and whether its mark was still there afterwards.  The
   outcome is None if the run never came to an end: the worker was killed, or the access that
   inserted the mark reported an error and the handler was not called.
   */
  datatype Ran = Ran(outcome: Option<Outcome>, kept: bool)

  function Successes(t: seq<Ran>): nat {
    if t == [] then 0 else Successes(t[..|t| - 1]) + if t[|t| - 1].outcome == Some(Ok) then 1 else 0
  }

  /** A run that failed or was interrupted and still kept its mark: a later delivery skips the handler. */
  predicate Swallows(r: Ran) {
    r.kept && r.outcome != Some(Ok)
  }

  predicate Lost(t: seq<Ran>) {
    exists i :: 0 <= i < |t| && Swallows(t[i])
  }

  predicate Returns(t: seq<Ran>, r: Outcome) {
    exists i :: 0 <= i < |t| && t[i].outcome == Some(r)
  }

  /**
   All runs but the last released their mark, and only retryable failures are released.  In a
   smooth life (the table can always be reached and no worker was killed) every run returned and
   every retryable failure is released.
   */
  ghost predicate Settled(smooth: bool, t: seq<Ran>, marked: bool) {
    && (forall i :: 0 <= i < |t| - 1 ==> !t[i].kept)
    && (forall i :: 0 <= i < |t| && !t[i].kept ==> t[i].outcome == Some(Retryable))
    && (smooth ==> forall i :: 0 <= i < |t| && t[i].kept ==> t[i].outcome.Some? && t[i].outcome != Some(Retryable))
    && (if t == [] then !marked else t[|t| - 1].kept == marked)
  }

  lemma {:induction false} ReleasedNeverSucceeded(t: seq<Ran>)
    requires !Returns(t, Ok)
    ensures Successes(t) == 0
  {
    if t != [] {
      assert t[|t| - 1].outcome != Some(Ok);
      assert forall i :: 0 <= i < |t| - 1 ==> t[..|t| - 1][i] == t[i];
      ReleasedNeverSucceeded(t[..|t| - 1]);
    }
  }

  /**
   A marked handler has succeeded exactly once, unless a failed or interrupted run kept the mark:
   then never.  In a smooth life only an error that is not retried can keep it.
   */
  lemma MarkedMeansOnce(smooth: bool, t: seq<Ran>)
    requires Settled(smooth, t, true)
    ensures Successes(t) == if Lost(t) then 0 else 1
    ensures smooth ==> (Lost(t) <==> Returns(t, Unclassified) || Returns(t, NonRetryable))
  {
    var last := t[|t| - 1];
    ReleasedNeverSucceeded(t[..|t| - 1]);
    assert smooth ==> last.outcome.Some? && !last.outcome.value.Retryable?;
    assert last.outcome.Some? ==>
      var o := last.outcome.value; o.Ok? || o.Retryable? || o.NonRetryable? || o.Unclassified?;
    assert Lost(t) <==> Swallows(last);
    assert Returns(t, Unclassified) <==> last.outcome == Some(Unclassified);
    assert Returns(t, NonRetryable) <==> last.outcome == Some(NonRetryable);
  }

  /**
   What one call of the wrapper may do to a handler's runs and its mark; `r` is None when the
   worker is killed before the call returns.
   */
  ghost predicate Handled(reliable: bool, t: seq<Ran>, marked: bool, r: Option<Outcome>, t': seq<Ran>, marked': bool) {
    match r
    case None =>
      || (t' == t && marked' == marked)
      || (!marked && marked' && (t' == t + [Ran(None, true)] || t' == t + [Ran(Some(Retryable), true)]))
    case Some(x) =>
      || (marked && x == Ok && t' == t && marked')
      || (!marked && t' == t + [Ran(r, marked')]
          && (!marked' ==> x == Retryable) && (reliable && x == Retryable ==> !marked'))
      || (!reliable && x == Retryable && t' == t && marked' == marked)
      || (!reliable && x == Retryable && !marked && marked' && t' == t + [Ran(None, true)])
  }

  lemma HandledSettles(smooth: bool, reliable: bool, t: seq<Ran>, marked: bool, r: Option<Outcome>, t': seq<Ran>,
                       marked': bool)
    requires Settled(smooth, t, marked) && Handled(reliable, t, marked, r, t', marked') && (smooth ==> reliable)
    ensures Settled(smooth && r.Some?, t', marked')
    ensures r == Some(Ok) ==> marked'
  {
  }

  /** Runs that failed or never returned. */
  function Failures(t: seq<Ran>): int {
    |t| - Successes(t)
  }

  /** With a table that can be reached, a call that fails is a run that failed. */
  lemma HandledCounts(t: seq<Ran>, marked: bool, r: Option<Outcome>, t': seq<Ran>, marked': bool)
    requires Handled(true, t, marked, r, t', marked')
    ensures r.Some? ==> Failures(t') == Failures(t) + if r == Some(Ok) then 0 else 1
    ensures r.None? ==> Failures(t) <= Failures(t') <= Failures(t) + 1
  {
    assert !marked && t' != t ==> t'[..|t'| - 1] == t;
  }

  /** The processed-events table together with everything handlers did. */
  datatype Ledger = Ledger(reliable: bool, marks: set<Mark>, runs: map<Mark, seq<Ran>>)
  {
    function Trace(m: Mark): seq<Ran> {
      if m in runs then runs[m] else []
    }
  }

  ghost predicate Did(a: Ledger, m: Mark, r: Option<Outcome>, b: Ledger) {
    Handled(a.reliable, a.Trace(m), m in a.marks, r, b.Trace(m), m in b.marks)
  }

  /** The handler has been called and has returned between the two states. */
  ghost predicate HasReturned(a: Ledger, m: Mark, b: Ledger) {
    |a.Trace(m)| < |b.Trace(m)| && b.Trace(m)[|b.Trace(m)| - 1].outcome.Some?
  }

  predicate Same(a: Ledger, m: Mark, b: Ledger) {
    a.Trace(m) == b.Trace(m) && (m in a.marks <==> m in b.marks)
  }

  class Marks {
    /** Whether the table can always be reached; nothing is promised otherwise. */
    const reliable: bool
    var marks: set<Mark>
    ghost var runs: map<Mark, seq<Ran>>

    constructor (reliable: bool)
      ensures State() == Ledger(reliable, {}, map[])
    {
      this.reliable, marks, runs := reliable, {}, map[];
    }

    ghost function State(): Ledger
      reads this
    {
      Ledger(reliable, marks, runs)
    }

    /**
     Inserts a row unless its key is there.  The table may be unreachable, and an error may be
     reported although the row has been inserted.
     */
    method MarkProcessed(event: nat, handler: string) returns (ok: bool, inserted: bool)
      modifies this`marks
      ensures reliable ==> ok
      ensures inserted ==> Mark(event, handler) !in old(marks)
      ensures ok ==> (inserted <==> Mark(event, handler) !in old(marks))
      ensures marks == if inserted then old(marks) + {Mark(event, handler)} else old(marks)
    {
      ok := Try(reliable);
      var arrived := Try(ok);
      inserted := arrived && Mark(event, handler) !in marks;
      if inserted {
        marks := marks + {Mark(event, handler)};
      }
    }

    /** Deletes the row; an error may be reported although it has been deleted. */
    method UnmarkProcessed(event: nat, handler: string) returns (ok: bool)
      modifies this`marks
      ensures reliable ==> ok
      ensures marks == old(marks) - {Mark(event, handler)} || (!ok && marks == old(marks))
    {
      ok := Try(reliable);
      var arrived := Try(ok);
      if arrived {
        marks := marks - {Mark(event, handler)};
      }
    }

    /**
     The wrapper around one handler, which answers `answer` if it is called: mark, run, release on a
     retryable failure.  Whatever it answers, whichever access to the table fails and wherever the
     worker is killed (r is None then), only this handler's runs and mark for this event change, as
     `Handled` says.
     */
    method With(ref: EventRef, handler: string, answer: Outcome, mayDie: bool) returns (r: Option<Outcome>)
      modifies this
      ensures r.None? ==> mayDie
      ensures !ref.Event? ==> State() == old(State()) && (r.Some? ==> r == Some(Refusal(ref)))
      ensures !ref.Event? && r.Some? ==> r == Some(if ref.NotAUuid? then Retryable else NonRetryable)
      ensures ref.Event? && HasReturned(old(State()), Mark(ref.id, handler), State()) && r.Some? ==> r == Some(answer)
      ensures ref.Event? ==> Did(old(State()), Mark(ref.id, handler), r, State())
      ensures ref.Event? ==> forall m :: m != Mark(ref.id, handler) ==> Same(old(State()), m, State())
    {
      var dead := Dies(mayDie);
      if dead {
        return None;
      }
      if ref.Malformed? || ref.Missing? {
        return Some(NonRetryable);
      }
      if ref.NotAUuid? {
        return Some(Retryable);
      }
      ghost var m := Mark(ref.id, handler);
      var ok, inserted := MarkProcessed(ref.id, handler);
      if !ok {
        if inserted {
          runs := runs[m := State().Trace(m) + [Ran(None, true)]];
        }
        return Some(Retryable);
      }
      if !inserted {
        return Some(Ok);
      }
      dead := Dies(mayDie);
      if dead {
        runs := runs[m := State().Trace(m) + [Ran(None, true)]];
        return None;
      }
      r := Some(answer);
      if answer == Retryable {
        dead := Dies(mayDie);
        if dead {
          runs := runs[m := State().Trace(m) + [Ran(r, true)]];
          return None;
        }
        var released := UnmarkProcessed(ref.id, handler);
      }
      runs := runs[m := State().Trace(m) + [Ran(r, m in marks)]];
    }
  }
}
