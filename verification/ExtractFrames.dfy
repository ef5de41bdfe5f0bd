/** Extracting the frames of one segment. */
module ExtractFrames {
  import opened Domain
  import opened Pipeline
  import opened PipelineSafety
  import opened HandlerRuns
  import opened Repositories
  import opened Messaging
  import opened Jobs
  import V = VideoAggregate

  /**
   How the extractor ends: after emitting at least one frame, with an unreadable input (or no
   frame kept), or cut off by storage or a deadline.
   */
  datatype End = Done | Unreadable | Interrupted

  /** How extraction returns when no read or commit fails. */
  function EndOutcome(end: End): Outcome {
    match end
    case Done => Ok
    case Unreadable => NonRetryable
    case Interrupted => Retryable
  }

  function HandleOutcome(d: Db, s: nat, end: End): Outcome {
    if d.frameJob.None? || s !in d.segments then NonRetryable
    else if Is(d.frameJob, Success) || d.video.status == Failed || d.segments[s] == Success then Ok
    else EndOutcome(end)
  }

  /** What storing frames leaves alone. */
  ghost predicate OnlyFramesAdded(d: Db, d': Db) {
    && d'.video == d.video && d'.frameJob == d.frameJob && d'.segments == d.segments
    && d.frames.Keys <= d'.frames.Keys
  }

  lemma {:induction false} FramesPersistedShape(d: Db, s: nat, items: seq<Item>)
    ensures OnlyFramesAdded(d, FramesPersisted(d, s, items))
    ensures items != [] ==> FrameKey(s, items[|items| - 1].index) in FramesPersisted(d, s, items).frames
  {
    if items != [] {
      FramesPersistedShape(d, s, items[..|items| - 1]);
    }
  }

  /** Stores one frame and requests its OCR; each of the three steps may be the last. */
  method PersistFrame(store: Store, f: FrameKey, timestampMs: int) returns (ok: bool)
    requires store.Valid() && ExtractionOpen(store.db, f.segment)
    modifies store
    ensures store.Follows(old(store.history), old(store.faults))
    ensures OnlyFramesAdded(old(store.db), store.db)
    ensures ok ==> store.db == FramePersisted(old(store.db), f, timestampMs)
    ensures (ok <==> store.faults == old(store.faults)) && store.faults.queries == old(store.faults.queries)
  {
    ok := store.Commit(AfterStoreFrame(store.db, f, timestampMs), StoreFrame(f, timestampMs));
    if ok && store.db.ocrJob.None? {
      ok := store.Commit(AfterCreateOcrJob(store.db), CreateOcrJob);
    }
    if ok {
      ok := store.Commit(AfterRequestOcr(store.db, f), RequestOcr(f));
    }
  }

  method PersistFrames(store: Store, s: nat, items: seq<Item>) returns (ok: bool)
    requires store.Valid() && ExtractionOpen(store.db, s)
    modifies store
    ensures store.Follows(old(store.history), old(store.faults))
    ensures OnlyFramesAdded(old(store.db), store.db)
    ensures ok ==> store.db == FramesPersisted(old(store.db), s, items)
    ensures (ok <==> store.faults == old(store.faults)) && store.faults.queries == old(store.faults.queries)
  {
    ok := true;
    var i := 0;
    while ok && i < |items|
      invariant i <= |items| && store.Follows(old(store.history), old(store.faults))
      invariant OnlyFramesAdded(old(store.db), store.db)
      invariant ok ==> store.db == FramesPersisted(old(store.db), s, items[..i])
      invariant (ok <==> store.faults == old(store.faults)) && store.faults.queries == old(store.faults.queries)
      decreases |items| - i, ok
    {
      ok := PersistFrame(store, FrameKey(s, items[i].index), items[i].timestampMs);
      assert items[..i + 1][..i] == items[..i];
      i := i + 1;
    }
    assert ok ==> items[..i] == items;
  }

  /** Counts one more segment and completes the job when it was the last. */
  method Advance(video: V.Video, job: Job, frameCount: nat)
    modifies video, job
    ensures var j := old(job.Row()).(completedSegments := old(job.completedSegmentCount) + 1);
      if j.SegmentsComplete()
      then job.Row() == j.(status := Success, expectedFrames := frameCount)
        && video.State() == V.Apply(old(video.State()), V.MarkFramesReady(frameCount))
      else job.Row() == j && video.State() == old(video.State())
  {
    job.AddCompletedSegment(1);
    if job.SegmentsComplete() {
      job.SetExpectedFrameCount(frameCount);
      job.MarkSuccess();
      var reply := video.MarkFramesReady(frameCount);
    }
  }

  /** Whoever makes the counter reach the expected number completes the job in the same transaction. */
  method CompleteSegment(store: Store, video: V.Video, job: Job, s: nat) returns (ok: bool)
    requires store.Valid() && CanCompleteSegment(store.db, s)
    requires video.State() == V.Aggregate(store.db.video, []) && job.Row() == store.db.frameJob.value
    modifies store, video, job
    ensures store.Follows(old(store.history), old(store.faults))
    ensures store.db == if ok then AfterCompleteSegment(old(store.db), s) else old(store.db)
    ensures (ok <==> store.faults == old(store.faults)) && store.faults.queries == old(store.faults.queries)
  {
    var d := store.db;
    Advance(video, job, |d.frames.Keys|);
    var events := video.Pull();
    var next := d.(segments := d.segments[s := Success], ocrJob := Some(JobOrNew(d.ocrJob)),
      frameJob := Some(job.Row()), video := video.Row(), outbox := d.outbox + events);
    assert next == AfterCompleteSegment(d, s);
    ok := store.Commit(next, Tx.CompleteSegment(s));
  }

  method FailSegment(store: Store, video: V.Video, job: Job, s: nat) returns (ok: bool)
    requires store.Valid() && ExtractionOpen(store.db, s)
    requires video.State() == V.Aggregate(store.db.video, []) && job.Row() == store.db.frameJob.value
    modifies store, video, job
    ensures store.Follows(old(store.history), old(store.faults))
    ensures store.db == if ok then AfterFailSegment(old(store.db), s) else old(store.db)
    ensures store.faults == old(store.faults) ==> (ok <==> old(store.db).video.status != Success)
    ensures ok ==> store.faults == old(store.faults)
    ensures store.faults.queries == old(store.faults.queries)
  {
    var d := store.db;
    job.MarkFailed("unreadable video");
    var reply := video.MarkExtractionFailed();
    if reply.InvalidTransition? {
      return false;
    }
    var events := video.Pull();
    var next := d.(segments := d.segments[s := Failed],
      frameJob := Some(job.Row()), video := video.Row(), outbox := d.outbox + events);
    assert next == AfterFailSegment(d, s);
    ok := store.Commit(next, Tx.FailSegment(s));
  }

  method CommitFinal(store: Store, video: V.Video, job: Job) returns (ok: bool)
    requires store.Valid() && CanFinalizeExtraction(store.db)
    requires video.State() == V.Aggregate(store.db.video, []) && job.Row() == store.db.frameJob.value
    modifies store, video, job
    ensures store.Follows(old(store.history), old(store.faults))
    ensures store.db == if ok then AfterFinalizeExtraction(old(store.db)) else old(store.db)
    ensures (ok <==> store.faults == old(store.faults)) && store.faults.queries == old(store.faults.queries)
  {
    var d := store.db;
    job.SetExpectedFrameCount(|d.frames.Keys|);
    job.MarkSuccess();
    var reply := video.MarkFramesReady(|d.frames.Keys|);
    var events := video.Pull();
    var next := d.(ocrJob := Some(JobOrNew(d.ocrJob)),
      frameJob := Some(job.Row()), video := video.Row(), outbox := d.outbox + events);
    assert next == AfterFinalizeExtraction(d);
    ok := store.Commit(next, FinalizeExtraction);
  }

  /** The recovery path of a segment found already done; its transaction error has no class. */
  method MaybeFinalize(store: Store, video: V.Video, job: Job) returns (r: Outcome)
    requires store.Valid() && store.db.frameJob.Some? &&
      store.db.frameJob.value.status != Success && store.db.video.status != Failed
    requires video.State() == V.Aggregate(store.db.video, []) && job.Row() == store.db.frameJob.value
    modifies store, video, job
    ensures store.Follows(old(store.history), old(store.faults))
    ensures r.Ok? ==>
      store.db == if CanFinalizeExtraction(old(store.db)) then AfterFinalizeExtraction(old(store.db)) else old(store.db)
    ensures r.Ok? <==> store.faults == old(store.faults)
    ensures !r.Ok? ==> CanFinalizeExtraction(old(store.db)) && store.db == old(store.db)
    ensures (r == Retryable <==> store.faults.queries > old(store.faults.queries))
    ensures (r == Unclassified <==> store.faults.commits > old(store.faults.commits))
  {
    if !job.SegmentsComplete() {
      return Ok;
    }
    var ok := store.Reads();
    if !ok {
      return Retryable;
    }
    ok := CommitFinal(store, video, job);
    r := if ok then Ok else Unclassified;
  }

  /** The unclassified error of the recovery path is never met in a history of the pipeline. */
  lemma {:induction false} RawErrorIsDead(h: seq<Db>, i: nat)
    requires History(h) && Initial(h[0]) && i < |h|
    ensures !CanFinalizeExtraction(h[i])
  {
    EveryStateIsSafe(h, i);
    FinalizeExtractionIsDead(h[i]);
  }

  /** The segment is being worked on and nothing else has changed, except that frames have been added. */
  ghost predicate Underway(d: Db, d': Db, s: nat)
    requires s in d.segments
  {
    OnlyFramesAdded(d.(segments := d.segments[s := Processing]), d')
  }

  /** Segment, job and video have failed, and the failure is the last thing announced. */
  predicate IsFailed(d: Db, d': Db, s: nat) {
    && s in d'.segments && d'.segments[s] == Failed && d'.segments.Keys == d.segments.Keys + {s}
    && (forall g :: g in d.segments && g != s ==> d'.segments[g] == d.segments[g])
    && d.frameJob.Some? && d'.frameJob == Some(d.frameJob.value.(status := Failed))
    && d'.video == d.video.(status := Failed)
    && d.outbox < d'.outbox && d'.outbox[|d'.outbox| - 1] == ExtractionFailed
    && d.frames.Keys <= d'.frames.Keys
  }

  lemma FailingFails(d: Db, d1: Db, s: nat)
    requires CanStartSegment(d, s) && Underway(d, d1, s) && d.video.status != Success && d.outbox <= d1.outbox
    ensures IsFailed(d, AfterFailSegment(d1, s), s)
  {
    assert V.Records(d.video.status, V.MarkExtractionFailed) == [ExtractionFailed];
  }

  predicate HasAll(d: Db, s: nat, items: seq<Item>) {
    forall i :: 0 <= i < |items| ==> FrameKey(s, items[i].index) in d.frames
  }

  lemma {:induction false} PersistedHasAll(d: Db, s: nat, items: seq<Item>)
    ensures HasAll(FramesPersisted(d, s, items), s, items) && d.outbox <= FramesPersisted(d, s, items).outbox
  {
    if items != [] {
      PersistedHasAll(d, s, items[..|items| - 1]);
    }
  }

  /** What an open segment comes to without a fault, unless it succeeds. */
  ghost predicate Misses(d: Db, d': Db, s: nat, items: seq<Item>, end: End)
    requires s in d.segments
  {
    && HasAll(d', s, items)
    && if end.Unreadable? && d.video.status != Success then IsFailed(d, d', s) else Underway(d, d', s)
  }

  /** How a fault ends an open segment: only a failing failure transaction does not bring it back. */
  ghost predicate Stopped(d: Db, d': Db, s: nat, end: End, r: Outcome)
    requires s in d.segments
  {
    || (r == Retryable && (d' == d || Underway(d, d', s)))
    || (end.Unreadable? && r == NonRetryable && Underway(d, d', s))
  }

  /** Extraction of an open segment up to the completion transaction. */
  method ExtractAndStore(store: Store, s: nat, items: seq<Item>, end: End) returns (r: Outcome)
    requires store.Valid() && ExtractionOpen(store.db, s)
    requires end.Done? ==> items != []
    modifies store
    ensures store.Follows(old(store.history), old(store.faults))
    ensures OnlyFramesAdded(old(store.db), store.db)
    ensures store.faults == old(store.faults) ==>
      r == EndOutcome(end) && store.db == FramesPersisted(old(store.db), s, items) && HasAll(store.db, s, items)
      && old(store.db).outbox <= store.db.outbox
    ensures store.faults != old(store.faults) ==> r == Retryable
    ensures r.Ok? ==> HasFrame(store.db, s)
  {
    var ok := store.Reads();
    if ok {
      ok := PersistFrames(store, s, items);
    }
    PersistedHasAll(old(store.db), s, items);
    if !ok || end.Interrupted? {
      return Retryable;
    }
    if end.Unreadable? {
      return NonRetryable;
    }
    FramesPersistedShape(old(store.db), s, items);
    return Ok;
  }

  /** A segment that is to be extracted, with everything loaded. */
  method ExtractOpen(store: Store, video: V.Video, job: Job, s: nat, items: seq<Item>, end: End) returns (r: Outcome)
    requires store.Valid() && CanStartSegment(store.db, s)
    requires video.State() == V.Aggregate(store.db.video, []) && job.Row() == store.db.frameJob.value
    requires end.Done? ==> items != []
    modifies store, video, job
    ensures store.Follows(old(store.history), old(store.faults))
    ensures r.Ok? ==>
      store.db == AfterCompleteSegment(FramesPersisted(AfterStartSegment(old(store.db), s), s, items), s)
    ensures store.faults == old(store.faults) ==>
      r == EndOutcome(end) && (!r.Ok? ==> Misses(old(store.db), store.db, s, items, end))
    ensures store.faults != old(store.faults) ==> Stopped(old(store.db), store.db, s, end, r)
    ensures store.faults.queries > old(store.faults.queries) ==> r == Retryable
  {
    ghost var d := store.db;
    var ok := store.Commit(AfterStartSegment(store.db, s), StartSegment(s));
    if !ok {
      return Retryable;
    }
    r := ExtractAndStore(store, s, items, end);
    if r.NonRetryable? {
      ghost var d1 := store.db;
      var marked := FailSegment(store, video, job, s);
      if marked {
        FailingFails(d, d1, s);
      }
    } else if r.Ok? {
      ok := CompleteSegment(store, video, job, s);
      r := if ok then Ok else Retryable;
    }
  }

  /** The segment is there and still to be extracted. */
  predicate Opens(d: Db, s: nat) {
    d.frameJob.Some? && s in d.segments && CanStartSegment(d, s)
  }

  /** A run of the handler, from rows `d` to `d'` and from faults `f` to `f'`. */
  ghost predicate Ends(d: Db, d': Db, f: Faults, f': Faults, s: nat, items: seq<Item>, end: End, r: Outcome) {
    && (f' == f ==> r == HandleOutcome(d, s, end))
    && (f' == f && !r.Ok? ==> if Opens(d, s) then Misses(d, d', s, items, end) else d' == d)
    && (f'.queries > f.queries ==> r == Retryable && (d' == d || (Opens(d, s) && Underway(d, d', s))))
    && (f'.commits > f.commits ==>
          if Opens(d, s) then Stopped(d, d', s, end, r)
          else r == Unclassified && d' == d && CanFinalizeExtraction(d))
  }

  /**
   `items` and `end` are what the extractor gives for the segment if it is asked.  Without a fault
   the outcome is determined, and an unreadable segment leaves segment, job and video failed; only
   the recovery branch can return an error without a class.
   */
  method Handle(store: Store, s: nat, items: seq<Item>, end: End) returns (r: Outcome)
    requires store.Valid()
    requires end.Done? ==> items != []
    modifies store
    ensures store.Follows(old(store.history), old(store.faults))
    ensures r.Ok? ==> s in store.db.segments && store.db == ExtractRun(old(store.db), s, items)
    ensures Ends(old(store.db), store.db, old(store.faults), store.faults, s, items, end, r)
  {
    var ok := store.Reads();
    if !ok {
      return Retryable;
    }
    if store.db.frameJob.None? || s !in store.db.segments {
      return NonRetryable;
    }
    var video := new V.Video.Load(store.db.video);
    var job := new Job.Load(store.db.frameJob.value);
    if job.status == Success || video.status == Failed {
      return Ok;
    }
    if store.db.segments[s] == Success {
      r := MaybeFinalize(store, video, job);
      return;
    }
    r := ExtractOpen(store, video, job, s, items, end);
  }
}
