/** Persisting OCR answers. */
module OcrFrames {
  import opened Domain
  import opened FrameResults
  import opened Pipeline
  import opened PipelineSafety
  import opened HandlerRuns
  import opened Repositories
  import opened Messaging
  import opened Jobs
  import V = VideoAggregate

  /** The loaded video and OCR job match their rows, and nothing is buffered. */
  ghost predicate Loaded(store: Store, video: V.Video, job: Job)
    reads store, video, job
  {
    && store.Valid() && OcrOpen(store.db)
    && video.State() == V.Aggregate(store.db.video, []) && job.Row() == store.db.ocrJob.value
  }

  /** Rows of the listed frames, as the handler reads them. */
  function Known(d: Db): map<FrameKey, OcrResult> {
    map f | f in Covered(d, d.ocr) :: d.ocr[f]
  }

  method CountFinal(rows: map<FrameKey, OcrResult>) returns (n: nat)
    ensures n == |set f | f in rows && rows[f].IsFinal()|
  {
    n := 0;
    var left := rows.Keys;
    ghost var seen: set<FrameKey> := {};
    while left != {}
      invariant left <= rows.Keys && seen == rows.Keys - left
      invariant n == |set f | f in seen && rows[f].IsFinal()|
    {
      var f :| f in left;
      assert (set g | g in seen + {f} && rows[g].IsFinal())
          == (set g | g in seen && rows[g].IsFinal()) + (if rows[f].IsFinal() then {f} else {});
      if rows[f].IsFinal() {
        n := n + 1;
      }
      left, seen := left - {f}, seen + {f};
    }
    assert seen == rows.Keys;
  }

  predicate IsLive(d: Db) {
    d.video.status == Pending || d.video.status == Processing
  }

  /** The rows are as they were, except that the classification job may have been created. */
  predicate IsKept(d: Db, d': Db) {
    d' == d || d' == WithClassifyJob(d)
  }

  /** Job and video have failed, and a live video announces it last. */
  predicate IsFailed(d: Db, d': Db) {
    && Is(d'.ocrJob, Failed) && d'.video == d.video.(status := Failed)
    && (d.classifyJob.Some? ==> d'.classifyJob == d.classifyJob)
    && d' == d.(video := d'.video, ocrJob := d'.ocrJob, classifyJob := d'.classifyJob, outbox := d'.outbox)
    && d.outbox <= d'.outbox
    && (IsLive(d) ==> |d.outbox| < |d'.outbox| && d'.outbox[|d'.outbox| - 1].OcrFailed?)
  }

  /** An error that is retried, or on the last attempt given up with the failure stored, unless that fails too. */
  predicate GaveUp(d: Db, d': Db, lastAttempt: bool, stored: bool, r: Outcome) {
    if !lastAttempt then r == Retryable && IsKept(d, d')
    else r == NonRetryable && if stored then IsFailed(d, d') else IsKept(d, d') || IsFailed(d, d')
  }

  /** Nothing but the OCR rows, the two jobs of this stage, the video and the outbox may have changed. */
  predicate OnlyOcrMoved(d: Db, d': Db) {
    && d' == d.(video := d'.video, ocrJob := d'.ocrJob, classifyJob := d'.classifyJob, ocr := d'.ocr,
                outbox := d'.outbox)
    && d.outbox <= d'.outbox && (d.classifyJob.Some? ==> d'.classifyJob == d.classifyJob)
  }

  lemma MovedTwice(d: Db, d1: Db, d2: Db)
    requires OnlyOcrMoved(d, d1) && OnlyOcrMoved(d1, d2)
    ensures OnlyOcrMoved(d, d2)
  {
  }

  lemma CommandMoves(d: Db, d': Db, c: V.Command)
    requires d' == d.(video := d'.video, ocrJob := d'.ocrJob, classifyJob := d'.classifyJob, outbox := d'.outbox)
    requires d'.outbox == d.outbox + V.Records(d.video.status, c)
    requires d.classifyJob.Some? ==> d'.classifyJob == d.classifyJob
    ensures OnlyOcrMoved(d, d')
  {
  }

  lemma FailingFails(d: Db, leaked: seq<Event>)
    requires d.video.status != Success
    ensures IsFailed(d, AfterFailOcr(d, leaked))
  {
  }

  /** Marks the job and the video as failed on the last attempt, with whatever the video still buffers. */
  method FailOrRetry(store: Store, video: V.Video, job: Job, reason: string, lastAttempt: bool) returns (r: Outcome)
    requires store.Valid() && OcrOpen(store.db)
    requires video.Row() == store.db.video && job.Row() == store.db.ocrJob.value
    requires forall e :: e in video.events ==> Leakable(e)
    modifies store, video, job
    ensures store.Follows(old(store.history), old(store.faults))
    ensures GaveUp(old(store.db), store.db, lastAttempt, store.faults == old(store.faults), r)
    ensures store.faults != old(store.faults) ==> store.db == old(store.db)
    ensures store.faults.queries == old(store.faults.queries)
  {
    if !lastAttempt {
      return Retryable;
    }
    ghost var leaked := video.events;
    job.MarkFailed(reason);
    var reply := video.MarkOcrFailed(job.expectedFrameCount, job.ocrCompletedCount);
    var events := video.Pull();
    var next := store.db.(video := video.Row(), ocrJob := Some(job.Row()), outbox := store.db.outbox + events);
    assert next == AfterFailOcr(store.db, leaked);
    FailingFails(store.db, leaked);
    var ok := store.Commit(next, FailOcr(leaked));
    return NonRetryable;
  }

  method MarkProcessing(store: Store, video: V.Video, job: Job, expected: nat, completed: nat) returns (ok: bool)
    requires Loaded(store, video, job) && job.status == Pending
    requires expected == |store.db.frames.Keys| && completed == FinalCount(store.db)
    modifies store, video, job
    ensures store.Follows(old(store.history), old(store.faults))
    ensures store.db == if ok then AfterStartOcr(old(store.db)) else old(store.db)
    ensures (ok <==> store.faults == old(store.faults)) && store.faults.queries == old(store.faults.queries)
    ensures ok ==> Loaded(store, video, job)
  {
    job.SetOcrProgress(expected, completed);
    job.MarkProcessing();
    var reply := video.MarkOcrProcessing(expected, completed);
    var events := video.Pull();
    var next := store.db.(video := video.Row(), ocrJob := Some(job.Row()), outbox := store.db.outbox + events);
    assert next == AfterStartOcr(store.db);
    ok := store.Commit(next, StartOcr);
  }

  /** Rows of unknown frames cannot be stored, so for those that can the listed rows decide. */
  lemma {:induction false} KnownDecides(d: Db, results: seq<OcrResult>)
    requires forall r :: r in results ==> r.frame in d.frames
    ensures NewFrames(Known(d), results) == NewFrames(d.ocr, results)
  {
    if results != [] {
      KnownDecides(d, results[..|results| - 1]);
    }
  }

  method FramesToClassify(results: seq<OcrResult>, known: map<FrameKey, OcrResult>)
    returns (added: nat, asked: seq<FrameKey>)
    ensures asked == NewFrames(known, results) && added == |asked|
  {
    added, asked := 0, [];
    for i := 0 to |results|
      invariant asked == NewFrames(known, results[..i]) && added == |asked|
    {
      assert results[..i + 1][..i] == results[..i];
      var frame := results[i].frame;
      if frame !in known || !known[frame].IsFinal() {
        added := added + 1;
        asked := asked + [frame];
      }
    }
    assert results[..|results|] == results;
  }

  method EnsureClassifyJob(store: Store) returns (ok: bool)
    requires store.Valid() && OcrOpen(store.db)
    modifies store
    ensures store.Follows(old(store.history), old(store.faults))
    ensures store.db == old(store.db) || store.db == WithClassifyJob(old(store.db))
    ensures ok ==> store.db == WithClassifyJob(old(store.db))
    ensures ok <==> store.faults == old(store.faults)
  {
    ok := store.Reads();
    if ok && store.db.classifyJob.None? {
      ok := store.Commit(AfterCreateClassifyJob(store.db), CreateClassifyJob);
    }
  }

  /** What the video has buffered when the rows are about to be stored. */
  function Buffered(status: Status, j: JobRow, added: nat, asked: seq<FrameKey>): seq<Event> {
    (if added == 0 then [] else V.Records(status, V.RecordOcrProgress(j.expectedFrames, j.ocrCompleted + added)))
    + V.ClassifyRequests(asked)
  }

  /** Counts the new rows and announces the progress. */
  method Announce(video: V.Video, job: Job, added: nat)
    requires video.events == []
    modifies video, job
    ensures job.Row() == old(job.Row()).(ocrCompleted := old(job.ocrCompletedCount) + added)
    ensures video.Row() == old(video.Row())
    ensures video.events == Buffered(video.status, old(job.Row()), added, [])
  {
    job.AddOcrCompleted(added);
    if added > 0 {
      var reply := video.RecordOcrProgress(job.expectedFrameCount, job.ocrCompletedCount);
    }
  }

  /** Buffers the requests behind the announced progress. */
  method Request(video: V.Video, asked: seq<FrameKey>, ghost j: JobRow, ghost added: nat)
    requires video.events == Buffered(video.status, j, added, [])
    modifies video
    ensures video.Row() == old(video.Row())
    ensures video.events == Buffered(video.status, j, added, asked)
  {
    BufferedGrows(video.status, j, added, asked);
    if asked != [] {
      video.RequestClassifyFrames(asked);
    }
  }

  lemma BufferedGrows(status: Status, j: JobRow, added: nat, asked: seq<FrameKey>)
    ensures Buffered(status, j, added, asked) == Buffered(status, j, added, []) + V.ClassifyRequests(asked)
  {
  }

  lemma BufferedLeaks(status: Status, j: JobRow, added: nat, asked: seq<FrameKey>)
    ensures forall e :: e in Buffered(status, j, added, asked) ==> Leakable(e)
  {
  }

  /** The counted frames and the buffer are what the transaction is specified to store. */
  lemma BufferedIsSpecified(d: Db, results: seq<OcrResult>)
    requires d.ocrJob.Some? && Storable(d, results)
    ensures var j, asked := d.ocrJob.value, NewFrames(Known(d), results);
      AfterPersistOcr(d, results) == d.(
        ocr := Upsert(d.ocr, results),
        ocrJob := Some(j.(ocrCompleted := j.ocrCompleted + |asked|)),
        outbox := d.outbox + Buffered(d.video.status, j, |asked|, asked))
  {
    KnownDecides(d, results);
  }

  /** What the rows, the job and the buffer must be before they are stored together. */
  ghost predicate Ready(d: Db, j: JobRow, events: seq<Event>, results: seq<OcrResult>)
    requires d.ocrJob.Some?
  {
    var asked := NewFrames(Known(d), results);
    && j == d.ocrJob.value.(ocrCompleted := d.ocrJob.value.ocrCompleted + |asked|)
    && events == Buffered(d.video.status, d.ocrJob.value, |asked|, asked)
  }

  method CommitResults(store: Store, video: V.Video, job: Job, results: seq<OcrResult>) returns (ok: bool)
    requires store.Valid() && OcrOpen(store.db) && store.db.classifyJob.Some? && Storable(store.db, results)
    requires Ready(store.db, job.Row(), video.events, results)
    modifies store, video`events
    ensures store.Follows(old(store.history), old(store.faults))
    ensures video.events == []
    ensures store.db == if ok then AfterPersistOcr(old(store.db), results) else old(store.db)
    ensures ok <==> store.faults == old(store.faults)
    ensures ok ==> Some(job.Row()) == store.db.ocrJob
  {
    var d := store.db;
    BufferedIsSpecified(d, results);
    var events := video.Pull();
    var next := d.(ocr := Upsert(d.ocr, results), ocrJob := Some(job.Row()), outbox := d.outbox + events);
    ok := store.Commit(next, PersistOcr(results));
  }

  /** The transaction fails as a whole, before or after the buffer was emptied into it. */
  method StoreResults(store: Store, video: V.Video, job: Job, results: seq<OcrResult>) returns (ok: bool)
    requires store.Valid() && OcrOpen(store.db) && store.db.classifyJob.Some?
    requires Ready(store.db, job.Row(), video.events, results)
    modifies store, video`events
    ensures store.Follows(old(store.history), old(store.faults))
    ensures video.events == [] || video.events == old(video.events)
    ensures ok ==> video.events == []
    ensures ok ==> Some(job.Row()) == store.db.ocrJob
    ensures store.db == if ok then AfterPersistOcr(old(store.db), results) else old(store.db)
    ensures ok <==> store.faults == old(store.faults) && Storable(old(store.db), results)
  {
    var upserted := store.Reads();
    if !upserted || !Storable(store.db, results) {
      return false;
    }
    ok := CommitResults(store, video, job, results);
  }

  /** Announces progress, finds or creates the classification job and buffers the requests. */
  method Prepare(store: Store, video: V.Video, job: Job, added: nat, asked: seq<FrameKey>) returns (ok: bool)
    requires Loaded(store, video, job)
    modifies store, video, job
    ensures store.Follows(old(store.history), old(store.faults))
    ensures store.db == old(store.db) || store.db == WithClassifyJob(old(store.db))
    ensures ok ==> store.db == WithClassifyJob(old(store.db))
    ensures ok <==> store.faults == old(store.faults)
    ensures job.Row() == old(job.Row()).(ocrCompleted := old(job.ocrCompletedCount) + added)
    ensures video.Row() == old(video.Row())
    ensures video.events == Buffered(video.status, old(job.Row()), added, if ok then asked else [])
  {
    Announce(video, job, added);
    ok := EnsureClassifyJob(store);
    if ok {
      Request(video, asked, old(job.Row()), added);
    }
  }

  /**
   On success the rows, the counter and the requests for classification are committed
   together.  On failure the counter is rolled back, and the buffer holds only events a
   later failure transaction may store.
   */
  method PersistResults(store: Store, video: V.Video, job: Job, results: seq<OcrResult>) returns (ok: bool)
    requires Loaded(store, video, job)
    modifies store, video, job
    ensures store.Follows(old(store.history), old(store.faults))
    ensures video.Row() == old(video.Row())
    ensures forall e :: e in video.events ==> Leakable(e)
    ensures !ok ==> store.db == old(store.db) || store.db == WithClassifyJob(old(store.db))
    ensures !ok ==> job.Row() == old(job.Row())
    ensures ok ==> video.events == []
    ensures ok ==> store.db == ResultsStored(old(store.db), results)
    ensures ok ==> Some(job.Row()) == store.db.ocrJob
    ensures ok <==> store.faults == old(store.faults) && (results == [] || Storable(old(store.db), results))
  {
    if results == [] {
      return true;
    }
    var previousCompleted := job.ocrCompletedCount;
    ok := TryPersist(store, video, job, results);
    if !ok {
      job.ocrCompletedCount := previousCompleted;
    }
  }

  /** As `PersistResults` for a batch that is not empty, before the counter is rolled back. */
  method TryPersist(store: Store, video: V.Video, job: Job, results: seq<OcrResult>) returns (ok: bool)
    requires Loaded(store, video, job)
    modifies store, video, job
    ensures store.Follows(old(store.history), old(store.faults))
    ensures video.Row() == old(video.Row())
    ensures forall e :: e in video.events ==> Leakable(e)
    ensures !ok ==> store.db == old(store.db) || store.db == WithClassifyJob(old(store.db))
    ensures job.Row().(ocrCompleted := old(job.ocrCompletedCount)) == old(job.Row())
    ensures ok ==> video.events == []
    ensures ok ==> store.db == AfterPersistOcr(WithClassifyJob(old(store.db)), results)
    ensures ok ==> Some(job.Row()) == store.db.ocrJob
    ensures ok <==> store.faults == old(store.faults) && Storable(old(store.db), results)
  {
    var added, asked := FramesToClassify(results, Known(store.db));
    ok := Prepare(store, video, job, added, asked);
    BufferedLeaks(video.status, old(job.Row()), added, if ok then asked else []);
    if ok {
      ok := StoreResults(store, video, job, results);
    }
  }

  method Persist(store: Store, video: V.Video, job: Job, results: seq<OcrResult>, lastAttempt: bool)
    returns (r: Outcome)
    requires Loaded(store, video, job)
    modifies store, video, job
    ensures store.Follows(old(store.history), old(store.faults)) && !r.Unclassified?
    ensures r.Ok? ==> store.db == ResultsStored(old(store.db), results) && Loaded(store, video, job)
    ensures OnlyOcrMoved(old(store.db), store.db)
    ensures r.Ok? <==> store.faults == old(store.faults) && (results == [] || Storable(old(store.db), results))
    ensures !r.Ok? ==>
      GaveUp(old(store.db), store.db, lastAttempt, store.faults.commits == old(store.faults.commits), r)
  {
    var ok := PersistResults(store, video, job, results);
    if ok {
      return Ok;
    }
    r := FailOrRetry(store, video, job, "failed to persist ocr", lastAttempt);
  }

  method MarkReady(store: Store, video: V.Video, job: Job) returns (ok: bool)
    requires Loaded(store, video, job) && OcrReady(store.db)
    modifies store, video, job
    ensures store.Follows(old(store.history), old(store.faults))
    ensures store.db == if ok then AfterCompleteOcr(old(store.db)) else old(store.db)
    ensures ok <==> store.faults == old(store.faults) && old(store.db).video.status != Failed
    ensures store.faults.queries == old(store.faults.queries)
  {
    job.MarkSuccess();
    var reply := video.MarkOcrReady(job.expectedFrameCount, job.ocrCompletedCount);
    if reply.InvalidTransition? {
      return false;
    }
    var events := video.Pull();
    var next := store.db.(video := video.Row(), ocrJob := Some(job.Row()),
      classifyJob := Some(JobOrNew(store.db.classifyJob)), outbox := store.db.outbox + events);
    assert next == AfterCompleteOcr(store.db);
    ok := store.Commit(next, CompleteOcr);
  }

  /** Completes the OCR job when extraction is done and every frame has a row. */
  method Complete(store: Store, video: V.Video, job: Job, lastAttempt: bool) returns (r: Outcome)
    requires Loaded(store, video, job)
    modifies store, video, job
    ensures store.Follows(old(store.history), old(store.faults)) && !r.Unclassified?
    ensures r.Ok? ==> store.db == OcrCompleted(old(store.db))
    ensures OnlyOcrMoved(old(store.db), store.db)
    ensures store.faults == old(store.faults) ==>
      r == if OcrReady(old(store.db)) && old(store.db).video.status == Failed then Retryable else Ok
    ensures store.faults.queries == old(store.faults.queries) && !r.Ok? ==> r == Retryable && store.db == old(store.db)
    ensures store.faults.queries > old(store.faults.queries) ==>
      GaveUp(old(store.db), store.db, lastAttempt, store.faults.commits == old(store.faults.commits), r)
    ensures r.Ok? ==> store.faults == old(store.faults)
  {
    if !Is(store.db.frameJob, Success) {
      return Ok;
    }
    var ok := store.Reads();
    if !ok {
      r := FailOrRetry(store, video, job, "failed to load ocr", lastAttempt);
      return;
    }
    if |Covered(store.db, store.db.ocr)| < |store.db.frames.Keys| || |store.db.frames.Keys| == 0 {
      return Ok;
    }
    ok := MarkReady(store, video, job);
    r := if ok then Ok else Retryable;
  }

  /** The OCR job is found or created; without a frame job there is nothing to retry. */
  method LoadJob(store: Store) returns (r: Outcome)
    requires store.Valid()
    modifies store
    ensures store.Follows(old(store.history), old(store.faults)) && !r.Unclassified?
    ensures store.db == if r.Ok? then WithOcrJob(old(store.db)) else old(store.db)
    ensures r.Ok? ==> store.db.frameJob.Some? && store.db.ocrJob.Some?
    ensures r == if store.faults != old(store.faults) then Retryable
      else if old(store.db).frameJob.None? then NonRetryable else Ok
  {
    var ok := store.Reads();
    if !ok {
      return Retryable;
    }
    if store.db.frameJob.None? {
      return NonRetryable;
    }
    if store.db.ocrJob.None? {
      ok := store.Commit(AfterCreateOcrJob(store.db), CreateOcrJob);
    }
    r := if ok then Ok else Retryable;
  }

  /** Starts the OCR job if it is still pending. */
  method Start(store: Store, video: V.Video, job: Job, lastAttempt: bool) returns (r: Outcome)
    requires Loaded(store, video, job)
    modifies store, video, job
    ensures store.Follows(old(store.history), old(store.faults)) && !r.Unclassified?
    ensures r.Ok? ==> store.db == OcrStarted(old(store.db)) && Loaded(store, video, job)
    ensures OnlyOcrMoved(old(store.db), store.db)
    ensures r.Ok? <==> store.faults == old(store.faults)
    ensures store.faults.queries == old(store.faults.queries) && !r.Ok? ==> r == Retryable && store.db == old(store.db)
    ensures store.faults.queries > old(store.faults.queries) ==>
      GaveUp(old(store.db), store.db, lastAttempt, store.faults.commits == old(store.faults.commits), r)
  {
    var ok := store.Reads();
    if !ok {
      r := FailOrRetry(store, video, job, "failed to load frames", lastAttempt);
      return;
    }
    var completed := CountFinal(Known(store.db));
    if job.status == Pending {
      assert (set f | f in Known(store.db) && Known(store.db)[f].IsFinal())
          == (set f | f in Covered(store.db, store.db.ocr) && store.db.ocr[f].IsFinal());
      ok := MarkProcessing(store, video, job, |store.db.frames.Keys|, completed);
    }
    r := if ok then Ok else Retryable;
  }

  predicate IsBroken(d: Db) {
    Is(d.ocrJob, Failed) && d.video.status == Failed
  }

  /** How a run on an open job ends, from faults `f` to `f'`, if not well. */
  predicate Misses(d: Db, d': Db, f: Faults, f': Faults, results: seq<OcrResult>, lastAttempt: bool, r: Outcome) {
    && (f' == f ==> r == ResultsOutcome(d, results, lastAttempt))
    && (r == NonRetryable ==> lastAttempt && (f'.commits == f.commits ==> IsBroken(d')))
    && (f'.queries > f.queries ==> r == if lastAttempt then NonRetryable else Retryable)
  }

  /** As `PersistLoaded`, once the job has started. */
  method PersistStarted(store: Store, video: V.Video, job: Job, results: seq<OcrResult>, lastAttempt: bool)
    returns (r: Outcome)
    requires Loaded(store, video, job)
    modifies store, video, job
    ensures store.Follows(old(store.history), old(store.faults)) && !r.Unclassified?
    ensures OnlyOcrMoved(old(store.db), store.db)
    ensures r.Ok? ==> store.db == OcrCompleted(ResultsStored(old(store.db), results))
    ensures r.Ok? ==> store.faults == old(store.faults) && (results == [] || Storable(old(store.db), results))
    ensures store.faults == old(store.faults) ==>
      r == if results != [] && !Storable(old(store.db), results) then Failure(lastAttempt)
           else if OcrReady(ResultsStored(old(store.db), results)) && old(store.db).video.status == Failed
             then Retryable else Ok
    ensures r == NonRetryable ==>
      lastAttempt && (store.faults.commits == old(store.faults.commits) ==> IsBroken(store.db))
    ensures store.faults.queries > old(store.faults.queries) ==> r == if lastAttempt then NonRetryable else Retryable
  {
    ghost var d, f := store.db, store.faults;
    r := Persist(store, video, job, results, lastAttempt);
    ghost var d1 := store.db;
    if r.Ok? {
      r := Complete(store, video, job, lastAttempt);
    }
    MovedTwice(d, d1, store.db);
  }

  /** As `PersistFrame`, with the video and its job loaded and not yet done. */
  method PersistLoaded(store: Store, video: V.Video, job: Job, results: seq<OcrResult>, lastAttempt: bool)
    returns (r: Outcome)
    requires Loaded(store, video, job)
    modifies store, video, job
    ensures store.Follows(old(store.history), old(store.faults)) && !r.Unclassified?
    ensures OnlyOcrMoved(old(store.db), store.db)
    ensures r.Ok? ==> store.db == OcrCompleted(ResultsStored(OcrStarted(old(store.db)), results))
    ensures r.Ok? ==> store.faults == old(store.faults) && (results == [] || Storable(old(store.db), results))
    ensures Misses(old(store.db), store.db, old(store.faults), store.faults, results, lastAttempt, r)
  {
    ghost var d := store.db;
    r := Start(store, video, job, lastAttempt);
    ghost var d1 := store.db;
    if r.Ok? {
      r := PersistStarted(store, video, job, results, lastAttempt);
    }
    MovedTwice(d, d1, store.db);
  }

  /**
   Every payload whose id parses has its row, as the answer and the floor say; no other frame's row
   has changed.
   */
  ghost predicate AnswersStored(items: seq<OcrPayload>, floor: real, d: Db, d': Db) {
    && (forall i :: 0 <= i < |items| && items[i].frame.Some? ==>
          var f := items[i].frame.value; f in d'.ocr && IsRowOf(d'.ocr[f], items[i], floor))
    && (forall f :: (forall i :: 0 <= i < |items| ==> items[i].frame != Some(f)) ==>
          (f in d'.ocr <==> f in d.ocr) && (f in d.ocr ==> d'.ocr[f] == d.ocr[f]))
  }

  lemma RowIsStored(items: seq<OcrPayload>, floor: real, ocr: map<FrameKey, OcrResult>, results: seq<OcrResult>,
                    at: seq<nat>, i: nat)
    requires Parsing(items, at) && AreRowsOf(results, items, at, floor) && i < |items| && items[i].frame.Some?
    requires forall j, k :: 0 <= j < k < |results| ==> results[j].frame != results[k].frame
    ensures var f, rows := items[i].frame.value, Upsert(ocr, results); f in rows && IsRowOf(rows[f], items[i], floor)
  {
    assert i in at;
    var k :| 0 <= k < |at| && at[k] == i;
    assert IsRowOf(results[k], items[at[k]], floor);
    UpsertStores(ocr, results, results[k].frame);
  }

  lemma OtherRowStays(items: seq<OcrPayload>, floor: real, ocr: map<FrameKey, OcrResult>, results: seq<OcrResult>,
                      at: seq<nat>, f: FrameKey)
    requires Parsing(items, at) && AreRowsOf(results, items, at, floor)
    requires forall i :: 0 <= i < |items| ==> items[i].frame != Some(f)
    requires forall j, k :: 0 <= j < k < |results| ==> results[j].frame != results[k].frame
    ensures var rows := Upsert(ocr, results); (f in rows <==> f in ocr) && (f in ocr ==> rows[f] == ocr[f])
  {
    forall k | 0 <= k < |results|
      ensures results[k].frame != f
    {
      assert IsRowOf(results[k], items[at[k]], floor);
    }
    UpsertStores(ocr, results, f);
  }

  lemma RowsAreStored(items: seq<OcrPayload>, floor: real, d: Db, d': Db)
    requires var results := NormalizedPayloads(items, floor);
      (results == [] || Storable(d, results)) && d'.ocr == Upsert(d.ocr, results)
    ensures AnswersStored(items, floor, d, d')
  {
    var results := NormalizedPayloads(items, floor);
    var at := PayloadsBecomeRows(items, floor);
    forall i | 0 <= i < |items| && items[i].frame.Some?
      ensures var f := items[i].frame.value; f in d'.ocr && IsRowOf(d'.ocr[f], items[i], floor)
    {
      RowIsStored(items, floor, d.ocr, results, at, i);
    }
    forall f | forall i :: 0 <= i < |items| ==> items[i].frame != Some(f)
      ensures (f in d'.ocr <==> f in d.ocr) && (f in d.ocr ==> d'.ocr[f] == d.ocr[f])
    {
      OtherRowStays(items, floor, d.ocr, results, at, f);
    }
  }

  /** As `PersistFrame`, on a job and a video that are not done. */
  method PersistOpen(store: Store, payloads: seq<OcrPayload>, minConfidence: real, lastAttempt: bool)
    returns (r: Outcome)
    requires store.Valid() && OcrOpen(store.db)
    modifies store
    ensures store.Follows(old(store.history), old(store.faults)) && !r.Unclassified?
    ensures OnlyOcrMoved(old(store.db), store.db)
    ensures r.Ok? ==>
      store.db == OcrCompleted(ResultsStored(OcrStarted(old(store.db)), NormalizedPayloads(payloads, minConfidence)))
    ensures r.Ok? ==> store.faults == old(store.faults)
    ensures r.Ok? ==> AnswersStored(payloads, minConfidence, old(store.db), store.db)
    ensures Misses(old(store.db), store.db, old(store.faults), store.faults,
      NormalizedPayloads(payloads, minConfidence), lastAttempt, r)
  {
    var video := new V.Video.Load(store.db.video);
    var job := new Job.Load(store.db.ocrJob.value);
    var incoming := NormalizePayloads(payloads, minConfidence);
    r := PersistLoaded(store, video, job, incoming, lastAttempt);
    if r.Ok? {
      RowsAreStored(payloads, minConfidence, old(store.db), store.db);
    }
  }

  /**
   However reads and commits fail, the history stays one of the pipeline and the error has a
   class.  A run without an error leaves exactly what `PersistFrameRun` says, and so the row that is
   due for each answer; without a fault the outcome is exactly `PersistFrameOutcome`.  It is given up
   for good only without a frame job or on the last attempt, which leaves job and video failed.
   */
  method PersistFrame(store: Store, payloads: seq<OcrPayload>, minConfidence: real, lastAttempt: bool)
    returns (r: Outcome)
    requires store.Valid()
    modifies store
    ensures store.Follows(old(store.history), old(store.faults)) && !r.Unclassified?
    ensures OnlyOcrMoved(old(store.db), store.db)
    ensures r.Ok? ==> store.db == PersistFrameRun(old(store.db), NormalizedPayloads(payloads, minConfidence))
    ensures r.Ok? && !OcrDone(WithOcrJob(old(store.db))) ==>
      AnswersStored(payloads, minConfidence, old(store.db), store.db)
    ensures store.faults == old(store.faults) ==>
      r == PersistFrameOutcome(old(store.db), NormalizedPayloads(payloads, minConfidence), lastAttempt)
    ensures store.faults != old(store.faults) ==> r == Retryable || (lastAttempt && r == NonRetryable)
    ensures r == NonRetryable && old(store.db).frameJob.Some? ==> lastAttempt
    ensures r == NonRetryable && old(store.db).frameJob.Some? && store.faults.commits == old(store.faults.commits) ==>
      IsBroken(store.db)
    ensures old(store.db).frameJob.None? ==> store.db == old(store.db)
  {
    r := LoadJob(store);
    if !r.Ok? {
      return;
    }
    ghost var d1 := store.db;
    if store.db.ocrJob.value.status == Success || store.db.video.status == Success {
      return Ok;
    }
    r := PersistOpen(store, payloads, minConfidence, lastAttempt);
    MovedTwice(old(store.db), d1, store.db);
  }
}
