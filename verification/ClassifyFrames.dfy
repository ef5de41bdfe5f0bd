/** Classifying frames, and completing the video. */
module ClassifyFrames {
  import opened Domain
  import opened FrameResults
  import opened Pipeline
  import opened PipelineSafety
  import opened HandlerRuns
  import opened Repositories
  import opened Messaging
  import opened Jobs
  import V = VideoAggregate

  /** The loaded video and classification job match their rows, and nothing is buffered. */
  ghost predicate Loaded(store: Store, video: V.Video, job: Job)
    reads store, video, job
  {
    && store.Valid() && ClassifyOpen(store.db)
    && video.State() == V.Aggregate(store.db.video, []) && job.Row() == store.db.classifyJob.value
  }

  predicate IsLive(d: Db) {
    d.video.status == Pending || d.video.status == Processing
  }

  /** Nothing but the classification rows, their job, the video and the outbox may have changed. */
  predicate OnlyClassifyMoved(d: Db, d': Db) {
    && d' == d.(video := d'.video, classifyJob := d'.classifyJob, classifications := d'.classifications,
                outbox := d'.outbox)
    && d.outbox <= d'.outbox
  }

  lemma MovedTwice(d: Db, d1: Db, d2: Db)
    requires OnlyClassifyMoved(d, d1) && OnlyClassifyMoved(d1, d2)
    ensures OnlyClassifyMoved(d, d2)
  {
  }

  lemma CommandMoves(d: Db, d': Db, c: V.Command)
    requires d' == d.(video := d'.video, classifyJob := d'.classifyJob, outbox := d'.outbox)
    requires d'.outbox == d.outbox + V.Records(d.video.status, c)
    ensures OnlyClassifyMoved(d, d')
  {
  }

  lemma FinalizingMoves(d: Db)
    ensures OnlyClassifyMoved(d, TryFinalizeRun(d)) && TryFinalizeRun(d).classifications == d.classifications
  {
    if ClassifyReady(d) {
      CommandMoves(d, AfterCompleteClassify(d), V.MarkClassified(|Covered(d, d.classifications)|));
    }
  }

  /** Job and video have failed, and a live video announces it last. */
  predicate IsFailed(d: Db, d': Db) {
    && d.classifyJob.Some? && d'.classifyJob == Some(d.classifyJob.value.(status := Failed))
    && d'.video == d.video.(status := Failed)
    && d' == d.(video := d'.video, classifyJob := d'.classifyJob, outbox := d'.outbox)
    && d.outbox <= d'.outbox
    && (IsLive(d) ==> |d.outbox| < |d'.outbox| && d'.outbox[|d'.outbox| - 1].ClassifyFailed?)
  }

  /** An error that is retried, or on the last attempt given up with the failure stored, unless that fails too. */
  predicate GaveUp(d: Db, d': Db, lastAttempt: bool, stored: bool, r: Outcome) {
    if !lastAttempt then r == Retryable && d' == d
    else r == NonRetryable && (IsFailed(d, d') || (!stored && d' == d))
  }

  method MarkFailed(store: Store, video: V.Video, job: Job, reason: string) returns (ok: bool)
    requires Loaded(store, video, job)
    modifies store, video, job
    ensures store.Follows(old(store.history), old(store.faults))
    ensures store.db == if ok then AfterFailClassify(old(store.db)) else old(store.db)
    ensures (ok <==> store.faults == old(store.faults)) && store.faults.queries == old(store.faults.queries)
  {
    var d := store.db;
    job.MarkFailed(reason);
    var reply := video.MarkClassifyFailed(job.expectedFrameCount);
    if reply.InvalidTransition? {
      return false;
    }
    var events := video.Pull();
    var next := d.(video := video.Row(), classifyJob := Some(job.Row()), outbox := d.outbox + events);
    assert next == AfterFailClassify(d);
    ok := store.Commit(next, FailClassify);
  }

  /** Marks the job and the video as failed on the last attempt. */
  method FailOrRetry(store: Store, video: V.Video, job: Job, reason: string, lastAttempt: bool) returns (r: Outcome)
    requires Loaded(store, video, job)
    modifies store, video, job
    ensures store.Follows(old(store.history), old(store.faults))
    ensures GaveUp(old(store.db), store.db, lastAttempt, store.faults == old(store.faults), r)
    ensures !lastAttempt ==> store.faults == old(store.faults)
    ensures store.faults.queries == old(store.faults.queries) && OnlyClassifyMoved(old(store.db), store.db)
  {
    if !lastAttempt {
      return Retryable;
    }
    var marked := MarkFailed(store, video, job, reason);
    return NonRetryable;
  }

  method MarkProcessing(store: Store, video: V.Video, job: Job, expected: nat) returns (ok: bool)
    requires Loaded(store, video, job) && expected == |store.db.frames.Keys|
    modifies store, video, job
    ensures store.Follows(old(store.history), old(store.faults))
    ensures store.db == if ok then ClassifyStarted(old(store.db)) else old(store.db)
    ensures (ok <==> store.faults == old(store.faults)) && store.faults.queries == old(store.faults.queries)
    ensures ok ==> Loaded(store, video, job)
  {
    if job.status == Processing {
      return true;
    }
    job.SetExpectedFrameCount(expected);
    job.MarkProcessing();
    var reply := video.MarkClassifying(expected);
    var events := video.Pull();
    var next := store.db.(video := video.Row(), classifyJob := Some(job.Row()), outbox := store.db.outbox + events);
    assert next == AfterStartClassify(store.db);
    ok := store.Commit(next, StartClassify);
  }

  method MarkReady(store: Store, video: V.Video, job: Job, rows: nat) returns (ok: bool)
    requires Loaded(store, video, job) && ClassifyReady(store.db)
    requires rows == |Covered(store.db, store.db.classifications)|
    modifies store, video, job
    ensures store.Follows(old(store.history), old(store.faults))
    ensures store.db == if ok then AfterCompleteClassify(old(store.db)) else old(store.db)
    ensures ok <==> store.faults == old(store.faults) && old(store.db).video.status != Failed
    ensures store.faults.queries == old(store.faults.queries)
  {
    job.SetExpectedFrameCount(rows);
    job.MarkSuccess();
    var reply := video.MarkClassified(job.expectedFrameCount);
    if reply.InvalidTransition? {
      return false;
    }
    var events := video.Pull();
    var next := store.db.(video := video.Row(), classifyJob := Some(job.Row()), outbox := store.db.outbox + events);
    assert next == AfterCompleteClassify(store.db);
    ok := store.Commit(next, CompleteClassify);
  }

  /** With no frames the error of the final transaction is returned without a class. */
  method TryFinalize(store: Store, video: V.Video, job: Job, lastAttempt: bool) returns (r: Outcome)
    requires Loaded(store, video, job)
    modifies store, video, job
    ensures store.Follows(old(store.history), old(store.faults))
    ensures r.Ok? ==> store.db == TryFinalizeRun(old(store.db)) && store.faults == old(store.faults)
    ensures r.Unclassified? ==> RawErrorPossible(old(store.db))
    ensures store.faults == old(store.faults) ==> r == TryFinalizeOutcome(old(store.db))
    ensures store.faults.queries == old(store.faults.queries) && !r.Ok? ==>
      store.db == old(store.db) && r == if store.db.frames == map[] then Unclassified else Retryable
    ensures store.faults.queries > old(store.faults.queries) ==>
      GaveUp(old(store.db), store.db, lastAttempt, store.faults.commits == old(store.faults.commits), r)
    ensures OnlyClassifyMoved(old(store.db), store.db)
  {
    FinalizingMoves(store.db);
    if !Is(store.db.frameJob, Success) {
      return Ok;
    }
    var ok := store.Reads();
    if !ok {
      r := FailOrRetry(store, video, job, "failed to load frames", lastAttempt);
      return;
    }
    if store.db.frames == map[] {
      ok := MarkReady(store, video, job, 0);
      return if ok then Ok else Unclassified;
    }
    if !AllRowsCounted(store.db) {
      return Ok;
    }
    ok := MarkReady(store, video, job, |Covered(store.db, store.db.classifications)|);
    r := if ok then Ok else Retryable;
  }

  predicate RawErrorPossible(d: Db) {
    Is(d.frameJob, Success) && d.frames == map[]
  }

  /** The unclassified error of a video without frames is never met in a history of the pipeline. */
  lemma {:induction false} RawErrorIsDead(h: seq<Db>, i: nat)
    requires History(h) && Initial(h[0]) && i < |h|
    ensures !RawErrorPossible(h[i])
  {
    EveryStateIsSafe(h, i);
    var d := h[i];
    if Is(d.frameJob, Success) {
      var s :| s in d.segments;
      assert s in Succeeded(d.segments) && HasFrame(d, s);
    }
  }

  /** The classification job is found or created; without a frame job there is nothing to retry. */
  method LoadJob(store: Store) returns (r: Outcome)
    requires store.Valid() && ClassifyAsked(store.db)
    modifies store
    ensures store.Follows(old(store.history), old(store.faults)) && !r.Unclassified?
    ensures store.db == if r.Ok? then WithClassifyJob(old(store.db)) else old(store.db)
    ensures r.Ok? ==> store.db.frameJob.Some? && store.db.classifyJob.Some?
    ensures r == if store.faults != old(store.faults) then Retryable
      else if old(store.db).frameJob.None? then NonRetryable else Ok
  {
    var ok := store.Reads();
    if !ok {
      return Retryable;
    }
    if store.db.frameJob.None? {
      return NonRetryable;
    }
    if store.db.classifyJob.None? {
      ok := store.Commit(AfterCreateClassifyJob(store.db), CreateClassifyJob);
    }
    r := if ok then Ok else Retryable;
  }

  /** The OCR row of a frame, listed by the frame's id. */
  function OcrRows(d: Db, f: FrameKey): seq<OcrResult> {
    if f in d.ocr then [d.ocr[f].(frame := f)] else []
  }

  function ClassificationRows(d: Db, f: FrameKey): seq<Classification> {
    if f in d.classifications then [d.classifications[f].(frame := f)] else []
  }

  /** A frame without a final row is either skipped or classified, never dropped. */
  lemma SplitOfOne(d: Db, f: FrameKey)
    requires !(f in d.classifications && d.classifications[f].IsFinal())
    ensures var ocr, final := OcrByFrame(OcrRows(d, f)), FinalFrames(ClassificationRows(d, f));
      match FateOf(f, d.ocr, {})
      case Classify(text) => Pendings([f], ocr, final) == [ClassifyFrame(f, text)] && Skippeds([f], ocr, final) == []
      case _ => Pendings([f], ocr, final) == [] && Skippeds([f], ocr, final) == [SkippedRow(f)]
  {
  }

  /** The row a frame is due: skipped without text, else what the classifier said, or that it forgot the frame. */
  ghost predicate IsDue(row: Classification, d: Db, f: FrameKey, answer: Option<seq<ClassifyItem>>) {
    if f in d.ocr && !Blank(d.ocr[f].text) then answer.Some? && SaysAnswer(row, f, answer.value)
    else row == Classification(f, false, 0.0, [], "skipped", "") && row.IsFinal()
  }

  /** The row a frame is to get, unless the classifier is needed and gives no answer. */
  method Classified(d: Db, f: FrameKey, answer: Option<seq<ClassifyItem>>) returns (row: Option<Classification>)
    requires !(f in d.classifications && d.classifications[f].IsFinal())
    ensures row.Some? ==> row.value == ClassifyRow(d, f, Raw(answer)) && IsDue(row.value, d, f, answer)
    ensures row.None? <==> FateOf(f, d.ocr, {}).Classify? && answer.None?
  {
    var pending, skipped := PendingClassifyFrames([f], OcrRows(d, f), ClassificationRows(d, f));
    SplitOfOne(d, f);
    FateIs(f, d.ocr, {});
    if skipped != [] {
      return Some(skipped[0]);
    }
    if answer.None? {
      return None;
    }
    var results := NormalizeResults(pending, answer.value);
    return Some(results[0]);
  }

  /** Stores the row of one frame; a classifier error is handled like a failed write. */
  method Persist(store: Store, video: V.Video, job: Job, f: FrameKey, answer: Option<seq<ClassifyItem>>,
                 lastAttempt: bool)
    returns (r: Outcome)
    requires Loaded(store, video, job) && f in store.db.frames
    requires !(f in store.db.classifications && store.db.classifications[f].IsFinal())
    modifies store, video, job
    ensures store.Follows(old(store.history), old(store.faults)) && !r.Unclassified?
    ensures r.Ok? ==> Loaded(store, video, job)
    ensures r.Ok? ==> store.db == RowStored(old(store.db), f, Raw(answer))
    ensures r.Ok? ==> IsDue(store.db.classifications[f], old(store.db), f, answer)
    ensures r.Ok? <==>
      store.faults == old(store.faults) && !(FateOf(f, old(store.db).ocr, {}).Classify? && answer.None?)
    ensures !r.Ok? ==>
      GaveUp(old(store.db), store.db, lastAttempt, store.faults.commits == old(store.faults.commits), r)
    ensures store.faults.queries == old(store.faults.queries) && OnlyClassifyMoved(old(store.db), store.db)
  {
    var row := Classified(store.db, f, answer);
    var ok := row.Some?;
    if ok {
      ok := store.Commit(AfterPersistClassification(store.db, row.value), PersistClassification(row.value));
    }
    if ok {
      return Ok;
    }
    var reason := if row.None? then "classify service unavailable" else "failed to persist classifications";
    r := FailOrRetry(store, video, job, reason, lastAttempt);
  }

  method Start(store: Store, video: V.Video, job: Job) returns (r: Outcome)
    requires Loaded(store, video, job)
    modifies store, video, job
    ensures store.Follows(old(store.history), old(store.faults)) && !r.Unclassified?
    ensures store.db == if r.Ok? then ClassifyStarted(old(store.db)) else old(store.db)
    ensures r == if store.faults == old(store.faults) then Ok else Retryable
    ensures store.faults.queries == old(store.faults.queries)
    ensures r.Ok? ==> Loaded(store, video, job)
  {
    var ok := MarkProcessing(store, video, job, |store.db.frames.Keys|);
    r := if ok then Ok else Retryable;
  }

  predicate IsBroken(d: Db) {
    Is(d.classifyJob, Failed) && d.video.status == Failed
  }

  predicate IsFinalIn(d: Db, f: FrameKey) {
    f in d.classifications && d.classifications[f].IsFinal()
  }

  /** A final row stays; any other frame gets the row it is due.  Rows of other frames stay. */
  ghost predicate RowDone(d: Db, d': Db, f: FrameKey, answer: Option<seq<ClassifyItem>>) {
    if IsFinalIn(d, f) then d'.classifications == d.classifications
    else
      && f in d'.classifications && IsDue(d'.classifications[f], d, f, answer)
      && d'.classifications == d.classifications[f := d'.classifications[f]]
  }

  /** How a run on an open job ends, from faults `f0` to `f1`, if not well. */
  predicate Misses(d: Db, d': Db, f0: Faults, f1: Faults, unknown: bool, lastAttempt: bool, r: Outcome) {
    && (r == NonRetryable ==>
          (unknown && d' == d && f1 == f0) || (lastAttempt && (f1.commits == f0.commits ==> IsBroken(d'))))
    && (f1.queries > f0.queries ==> r == if lastAttempt then NonRetryable else Retryable)
    && (r == Unclassified ==> RawErrorPossible(d))
  }

  lemma StartingMoves(d: Db)
    ensures OnlyClassifyMoved(d, ClassifyStarted(d)) && ClassifyStarted(d).classifications == d.classifications
  {
    if !Is(d.classifyJob, Processing) {
      CommandMoves(d, AfterStartClassify(d), V.MarkClassifying(|d.frames.Keys|));
    }
  }

  lemma StoringThenFinalizing(d: Db, f: FrameKey, answer: Option<seq<ClassifyItem>>)
    requires !IsFinalIn(d, f) && IsDue(RowStored(d, f, Raw(answer)).classifications[f], d, f, answer)
    ensures RowDone(d, TryFinalizeRun(RowStored(d, f, Raw(answer))), f, answer)
  {
    FinalizingMoves(RowStored(d, f, Raw(answer)));
  }

  /** `HandleLoaded` for a frame without a final row, once the job has started. */
  method HandleStarted(store: Store, video: V.Video, job: Job, f: FrameKey, answer: Option<seq<ClassifyItem>>,
                       lastAttempt: bool)
    returns (r: Outcome)
    requires Loaded(store, video, job) && f in store.db.frames && !IsFinalIn(store.db, f)
    modifies store, video, job
    ensures store.Follows(old(store.history), old(store.faults))
    ensures OnlyClassifyMoved(old(store.db), store.db)
    ensures r.Ok? ==> store.db == TryFinalizeRun(RowStored(old(store.db), f, Raw(answer)))
    ensures r.Ok? ==> store.faults == old(store.faults) && RowDone(old(store.db), store.db, f, answer)
    ensures store.faults == old(store.faults) ==>
      r == if FateOf(f, old(store.db).ocr, {}).Classify? && answer.None? then Failure(lastAttempt)
           else TryFinalizeOutcome(RowStored(old(store.db), f, Raw(answer)))
    ensures Misses(old(store.db), store.db, old(store.faults), store.faults, false, lastAttempt, r)
  {
    ghost var d := store.db;
    r := Persist(store, video, job, f, answer, lastAttempt);
    ghost var d1 := store.db;
    if r.Ok? {
      StoringThenFinalizing(d, f, answer);
      r := TryFinalize(store, video, job, lastAttempt);
      MovedTwice(d, d1, store.db);
    }
  }

  /** As `HandleFrame`, with the video and its job loaded and not yet done. */
  method HandleLoaded(store: Store, video: V.Video, job: Job, f: FrameKey, answer: Option<seq<ClassifyItem>>,
                      lastAttempt: bool)
    returns (r: Outcome)
    requires Loaded(store, video, job)
    modifies store, video, job
    ensures store.Follows(old(store.history), old(store.faults))
    ensures OnlyClassifyMoved(old(store.db), store.db)
    ensures r.Ok? ==> f in store.db.frames
    ensures r.Ok? ==> store.db == FrameHandled(old(store.db), f, Raw(answer))
    ensures r.Ok? ==> store.faults == old(store.faults) && RowDone(old(store.db), store.db, f, answer)
    ensures store.faults == old(store.faults) ==> r == FrameOutcome(old(store.db), f, answer, lastAttempt)
    ensures Misses(old(store.db), store.db, old(store.faults), store.faults,
      f !in old(store.db).frames, lastAttempt, r)
  {
    ghost var d := store.db;
    var ok := store.Reads();
    if !ok {
      r := FailOrRetry(store, video, job, "failed to load frames", lastAttempt);
      return;
    }
    if f !in store.db.frames {
      return NonRetryable;
    }
    if f in store.db.classifications && store.db.classifications[f].IsFinal() {
      FinalizingMoves(d);
      r := TryFinalize(store, video, job, lastAttempt);
      return;
    }
    StartingMoves(d);
    r := Start(store, video, job);
    ghost var d1 := store.db;
    if r.Ok? {
      r := HandleStarted(store, video, job, f, answer, lastAttempt);
    }
    MovedTwice(d, d1, store.db);
  }

  /**
   `answer` is what the classifier returns if it is asked; None when it fails or times out.  A run
   without an error leaves the row the frame is due, and the video complete when it is; without a
   fault the outcome is determined.  It is given up for good only without a frame job, for an unknown
   frame, or on the last attempt, which leaves job and video failed.
   */
  method HandleFrame(store: Store, f: FrameKey, answer: Option<seq<ClassifyItem>>, lastAttempt: bool)
    returns (r: Outcome)
    requires store.Valid() && ClassifyAsked(store.db)
    modifies store
    ensures store.Follows(old(store.history), old(store.faults))
    ensures OnlyClassifyMoved(old(store.db), store.db)
    ensures r.Ok? ==> store.db == HandleFrameRun(old(store.db), f, Raw(answer))
    ensures r.Ok? && !ClassifyDone(WithClassifyJob(old(store.db))) ==>
      RowDone(old(store.db), store.db, f, answer)
    ensures store.faults == old(store.faults) ==> r == HandleFrameOutcome(old(store.db), f, answer, lastAttempt)
    ensures store.faults != old(store.faults) ==> !r.Ok?
    ensures r == Unclassified ==> RawErrorPossible(old(store.db))
    ensures r == NonRetryable && old(store.db).frameJob.Some? && f in old(store.db).frames ==>
      lastAttempt && (store.faults.commits == old(store.faults.commits) ==> IsBroken(store.db))
    ensures old(store.db).frameJob.None? ==> store.db == old(store.db)
  {
    r := LoadJob(store);
    if !r.Ok? {
      return;
    }
    ghost var d1 := store.db;
    var video := new V.Video.Load(store.db.video);
    var job := new Job.Load(store.db.classifyJob.value);
    if job.status == Success || video.status == Success {
      return;
    }
    r := HandleLoaded(store, video, job, f, answer, lastAttempt);
    MovedTwice(old(store.db), d1, store.db);
  }

  /** Completes the video when the counts allow it; what it answers without a fault is determined. */
  method Finalize(store: Store, lastAttempt: bool) returns (r: Outcome)
    requires store.Valid() && ClassifyAsked(store.db)
    modifies store
    ensures store.Follows(old(store.history), old(store.faults))
    ensures r.Ok? ==> store.db == FinalizeRun(old(store.db))
    ensures store.faults == old(store.faults) ==> r == FinalizeOutcome(old(store.db))
    ensures store.faults != old(store.faults) ==> !r.Ok?
    ensures r == Unclassified ==> RawErrorPossible(old(store.db))
    ensures r == NonRetryable && old(store.db).frameJob.Some? ==>
      lastAttempt && (store.faults.commits == old(store.faults.commits) ==> IsBroken(store.db))
    ensures old(store.db).frameJob.None? ==> store.db == old(store.db)
  {
    r := LoadJob(store);
    if !r.Ok? {
      return;
    }
    var video := new V.Video.Load(store.db.video);
    var job := new Job.Load(store.db.classifyJob.value);
    if job.status == Success || video.status == Success {
      return;
    }
    r := TryFinalize(store, video, job, lastAttempt);
  }
}
