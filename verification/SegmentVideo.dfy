/** Splitting an uploaded video into segments. */
module SegmentVideo {
  import opened Domain
  import opened Pipeline
  import opened HandlerRuns
  import opened Repositories
  import opened Messaging
  import opened Jobs
  import V = VideoAggregate

  /** What splitting gives: segment indices in order, or an error of either class. */
  datatype Split = Produced(order: seq<nat>) | Unreadable | Interrupted

  /** How the handler returns when no read or commit fails. */
  function SplitOutcome(split: Split): Outcome {
    match split
    case Produced(_) => Ok
    case Unreadable => NonRetryable
    case Interrupted => Retryable
  }

  function HandleOutcome(d: Db, split: Split): Outcome {
    if d.segmentJob.None? then NonRetryable
    else if d.video.status == Success || Resumes(d) then Ok
    else SplitOutcome(split)
  }

  /** The video is to be split. */
  predicate Opens(d: Db) {
    d.segmentJob.Some? && d.video.status != Success && !Resumes(d)
  }

  ghost predicate Loaded(store: Store, video: V.Video, job: Job)
    reads store, video, job
  {
    && store.Valid() && store.db.segmentJob.Some?
    && video.State() == V.Aggregate(store.db.video, []) && job.Row() == store.db.segmentJob.value
  }

  predicate IsLive(d: Db) {
    d.video.status == Pending || d.video.status == Processing
  }

  /** Only the video, its segment job and the outbox may have changed. */
  predicate OnlyJobMoved(d: Db, d': Db) {
    && d.outbox <= d'.outbox
    && d' == d.(video := d'.video, segmentJob := d'.segmentJob, outbox := d'.outbox)
  }

  /** The split has started: the job works, and so does the video unless the job did before. */
  predicate IsStarted(d: Db, d': Db) {
    && OnlyJobMoved(d, d') && Is(d'.segmentJob, Processing)
    && if Is(d.segmentJob, Processing) then d' == d
       else d'.video == d.video.(status := Processing) && d'.outbox == d.outbox + [Extracting]
  }

  /** The split has failed: so have job and video, and it is announced unless the video had failed before. */
  predicate IsFailed(d: Db, d': Db) {
    && OnlyJobMoved(d, d') && Is(d'.segmentJob, Failed) && d'.video == d.video.(status := Failed)
    && d'.outbox == d.outbox + (if Is(d.segmentJob, Processing) then [] else [Extracting])
         + (if IsLive(d) || !Is(d.segmentJob, Processing) then [ExtractionFailed] else [])
  }

  lemma StartedIs(d: Db)
    requires SegmentationOpen(d)
    ensures IsStarted(d, SegmentationStarted(d))
  {
  }

  lemma FailedIs(d: Db)
    requires SegmentationOpen(d)
    ensures IsFailed(d, AfterFailSegmentation(SegmentationStarted(d)))
  {
    StartedIs(d);
  }

  method MarkExtracting(store: Store, video: V.Video, job: Job) returns (ok: bool)
    requires Loaded(store, video, job) && SegmentationOpen(store.db)
    modifies store, video, job
    ensures store.Follows(old(store.history), old(store.faults))
    ensures store.db == if ok then SegmentationStarted(old(store.db)) else old(store.db)
    ensures ok <==> store.faults == old(store.faults)
    ensures store.faults.queries == old(store.faults.queries)
    ensures ok ==> Loaded(store, video, job)
  {
    if job.status == Processing {
      return true;
    }
    job.MarkProcessing();
    var reply := video.MarkExtracting();
    var events := video.Pull();
    var next := store.db.(video := video.Row(), segmentJob := Some(job.Row()), outbox := store.db.outbox + events);
    assert next == AfterStartSegmentation(store.db);
    ok := store.Commit(next, StartSegmentation);
  }

  method MarkFailed(store: Store, video: V.Video, job: Job) returns (ok: bool)
    requires Loaded(store, video, job) && SegmentationOpen(store.db)
    modifies store, video, job
    ensures store.Follows(old(store.history), old(store.faults))
    ensures store.db == if ok then AfterFailSegmentation(old(store.db)) else old(store.db)
    ensures ok <==> store.faults == old(store.faults)
    ensures store.faults.queries == old(store.faults.queries)
  {
    job.MarkFailed("unreadable video");
    var reply := video.MarkExtractionFailed();
    if reply.InvalidTransition? {
      return false;
    }
    var events := video.Pull();
    var next := store.db.(video := video.Row(), segmentJob := Some(job.Row()), outbox := store.db.outbox + events);
    assert next == AfterFailSegmentation(store.db);
    ok := store.Commit(next, FailSegmentation);
  }

  method RecordSegments(video: V.Video, order: seq<nat>)
    modifies video
    ensures video.Row() == old(video.Row())
    ensures video.events == old(video.events) + SegmentReadies(order)
  {
    ghost var before := video.events;
    for i := 0 to |order|
      invariant video.Row() == old(video.Row())
      invariant video.events == before + SegmentReadies(order[..i])
    {
      video.RecordSegmentReady(order[i]);
      assert SegmentReadies(order[..i + 1]) == SegmentReadies(order[..i]) + [SegmentReady(order[i])];
    }
    assert order[..|order|] == order;
  }

  function SegmentRows(order: seq<nat>): map<nat, Status> {
    map s | s in order :: Pending
  }

  /** The frame job with its expected number of segments. */
  method FrameJob(row: Option<JobRow>, count: nat) returns (next: JobRow)
    ensures var f := JobOrNew(row).(expectedSegments := count);
      next == if Is(row, Pending) then f.(status := Processing) else f
  {
    var frameJob := new Job.Load(JobOrNew(row));
    frameJob.SetSegmentProgress(count, frameJob.completedSegmentCount);
    if row.Some? && frameJob.status == Pending {
      frameJob.MarkProcessing();
    }
    next := frameJob.Row();
  }

  /** Segments, frame job and announcements are committed together; the error has no class. */
  method CommitSegments(store: Store, video: V.Video, job: Job, order: seq<nat>) returns (ok: bool)
    requires Loaded(store, video, job) && CanCommitSegments(store.db, order)
    modifies store, video, job
    ensures store.Follows(old(store.history), old(store.faults))
    ensures store.db == if ok then AfterCommitSegments(old(store.db), order) else old(store.db)
    ensures ok <==> store.faults == old(store.faults)
    ensures store.faults.queries == old(store.faults.queries)
  {
    job.SetSegmentProgress(|order|, 0);
    job.MarkSuccess();
    RecordSegments(video, order);
    var frameJob := FrameJob(store.db.frameJob, |order|);
    var events := video.Pull();
    var next := store.db.(segments := store.db.segments + SegmentRows(order), segmentJob := Some(job.Row()),
      frameJob := Some(frameJob), outbox := store.db.outbox + events);
    assert next == AfterCommitSegments(store.db, order);
    ok := store.Commit(next, Tx.CommitSegments(order));
  }

  /** The segments a redelivery announces again, in the order they are listed. */
  function Pendings(listed: seq<nat>, segments: map<nat, Status>): seq<nat> {
    if listed == [] then []
    else
      var s := listed[|listed| - 1];
      Pendings(listed[..|listed| - 1], segments) +
      if s in segments && (segments[s] == Pending || segments[s] == Failed) then [s] else []
  }

  lemma {:induction false} PendingsAre(listed: seq<nat>, segments: map<nat, Status>)
    ensures forall s :: s in Pendings(listed, segments) <==>
      s in listed && s in segments && (segments[s] == Pending || segments[s] == Failed)
  {
    if listed != [] {
      PendingsAre(listed[..|listed| - 1], segments);
      assert listed == listed[..|listed| - 1] + [listed[|listed| - 1]];
    }
  }

  /** What a listing of the segments returns. */
  ghost predicate Lists(listed: seq<nat>, segments: map<nat, Status>) {
    forall s :: s in listed <==> s in segments
  }

  method RecordPending(video: V.Video, listed: seq<nat>, segments: map<nat, Status>) returns (pending: seq<nat>)
    requires video.events == []
    modifies video
    ensures pending == Pendings(listed, segments)
    ensures video.Row() == old(video.Row()) && video.events == SegmentReadies(pending)
  {
    pending := [];
    for i := 0 to |listed|
      invariant pending == Pendings(listed[..i], segments)
      invariant video.Row() == old(video.Row()) && video.events == SegmentReadies(pending)
    {
      assert listed[..i + 1][..i] == listed[..i];
      var s := listed[i];
      if s in segments && (segments[s] == Pending || segments[s] == Failed) {
        video.RecordSegmentReady(s);
        assert SegmentReadies(pending + [s]) == SegmentReadies(pending) + [SegmentReady(s)];
        pending := pending + [s];
      }
    }
    assert listed[..|listed|] == listed;
  }

  method RepublishPending(store: Store, video: V.Video, listed: seq<nat>) returns (r: Outcome)
    requires store.Valid() && store.db.segmentJob.Some?
    requires video.State() == V.Aggregate(store.db.video, []) && Lists(listed, store.db.segments)
    modifies store, video
    ensures store.Follows(old(store.history), old(store.faults))
    ensures r == Ok || r == Unclassified
    ensures r.Ok? ==> store.db == Republished(old(store.db), Pendings(listed, old(store.db).segments))
    ensures r.Unclassified? ==> store.db == old(store.db) && Pendings(listed, old(store.db).segments) != []
    ensures r.Ok? <==> store.faults == old(store.faults)
    ensures store.faults.queries == old(store.faults.queries)
  {
    var pending := RecordPending(video, listed, store.db.segments);
    if pending == [] {
      return Ok;
    }
    PendingsAre(listed, store.db.segments);
    var events := video.Pull();
    var ok := store.Commit(store.db.(outbox := store.db.outbox + events), RepublishSegments(pending));
    r := if ok then Ok else Unclassified;
  }

  /**
   How a failing commit ends the split: before it has started, with a retry; in the failure
   transaction, with the error of the split; in the last one, with an error that has no class.
   */
  predicate Stopped(d: Db, d': Db, split: Split, r: Outcome) {
    || (r == Retryable && d' == d)
    || (!split.Produced? && r == SplitOutcome(split) && IsStarted(d, d'))
    || (split.Produced? && r == Unclassified && IsStarted(d, d'))
  }

  /** A video that is to be split, with everything loaded. */
  method SplitOpen(store: Store, video: V.Video, job: Job, split: Split) returns (r: Outcome)
    requires Loaded(store, video, job) && SegmentationOpen(store.db)
    requires !(store.db.segments != map[] && store.db.segmentJob.value.expectedSegments > 0)
    requires split.Produced? ==> split.order != [] && NoDuplicates(split.order)
    modifies store, video, job
    ensures store.Follows(old(store.history), old(store.faults))
    ensures r.Ok? ==>
      split.Produced? && store.db == AfterCommitSegments(SegmentationStarted(old(store.db)), split.order)
    ensures store.faults == old(store.faults) ==> r == SplitOutcome(split)
    ensures store.faults == old(store.faults) && !split.Produced? ==> IsFailed(old(store.db), store.db)
    ensures store.faults != old(store.faults) ==> Stopped(old(store.db), store.db, split, r)
    ensures store.faults.queries == old(store.faults.queries)
  {
    StartedIs(store.db);
    FailedIs(store.db);
    var ok := MarkExtracting(store, video, job);
    if !ok {
      return Retryable;
    }
    if !split.Produced? {
      var marked := MarkFailed(store, video, job);
      return if split.Unreadable? then NonRetryable else Retryable;
    }
    ok := CommitSegments(store, video, job, split.order);
    r := if ok then Ok else Unclassified;
  }

  /** A run with its rows loaded, from rows `d` to `d'` and from faults `f` to `f'`. */
  ghost predicate Ends(d: Db, d': Db, f: Faults, f': Faults, listed: seq<nat>, split: Split, r: Outcome)
  {
    && (f' == f ==> r == HandleOutcome(d, split) && (Opens(d) && !split.Produced? ==> IsFailed(d, d')))
    && (f' == f && r.NonRetryable? && !Opens(d) ==> d' == d)
    && (f'.queries > f.queries ==> r == Retryable && d' == d)
    && (f'.commits > f.commits ==>
          if Opens(d) then Stopped(d, d', split, r)
          else r == Unclassified && d' == d && Pendings(listed, d'.segments) != [])
  }

  /** A run without an error leaves the segments split, or what was left of them announced again. */
  ghost predicate Leaves(d: Db, d': Db, listed: seq<nat>, split: Split)
  {
    if d.video.status == Success then d' == d
    else if Resumes(d) then d' == SegmentVideoRun(d, Pendings(listed, d.segments))
    else split.Produced? && d' == SegmentVideoRun(d, split.order)
  }

  /** As `Handle`, with the rows loaded and the video not in success. */
  method HandleLoaded(store: Store, video: V.Video, job: Job, listed: seq<nat>, split: Split) returns (r: Outcome)
    requires Loaded(store, video, job) && Lists(listed, store.db.segments) && store.db.video.status != Success
    requires split.Produced? ==> split.order != [] && NoDuplicates(split.order)
    modifies store, video, job
    ensures store.Follows(old(store.history), old(store.faults))
    ensures r.Ok? ==> Leaves(old(store.db), store.db, listed, split)
    ensures Ends(old(store.db), store.db, old(store.faults), store.faults, listed, split, r)
  {
    var ok := store.Reads();
    if !ok {
      return Retryable;
    }
    if job.status == Success || (|listed| > 0 && job.expectedSegmentCount > 0) {
      assert |listed| > 0 ==> listed[0] in store.db.segments;
      assert Resumes(store.db);
      r := RepublishPending(store, video, listed);
      return;
    }
    assert store.db.segments != map[] ==> exists s :: s in store.db.segments && s in listed;
    assert Opens(store.db);
    r := SplitOpen(store, video, job, split);
  }

  /**
   `listed` is what a listing of segments returns, `split` what splitting gives if it is needed.
   Without a fault the outcome is determined, and a split that failed leaves job and video failed.
   A read that fails leaves the rows as they were, with a retry; errors without a class escape from
   the two transactions that announce segments.  An error with a class means that no segment has
   been stored.
   */
  method Handle(store: Store, listed: seq<nat>, split: Split) returns (r: Outcome)
    requires store.Valid() && Lists(listed, store.db.segments)
    requires split.Produced? ==> split.order != [] && NoDuplicates(split.order)
    modifies store
    ensures store.Follows(old(store.history), old(store.faults))
    ensures r.Ok? ==> Leaves(old(store.db), store.db, listed, split)
    ensures Ends(old(store.db), store.db, old(store.faults), store.faults, listed, split, r)
    ensures r.Retryable? || r.NonRetryable? ==>
      OnlyJobMoved(old(store.db), store.db)
      && (Is(store.db.segmentJob, Success) <==> Is(old(store.db).segmentJob, Success))
  {
    var ok := store.Reads();
    if !ok {
      return Retryable;
    }
    if store.db.segmentJob.None? {
      return NonRetryable;
    }
    var video := new V.Video.Load(store.db.video);
    var job := new Job.Load(store.db.segmentJob.value);
    if video.status == Success {
      return Ok;
    }
    r := HandleLoaded(store, video, job, listed, split);
  }
}
