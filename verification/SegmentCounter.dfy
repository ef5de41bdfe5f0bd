/** The segment counter when extraction workers interleave. */
module SegmentCounter {
  import opened Domain
  import opened Pipeline
  import opened PipelineSafety
  import V = VideoAggregate

  /**
   What one worker has read so far.  A worker reads the video, the frame job and its segment in
   separate steps and later commits from those copies: the completion transaction counts with an
   atomic increment, the failure transaction writes its stale job row back as a whole.  One worker
   at a time holds a segment, and only while the segment has an announcement that was neither
   handled nor given up: a segment is announced once (`SplitOnce`), and an event has one run of a
   handler at a time (`DeliveryProtocol.OneRunAtATime`).
   */
  datatype Worker =
    | Idle
    | SawVideo(video: Status)
    | SawJob(video: Status, job: JobRow)
    | Working(video: Status, job: JobRow)

  datatype State = State(
    video: Status,
    job: JobRow,
    segments: map<nat, Status>,
    frames: map<FrameKey, int>,
    queued: set<nat>,
    workers: map<nat, Worker>,
    extracted: seq<seq<FrameKey>>)

  datatype Action =
    | ReadVideo(segment: nat)
    | ReadJob(segment: nat)
    | ReadSegment(segment: nat)
    | Recover(segment: nat, listing: seq<FrameKey>)
    | StoreFrame(segment: nat, index: nat, timestampMs: int)
    | Complete(segment: nat, listing: seq<FrameKey>)
    | Fail(segment: nat)
    | GiveUp(segment: nat, again: bool)
    | Announce(segment: nat)
    | Elsewhere(video: Status)

  /** Every frame once, by timestamp; frames with equal timestamps come in any order. */
  ghost predicate SortedListing(listing: seq<FrameKey>, frames: map<FrameKey, int>) {
    && multiset(listing) == multiset(frames.Keys)
    && forall i, j :: 0 <= i < j < |listing| && listing[i] in frames && listing[j] in frames ==>
      frames[listing[i]] <= frames[listing[j]]
  }

  function With(s: State, g: nat, w: Worker): State {
    s.(workers := s.workers[g := w])
  }

  function At(s: State, g: nat): Worker {
    if g in s.workers then s.workers[g] else Idle
  }

  /** The worker is done with the announcement: it has returned, or its failure is not retried. */
  function Done(s: State, g: nat): State {
    With(s, g, Idle).(queued := s.queued - {g})
  }

  /** The recovery branch: the segment is done, and so by its copy is every other one. */
  predicate CanRecover(s: State, g: nat)
    requires g in s.segments && At(s, g).SawJob?
  {
    var w := At(s, g);
    w.job.status != Success && w.video != Failed && s.segments[g] == Success && w.job.SegmentsComplete()
  }

  /** A load that ends with nothing to do or with the segment marked as processing. */
  function AfterReadSegment(s: State, g: nat): State
    requires g in s.segments && At(s, g).SawJob?
  {
    var w := At(s, g);
    if w.job.status == Success || w.video == Failed || s.segments[g] == Success then Done(s, g)
    else With(s, g, Working(w.video, w.job)).(segments := s.segments[g := Processing])
  }

  function Announced(video: Status, listing: seq<FrameKey>): seq<seq<FrameKey>> {
    if V.Records(video, V.MarkFramesReady(|listing|)) == [] then [] else [listing]
  }

  /** The job row a worker saves when it completes the job from its copy `j`. */
  function Finished(j: JobRow, listing: seq<FrameKey>): JobRow {
    j.(status := Success, expectedFrames := |listing|)
  }

  /** Saves the video copy, the job copy and the announcement of a completed extraction. */
  function AfterFinish(s: State, g: nat, video: Status, j: JobRow, listing: seq<FrameKey>): State {
    Done(s, g).(
      job := Finished(j, listing),
      video := V.NextStatus(video, V.MarkFramesReady(|listing|)),
      extracted := s.extracted + Announced(video, listing))
  }

  /** The completion transaction's view of the job: reloaded if the segment is done, else incremented. */
  function Counted(s: State, g: nat): JobRow
    requires g in s.segments && At(s, g).Working?
  {
    if s.segments[g] == Success then s.job
    else At(s, g).job.(completedSegments := s.job.completedSegments + 1, expectedSegments := s.job.expectedSegments)
  }

  function AfterComplete(s: State, g: nat, listing: seq<FrameKey>): State
    requires g in s.segments && At(s, g).Working?
  {
    var w, j := At(s, g), Counted(s, g);
    var s1 := s.(segments := s.segments[g := Success]);
    if j.SegmentsComplete() && j.status != Success then AfterFinish(s1, g, w.video, j, listing)
    else Done(s1, g).(
      video := w.video,
      job := if s.segments[g] == Success then s.job else s.job.(completedSegments := s.job.completedSegments + 1))
  }

  /** The failure transaction writes the worker's whole job row. */
  function AfterFail(s: State, g: nat): State
    requires At(s, g).Working?
  {
    Done(s, g).(
      segments := s.segments[g := Failed],
      job := At(s, g).job.(status := Failed),
      video := V.NextStatus(At(s, g).video, V.MarkExtractionFailed))
  }

  /** The extractor refuses a segment of which it keeps no frame. */
  predicate HasFrame(s: State, g: nat) {
    exists f :: f in s.frames && f.segment == g
  }

  /**
   `GiveUp` is a retryable failure or a killed worker; only in the first case is the announcement
   handled again.  `Announce` would be a second run of the split that finds the segment pending or failed;
   `SplitOnce` shows that there is none.
   */
  ghost predicate Acts(s: State, a: Action, s': State) {
    match a
    case ReadVideo(g) => g in s.segments && g in s.queued && At(s, g).Idle? && s' == With(s, g, SawVideo(s.video))
    case ReadJob(g) => g in s.segments && At(s, g).SawVideo? && s' == With(s, g, SawJob(At(s, g).video, s.job))
    case ReadSegment(g) => g in s.segments && At(s, g).SawJob? && !CanRecover(s, g) && s' == AfterReadSegment(s, g)
    case Recover(g, listing) =>
      && g in s.segments && At(s, g).SawJob? && CanRecover(s, g)
      && SortedListing(listing, s.frames)
      && s' == AfterFinish(s, g, At(s, g).video, At(s, g).job, listing)
    case StoreFrame(g, i, ts) =>
      g in s.segments && At(s, g).Working? && s' == s.(frames := s.frames[FrameKey(g, i) := ts])
    case Complete(g, listing) =>
      && g in s.segments && At(s, g).Working? && HasFrame(s, g) && SortedListing(listing, s.frames)
      && s' == AfterComplete(s, g, listing)
    case Fail(g) => g in s.segments && At(s, g).Working? && At(s, g).video != Success && s' == AfterFail(s, g)
    case GiveUp(g, again) => g in s.segments && s' == if again then With(s, g, Idle) else Done(s, g)
    case Announce(g) =>
      && g in s.segments && (s.segments[g] == Pending || s.segments[g] == Failed)
      && s' == s.(queued := s.queued + {g})
    case Elsewhere(v) => (v == Success ==> s.job.status == Success) && s' == s.(video := v)
  }

  /** The segments have just been committed and announced. */
  ghost predicate Start(s: State) {
    && s.segments != map[] && (forall g :: g in s.segments ==> s.segments[g] == Pending)
    && s.video != Success && s.job.status != Success
    && s.job.expectedSegments == |s.segments.Keys| && s.job.completedSegments == 0
    && s.frames == map[] && s.queued == s.segments.Keys && s.workers == map[] && s.extracted == []
  }

  ghost predicate ActsAt(h: seq<State>, actions: seq<Action>, i: nat)
    requires i + 1 < |h| && i < |actions|
  {
    Acts(h[i], actions[i], h[i + 1])
  }

  ghost predicate Run(h: seq<State>, actions: seq<Action>) {
    && |h| == |actions| + 1 && Start(h[0])
    && forall i {:trigger ActsAt(h, actions, i)} :: 0 <= i < |actions| ==> ActsAt(h, actions, i)
  }

  // ----- Invariant -----

  predicate Finalized(j: JobRow) {
    j.status == Success
  }

  /** A copy of the job row that is or was the row: it never counts more than has succeeded. */
  ghost predicate CopyOk(s: State, j: JobRow) {
    && j.expectedSegments == |s.segments.Keys|
    && j.completedSegments <= |Succeeded(s.segments)|
    && (j.SegmentsComplete() <==> Finalized(j))
    && (Finalized(j) ==> Finalized(s.job))
  }

  ghost predicate WorkerOk(s: State, g: nat)
    requires g in s.segments
  {
    match At(s, g)
    case Idle => true
    case SawVideo(v) => v == Success ==> Finalized(s.job)
    case SawJob(v, j) => CopyOk(s, j) && (v == Success ==> Finalized(j))
    case Working(v, j) => CopyOk(s, j) && !Finalized(j) && v != Success && v != Failed && s.segments[g] != Success
  }

  ghost predicate Inv(s: State) {
    && s.segments != map[]
    && CopyOk(s, s.job)
    && (s.video == Success ==> Finalized(s.job))
    && (Finalized(s.job) ==> Succeeded(s.segments) == s.segments.Keys)
    && (if Finalized(s.job) then |s.extracted| == 1 && SortedListing(s.extracted[0], s.frames) else s.extracted == [])
  }

  ghost predicate WorkersOk(s: State) {
    forall g :: g in s.segments ==> WorkerOk(s, g)
  }

  lemma SucceededFits(s: State)
    ensures |Succeeded(s.segments)| <= |s.segments.Keys|
    ensures |Succeeded(s.segments)| == |s.segments.Keys| <==> Succeeded(s.segments) == s.segments.Keys
  {
    EqualBySize(Succeeded(s.segments), s.segments.Keys);
  }

  lemma ReadingKeeps(s: State, g: nat, w: Worker)
    requires Inv(s) && WorkersOk(s) && g in s.segments
    requires w.Idle? || (w == SawVideo(s.video)) || (At(s, g).SawVideo? && w == SawJob(At(s, g).video, s.job))
    ensures Inv(With(s, g, w)) && WorkersOk(With(s, g, w))
  {
  }

  lemma QueueKeeps(s: State, q: set<nat>)
    requires Inv(s) && WorkersOk(s)
    ensures Inv(s.(queued := q)) && WorkersOk(s.(queued := q))
  {
  }

  lemma ReadSegmentKeeps(s: State, g: nat)
    requires Inv(s) && WorkersOk(s) && g in s.segments && At(s, g).SawJob?
    ensures Inv(AfterReadSegment(s, g)) && WorkersOk(AfterReadSegment(s, g))
  {
    assert WorkerOk(s, g);
    var s' := AfterReadSegment(s, g);
    assert s'.segments.Keys == s.segments.Keys;
    assert Succeeded(s'.segments) == Succeeded(s.segments);
  }

  lemma StoreKeeps(s: State, f: FrameKey, ts: int)
    requires Inv(s) && WorkersOk(s) && f.segment in s.segments && At(s, f.segment).Working?
    ensures Inv(s.(frames := s.frames[f := ts])) && WorkersOk(s.(frames := s.frames[f := ts]))
  {
  }

  lemma FailKeeps(s: State, g: nat)
    requires Inv(s) && WorkersOk(s) && g in s.segments && At(s, g).Working?
    ensures Inv(AfterFail(s, g)) && WorkersOk(AfterFail(s, g))
  {
    assert WorkerOk(s, g);
    var s' := AfterFail(s, g);
    assert s'.segments.Keys == s.segments.Keys;
    assert Succeeded(s'.segments) == Succeeded(s.segments);
    SucceededFits(s);
  }

  /** With one worker per segment the branch for a segment completed meanwhile is never taken. */
  lemma WorkingIsNotDone(s: State, g: nat)
    requires Inv(s) && WorkersOk(s) && g in s.segments && At(s, g).Working?
    ensures s.segments[g] != Success && !Finalized(s.job)
    ensures Counted(s, g).completedSegments == s.job.completedSegments + 1
    ensures Counted(s, g).SegmentsComplete() <==> s.job.completedSegments + 1 >= |s.segments.Keys|
  {
  }

  lemma OneMoreSucceeds(s: State, g: nat)
    requires g in s.segments && s.segments[g] != Success
    ensures Succeeded(s.segments[g := Success]) == Succeeded(s.segments) + {g}
    ensures |Succeeded(s.segments[g := Success])| == |Succeeded(s.segments)| + 1
  {
  }

  lemma CompleteInv(s: State, g: nat, listing: seq<FrameKey>)
    requires Inv(s) && WorkersOk(s) && g in s.segments && At(s, g).Working? && SortedListing(listing, s.frames)
    ensures Inv(AfterComplete(s, g, listing))
  {
    assert WorkerOk(s, g);
    WorkingIsNotDone(s, g);
    OneMoreSucceeds(s, g);
    var s' := AfterComplete(s, g, listing);
    assert s'.segments.Keys == s.segments.Keys;
    SucceededFits(s');
  }

  lemma CompleteKeeps(s: State, g: nat, listing: seq<FrameKey>)
    requires Inv(s) && WorkersOk(s) && g in s.segments && At(s, g).Working? && SortedListing(listing, s.frames)
    ensures Inv(AfterComplete(s, g, listing)) && WorkersOk(AfterComplete(s, g, listing))
  {
    CompleteInv(s, g, listing);
    WorkingIsNotDone(s, g);
    OneMoreSucceeds(s, g);
  }

  lemma ElsewhereKeeps(s: State, v: Status)
    requires Inv(s) && WorkersOk(s) && (v == Success ==> s.job.status == Success)
    ensures Inv(s.(video := v)) && WorkersOk(s.(video := v))
  {
  }

  /** Nor is the recovery branch of a segment found already done. */
  lemma RecoveryNeverRuns(s: State, g: nat)
    requires WorkersOk(s) && g in s.segments && At(s, g).SawJob?
    ensures !CanRecover(s, g)
  {
  }

  lemma ActKeeps(s: State, a: Action, s': State)
    requires Inv(s) && WorkersOk(s) && Acts(s, a, s')
    ensures Inv(s') && WorkersOk(s')
  {
    match a
    case ReadVideo(g) => ReadingKeeps(s, g, SawVideo(s.video));
    case ReadJob(g) => ReadingKeeps(s, g, SawJob(At(s, g).video, s.job));
    case ReadSegment(g) => ReadSegmentKeeps(s, g);
    case Recover(g, listing) => RecoveryNeverRuns(s, g);
    case StoreFrame(g, i, ts) => StoreKeeps(s, FrameKey(g, i), ts);
    case Complete(g, listing) => CompleteKeeps(s, g, listing);
    case Fail(g) => FailKeeps(s, g);
    case GiveUp(g, _) =>
      ReadingKeeps(s, g, Idle);
      QueueKeeps(With(s, g, Idle), s'.queued);
    case Announce(g) => QueueKeeps(s, s'.queued);
    case Elsewhere(v) => ElsewhereKeeps(s, v);
  }

  lemma StartInv(s: State)
    requires Start(s)
    ensures Inv(s) && WorkersOk(s)
  {
  }

  lemma {:induction false} RunInv(h: seq<State>, actions: seq<Action>, i: nat)
    requires Run(h, actions) && i < |h|
    ensures Inv(h[i]) && WorkersOk(h[i])
  {
    if i == 0 {
      StartInv(h[0]);
    } else {
      RunInv(h, actions, i - 1);
      assert ActsAt(h, actions, i - 1);
      ActKeeps(h[i - 1], actions[i - 1], h[i]);
    }
  }

  // ----- Main results over every interleaving -----

  /**
   However loads, commits, failures and stale writes interleave: the counter never exceeds the
   number of successful segments, it reaches the expected number exactly when the job is in
   success, and then every segment has succeeded.
   */
  lemma CounterIsSafe(h: seq<State>, actions: seq<Action>, i: nat)
    requires Run(h, actions) && i < |h|
    ensures var s := h[i];
      && s.job.completedSegments <= |Succeeded(s.segments)| <= s.job.expectedSegments == |s.segments.Keys|
      && (s.job.status == Success <==> s.job.completedSegments >= s.job.expectedSegments)
      && (s.job.status == Success ==> forall g :: g in s.segments ==> s.segments[g] == Success)
  {
    RunInv(h, actions, i);
    SucceededFits(h[i]);
  }

  /**
   Unique finalizer: extraction is announced once if the job is in success and not at all
   otherwise, and the announcement lists every frame of the video by timestamp, then and at
   every later point.
   */
  lemma UniqueFinalizer(h: seq<State>, actions: seq<Action>, i: nat)
    requires Run(h, actions) && i < |h|
    ensures var s := h[i];
      if s.job.status == Success then |s.extracted| == 1 && SortedListing(s.extracted[0], s.frames)
      else s.extracted == []
  {
    RunInv(h, actions, i);
  }

  ghost predicate NoFailure(actions: seq<Action>, i: nat, j: nat) {
    forall k :: i <= k < j && k < |actions| ==> !actions[k].Fail?
  }

  function Missing(s: State): int {
    |Succeeded(s.segments)| - s.job.completedSegments
  }

  /** Only a failure transaction changes how many successes the counter has missed. */
  lemma MissingChange(s: State, a: Action, s': State)
    requires Inv(s) && WorkersOk(s) && Acts(s, a, s')
    ensures !a.Fail? ==> Missing(s') == Missing(s)
    ensures a.Fail? ==> Missing(s') == |Succeeded(s.segments)| - At(s, a.segment).job.completedSegments
  {
    match a
    case ReadSegment(g) => assert Succeeded(s'.segments) == Succeeded(s.segments);
    case Recover(g, listing) => RecoveryNeverRuns(s, g);
    case Complete(g, listing) =>
      WorkingIsNotDone(s, g);
      OneMoreSucceeds(s, g);
    case Fail(g) =>
      assert WorkerOk(s, g);
      assert Succeeded(s'.segments) == Succeeded(s.segments);
    case _ =>
  }

  lemma {:induction false} MissingIsKept(h: seq<State>, actions: seq<Action>, i: nat, j: nat)
    requires Run(h, actions) && i <= j < |h| && NoFailure(actions, i, j)
    ensures Missing(h[j]) == Missing(h[i])
  {
    if i < j {
      MissingIsKept(h, actions, i, j - 1);
      RunInv(h, actions, j - 1);
      assert ActsAt(h, actions, j - 1);
      MissingChange(h[j - 1], actions[j - 1], h[j]);
    }
  }

  lemma SuccessIsFullCount(s: State)
    requires Inv(s) && Succeeded(s.segments) == s.segments.Keys
    ensures s.job.status == Success <==> Missing(s) == 0
  {
  }

  /** Without a failure the job is in success as soon as every segment is. */
  lemma NoFailureCompletes(h: seq<State>, actions: seq<Action>, j: nat)
    requires Run(h, actions) && j < |h| && NoFailure(actions, 0, j)
    ensures h[j].job.status == Success <==> Succeeded(h[j].segments) == h[j].segments.Keys
  {
    RunInv(h, actions, j);
    MissingIsKept(h, actions, 0, j);
    assert Succeeded(h[0].segments) == {};
    if Succeeded(h[j].segments) == h[j].segments.Keys {
      SuccessIsFullCount(h[j]);
    }
  }

  /** The job copy a working worker commits from. */
  function CopyOf(s: State, g: nat): JobRow {
    match At(s, g)
    case Working(_, j) => j
    case _ => s.job
  }

  lemma MissingAfterFailure(h: seq<State>, actions: seq<Action>, i: nat)
    requires Run(h, actions) && i < |actions| && actions[i].Fail?
    ensures Missing(h[i + 1]) ==
      |Succeeded(h[i].segments)| - CopyOf(h[i], actions[i].segment).completedSegments
  {
    RunInv(h, actions, i);
    assert ActsAt(h, actions, i);
    MissingChange(h[i], actions[i], h[i + 1]);
  }

  /**
   After failures, when every segment has succeeded in the end, the job is in success if and
   only if the last failing worker's copy of the job counted every segment that had succeeded
   when it failed: its stale row overwrites any increment made since it was loaded.
   */
  lemma CompletesIffLastFailureWasCurrent(h: seq<State>, actions: seq<Action>, i: nat, j: nat)
    requires Run(h, actions) && i < j < |h| && actions[i].Fail? && NoFailure(actions, i + 1, j)
    requires Succeeded(h[j].segments) == h[j].segments.Keys
    ensures h[j].job.status == Success <==>
      CopyOf(h[i], actions[i].segment).completedSegments == |Succeeded(h[i].segments)|
  {
    MissingAfterFailure(h, actions, i);
    MissingIsKept(h, actions, i + 1, j);
    RunInv(h, actions, j);
    SuccessIsFullCount(h[j]);
  }

  // ----- Announcing failed segments again -----

  /** A failed segment has no worker and no announcement, so nobody will take it up again. */
  ghost predicate FailedIsLeft(s: State) {
    forall g :: g in s.segments && s.segments[g] == Failed ==> At(s, g).Idle? && g !in s.queued
  }

  lemma ActLeavesFailed(s: State, a: Action, s': State)
    requires FailedIsLeft(s) && Acts(s, a, s') && !a.Announce?
    ensures FailedIsLeft(s')
    ensures a.Fail? ==> s'.segments[a.segment] == Failed
    ensures forall g :: g in s.segments && s.segments[g] == Failed ==> g in s'.segments && s'.segments[g] == Failed
  {
  }

  predicate NoAnnouncement(actions: seq<Action>) {
    forall i :: 0 <= i < |actions| ==> !actions[i].Announce?
  }

  lemma {:induction false} RunLeavesFailed(h: seq<State>, actions: seq<Action>, i: nat)
    requires Run(h, actions) && NoAnnouncement(actions) && i < |h|
    ensures FailedIsLeft(h[i])
  {
    if i > 0 {
      RunLeavesFailed(h, actions, i - 1);
      assert ActsAt(h, actions, i - 1);
      ActLeavesFailed(h[i - 1], actions[i - 1], h[i]);
    }
  }

  lemma {:induction false} FailedForGood(h: seq<State>, actions: seq<Action>, i: nat, j: nat, g: nat)
    requires Run(h, actions) && NoAnnouncement(actions) && i <= j < |h|
    requires g in h[i].segments && h[i].segments[g] == Failed
    ensures g in h[j].segments && h[j].segments[g] == Failed
  {
    if i < j {
      FailedForGood(h, actions, i, j - 1, g);
      RunLeavesFailed(h, actions, j - 1);
      assert ActsAt(h, actions, j - 1);
      ActLeavesFailed(h[j - 1], actions[j - 1], h[j]);
    }
  }

  /**
   Stale failure rows matter only if a failed segment is announced again: otherwise the job is in
   success exactly when every segment is, whatever failed.
   */
  lemma NoAnnouncementCompletes(h: seq<State>, actions: seq<Action>, j: nat)
    requires Run(h, actions) && NoAnnouncement(actions) && j < |h|
    ensures h[j].job.status == Success <==> Succeeded(h[j].segments) == h[j].segments.Keys
  {
    if k :| 0 <= k < j && actions[k].Fail? {
      var g := actions[k].segment;
      assert ActsAt(h, actions, k);
      RunLeavesFailed(h, actions, k);
      ActLeavesFailed(h[k], actions[k], h[k + 1]);
      FailedForGood(h, actions, k + 1, j, g);
      RunInv(h, actions, j);
      assert g !in Succeeded(h[j].segments);
    } else {
      NoFailureCompletes(h, actions, j);
    }
  }
}
