/** A video is split once, so a segment is announced once. */
module SplitOnce {
  import opened Domain
  import opened Pipeline
  import opened FrameResults
  import opened HandlerRuns
  import V = VideoAggregate

  /**
   A copy of the uploaded event: it waits, its handler has been called, has found nothing to resume,
   has found segments to announce again, has returned a retryable error, or the copy is gone.
   */
  datatype Phase = Waiting | Called | Splitting | Resuming | Releasing | Over

  /** The rows, the mark of the event and all copies of it. */
  datatype State = State(db: Db, marked: bool, copies: seq<Phase>)

  /**
   `Arrive` is a delivery of the event or a duplicate of it; `again` says that the copy is delivered
   once more.  `Elsewhere` is a transaction of any other handler.
   */
  datatype Action =
    | Arrive
    | TryMark(copy: nat)
    | MarkError(copy: nat, inserted: bool, again: bool)
    | Load(copy: nat)
    | Start(copy: nat)
    | Fail(copy: nat)
    | Commit(copy: nat, order: seq<nat>, again: bool)
    | Republish(copy: nat, order: seq<nat>, again: bool)
    | GiveUp(copy: nat, again: bool)
    | Retry(copy: nat)
    | Release(copy: nat, released: bool, again: bool)
    | Kill(copy: nat)
    | Elsewhere(tx: Tx)

  predicate IsSplitting(tx: Tx) {
    tx.StartSegmentation? || tx.FailSegmentation? || tx.CommitSegments? || tx.RepublishSegments?
  }

  function Goto(s: State, c: nat, p: Phase): State
    requires c < |s.copies|
  {
    s.(copies := s.copies[c := p])
  }

  function Left(again: bool): Phase {
    if again then Waiting else Over
  }

  /** One transaction of copy `c`, after which it is in phase `p`. */
  ghost predicate Commits(s: State, c: nat, tx: Tx, p: Phase, s': State)
    requires c < |s.copies|
  {
    Does(s.db, tx, s'.db) && s' == Goto(s, c, p).(db := s'.db)
  }

  /**
   A handler loads the rows, and with segments there announces them again; otherwise it splits.
   Committing the segments is the last thing it does: it returns without an error or with one that
   has no class, and keeps its mark.  Only a retryable error before that releases the mark.
   */
  ghost predicate CopyActs(s: State, a: Action, s': State)
    requires !a.Arrive? && !a.Elsewhere? && a.copy < |s.copies|
  {
    var c, p := a.copy, s.copies[a.copy];
    match a
    case TryMark(_) => p.Waiting? && s' == if s.marked then Goto(s, c, Over) else Goto(s, c, Called).(marked := true)
    case MarkError(_, inserted, again) =>
      p.Waiting? && s' == Goto(s, c, Left(again)).(marked := s.marked || inserted)
    case Load(_) => p.Called? && s' == Goto(s, c, if Resumes(s.db) then Resuming else Splitting)
    case Start(_) => p.Splitting? && Commits(s, c, StartSegmentation, Splitting, s')
    case Fail(_) => p.Splitting? && Commits(s, c, FailSegmentation, Splitting, s')
    case Commit(_, order, again) => p.Splitting? && Commits(s, c, CommitSegments(order), Left(again), s')
    case Republish(_, order, again) => p.Resuming? && Commits(s, c, RepublishSegments(order), Left(again), s')
    case GiveUp(_, again) => (p.Called? || p.Splitting? || p.Resuming?) && s' == Goto(s, c, Left(again))
    case Retry(_) => (p.Called? || p.Splitting?) && s' == Goto(s, c, Releasing)
    case Release(_, released, again) =>
      p.Releasing? && s' == Goto(s, c, Left(again)).(marked := s.marked && !released)
    case Kill(_) => !p.Over? && s' == Goto(s, c, Waiting)
  }

  ghost predicate Acts(s: State, a: Action, s': State) {
    match a
    case Arrive => s' == s.(copies := s.copies + [Waiting])
    case Elsewhere(tx) => !IsSplitting(tx) && Does(s.db, tx, s'.db) && s' == s.(db := s'.db)
    case _ => a.copy < |s.copies| && CopyActs(s, a, s')
  }

  ghost predicate ActsAt(h: seq<State>, actions: seq<Action>, i: nat)
    requires i + 1 < |h| && i < |actions|
  {
    Acts(h[i], actions[i], h[i + 1])
  }

  ghost predicate Run(h: seq<State>, actions: seq<Action>) {
    && |h| == |actions| + 1 && Initial(h[0].db) && !h[0].marked && h[0].copies == []
    && forall i {:trigger ActsAt(h, actions, i)} :: 0 <= i < |actions| ==> ActsAt(h, actions, i)
  }

  // ----- At most one copy at work, and none once the segments are there -----

  predicate Active(p: Phase) {
    p.Called? || p.Splitting? || p.Resuming? || p.Releasing?
  }

  predicate IsSplit(d: Db) {
    d.segments != map[] || Is(d.segmentJob, Success)
  }

  ghost predicate Alone(s: State) {
    && (forall i, j :: 0 <= i < j < |s.copies| && Active(s.copies[i]) ==> !Active(s.copies[j]))
    && (forall i :: 0 <= i < |s.copies| && Active(s.copies[i]) ==> s.marked && !IsSplit(s.db))
    && (forall i :: 0 <= i < |s.copies| ==> !s.copies[i].Resuming?)
    && (IsSplit(s.db) ==> s.marked)
  }

  predicate IsEarlyElsewhere(tx: Tx) {
    || tx.ConfirmUpload? || tx.ExpireUpload? || tx.StartSegment? || tx.StoreFrame? || tx.CreateOcrJob?
    || tx.RequestOcr? || tx.CompleteSegment? || tx.FailSegment? || tx.FinalizeExtraction?
  }

  /** No segment is added or announced, and the uploaded event only with the first confirmation. */
  ghost predicate Quiet(d: Db, d': Db) {
    && d'.segments.Keys == d.segments.Keys && (Is(d'.segmentJob, Success) ==> Is(d.segmentJob, Success))
    && d.outbox <= d'.outbox
    && (forall e :: e in d'.outbox[|d.outbox|..] ==> !e.SegmentReady?)
  }

  lemma AddedIsQuiet(d: Db, d': Db, added: seq<Event>)
    requires d'.segments.Keys == d.segments.Keys && (Is(d'.segmentJob, Success) ==> Is(d.segmentJob, Success))
    requires d'.outbox == d.outbox + added && forall e :: e in added ==> !e.SegmentReady?
    ensures Quiet(d, d')
  {
  }

  lemma CommandIsQuiet(d: Db, c: V.Command, d': Db)
    requires d'.segments.Keys == d.segments.Keys && (Is(d'.segmentJob, Success) ==> Is(d.segmentJob, Success))
    requires d'.outbox == d.outbox + V.Records(d.video.status, c) && !c.RecordSegmentReady?
    ensures Quiet(d, d')
  {
    AddedIsQuiet(d, d', V.Records(d.video.status, c));
  }

  lemma CompleteIsQuiet(d: Db, g: nat)
    requires CanCompleteSegment(d, g)
    ensures Quiet(d, AfterCompleteSegment(d, g))
  {
    var d' := AfterCompleteSegment(d, g);
    if Incremented(d).SegmentsComplete() {
      CommandIsQuiet(d, V.MarkFramesReady(|d.frames.Keys|), d');
    } else {
      AddedIsQuiet(d, d', []);
    }
  }

  lemma EarlyIsQuiet(d: Db, tx: Tx, d': Db)
    requires Does(d, tx, d') && IsEarlyElsewhere(tx)
    ensures Quiet(d, d')
  {
    match tx
    case ConfirmUpload(c, n) => CommandIsQuiet(d, V.MarkUploaded(c, n), d');
    case ExpireUpload => CommandIsQuiet(d, V.MarkUploadExpired, d');
    case RequestOcr(f) => AddedIsQuiet(d, d', [OcrFrameRequested(f)]);
    case CompleteSegment(g) => CompleteIsQuiet(d, g);
    case FailSegment(g) => CommandIsQuiet(d, V.MarkExtractionFailed, d');
    case FinalizeExtraction => CommandIsQuiet(d, V.MarkFramesReady(|d.frames.Keys|), d');
    case _ => AddedIsQuiet(d, d', []);
  }

  lemma PersistEventsAreQuiet(d: Db, results: seq<OcrResult>)
    ensures forall e :: e in PersistEvents(d, results) ==> !e.SegmentReady?
  {
  }

  lemma LateIsQuiet(d: Db, tx: Tx, d': Db)
    requires Does(d, tx, d') && !IsSplitting(tx) && !IsEarlyElsewhere(tx)
    ensures Quiet(d, d')
  {
    match tx
    case StartOcr => CommandIsQuiet(d, V.MarkOcrProcessing(|d.frames.Keys|, FinalCount(d)), d');
    case PersistOcr(results) =>
      PersistEventsAreQuiet(d, results);
      AddedIsQuiet(d, d', PersistEvents(d, results));
    case CompleteOcr =>
      CommandIsQuiet(d, V.MarkOcrReady(d.ocrJob.value.expectedFrames, d.ocrJob.value.ocrCompleted), d');
    case FailOcr(leaked) =>
      var failed := V.MarkOcrFailed(d.ocrJob.value.expectedFrames, d.ocrJob.value.ocrCompleted);
      AddedIsQuiet(d, d', leaked + V.Records(d.video.status, failed));
    case StartClassify => CommandIsQuiet(d, V.MarkClassifying(|d.frames.Keys|), d');
    case CompleteClassify => CommandIsQuiet(d, V.MarkClassified(|Covered(d, d.classifications)|), d');
    case FailClassify => CommandIsQuiet(d, V.MarkClassifyFailed(d.classifyJob.value.expectedFrames), d');
    case _ => AddedIsQuiet(d, d', []);
  }

  lemma ElsewhereIsQuiet(d: Db, tx: Tx, d': Db)
    requires Does(d, tx, d') && !IsSplitting(tx)
    ensures Quiet(d, d')
  {
    if IsEarlyElsewhere(tx) {
      EarlyIsQuiet(d, tx, d');
    } else {
      LateIsQuiet(d, tx, d');
    }
  }

  // ----- Announcements -----

  function Announces(g: nat): Event -> bool {
    (e: Event) => e == SegmentReady(g)
  }

  ghost predicate AnnouncedOnce(d: Db) {
    forall g: nat :: Count(d.outbox, Announces(g)) == if g in d.segments then 1 else 0
  }

  lemma QuietKeeps(d: Db, d': Db)
    requires Quiet(d, d') && AnnouncedOnce(d)
    ensures AnnouncedOnce(d')
  {
    var added := d'.outbox[|d.outbox|..];
    assert d'.outbox == d.outbox + added;
    forall g: nat
      ensures Count(d'.outbox, Announces(g)) == if g in d'.segments then 1 else 0
    {
      CountConcat(d.outbox, added, Announces(g));
      CountNone(added, Announces(g));
    }
  }

  lemma {:induction false} ReadiesCount(order: seq<nat>, g: nat)
    requires NoDuplicates(order)
    ensures Count(SegmentReadies(order), Announces(g)) == if g in order then 1 else 0
  {
    if order != [] {
      var init, last := order[..|order| - 1], order[|order| - 1];
      ReadiesCount(init, g);
      assert order == init + [last];
      assert SegmentReadies(order)[..|order| - 1] == SegmentReadies(init);
    }
  }

  lemma CommitKeeps(d: Db, order: seq<nat>)
    requires CanCommitSegments(d, order) && AnnouncedOnce(d) && d.segments == map[]
    ensures AnnouncedOnce(AfterCommitSegments(d, order)) && IsSplit(AfterCommitSegments(d, order))
  {
    var d' := AfterCommitSegments(d, order);
    forall g: nat
      ensures Count(d'.outbox, Announces(g)) == if g in d'.segments then 1 else 0
    {
      CountConcat(d.outbox, SegmentReadies(order), Announces(g));
      ReadiesCount(order, g);
    }
  }

  lemma StartIsQuiet(d: Db)
    requires CanStartSegmentation(d)
    ensures Quiet(d, AfterStartSegmentation(d))
  {
    CommandIsQuiet(d, V.MarkExtracting, AfterStartSegmentation(d));
  }

  lemma FailIsQuiet(d: Db)
    requires SegmentationOpen(d)
    ensures Quiet(d, AfterFailSegmentation(d))
  {
    CommandIsQuiet(d, V.MarkExtractionFailed, AfterFailSegmentation(d));
  }

  // ----- Main results over every run -----

  ghost predicate Inv(s: State) {
    Alone(s) && AnnouncedOnce(s.db)
  }

  lemma QuietStep(s: State, d': Db)
    requires Inv(s) && Quiet(s.db, d')
    ensures Inv(s.(db := d'))
  {
    QuietKeeps(s.db, d');
    assert d'.segments == map[] <==> d'.segments.Keys == {};
  }

  lemma MovingKeeps(s: State, c: nat, p: Phase, marked: bool)
    requires Inv(s) && c < |s.copies| && !p.Resuming?
    requires Active(p) ==> Active(s.copies[c])
    requires marked || (!IsSplit(s.db) && (Active(s.copies[c]) || !s.marked) && !Active(p))
    ensures Inv(Goto(s, c, p).(marked := marked))
  {
  }

  lemma TryMarkKeeps(s: State, c: nat)
    requires Inv(s) && c < |s.copies| && !s.marked
    ensures Inv(Goto(s, c, Called).(marked := true))
  {
  }

  /** The only copy at work commits and leaves. */
  lemma LeavingKeeps(s: State, c: nat, p: Phase, d': Db)
    requires Inv(s) && c < |s.copies| && Active(s.copies[c]) && !Active(p) && AnnouncedOnce(d')
    ensures Inv(Goto(s, c, p).(db := d'))
  {
  }

  lemma WorkerIsFirst(s: State, c: nat)
    requires Inv(s) && c < |s.copies| && Active(s.copies[c])
    ensures s.db.segments == map[] && AnnouncedOnce(s.db)
  {
  }

  lemma CommitStep(s: State, c: nat, order: seq<nat>, p: Phase, d': Db)
    requires Inv(s) && c < |s.copies| && s.copies[c].Splitting? && !Active(p)
    requires CanCommitSegments(s.db, order) && d' == AfterCommitSegments(s.db, order)
    ensures Inv(Goto(s, c, p).(db := d'))
  {
    WorkerIsFirst(s, c);
    CommitKeeps(s.db, order);
    LeavingKeeps(s, c, p, d');
  }

  lemma CopyKeeps(s: State, a: Action, s': State)
    requires Inv(s) && !a.Arrive? && !a.Elsewhere? && a.copy < |s.copies| && CopyActs(s, a, s')
    ensures Inv(s')
  {
    var c := a.copy;
    match a
    case TryMark(_) =>
      if s.marked {
        MovingKeeps(s, c, Over, true);
      } else {
        TryMarkKeeps(s, c);
      }
    case MarkError(_, inserted, again) => MovingKeeps(s, c, Left(again), s.marked || inserted);
    case Load(_) => MovingKeeps(s, c, Splitting, s.marked);
    case Start(_) =>
      StartIsQuiet(s.db);
      QuietStep(s, s'.db);
    case Fail(_) =>
      FailIsQuiet(s.db);
      QuietStep(s, s'.db);
    case Commit(_, order, again) => CommitStep(s, c, order, Left(again), s'.db);
    case GiveUp(_, again) => MovingKeeps(s, c, Left(again), s.marked);
    case Retry(_) => MovingKeeps(s, c, Releasing, s.marked);
    case Release(_, released, again) => MovingKeeps(s, c, Left(again), s.marked && !released);
    case Kill(_) => MovingKeeps(s, c, Waiting, s.marked);
    case _ =>
  }

  lemma ActKeeps(s: State, a: Action, s': State)
    requires Inv(s) && Acts(s, a, s')
    ensures Inv(s')
  {
    match a
    case Arrive =>
    case Elsewhere(tx) =>
      ElsewhereIsQuiet(s.db, tx, s'.db);
      QuietStep(s, s'.db);
    case _ => CopyKeeps(s, a, s');
  }

  lemma InitialInv(s: State)
    requires Initial(s.db) && !s.marked && s.copies == []
    ensures Inv(s)
  {
    forall g: nat
      ensures Count(s.db.outbox, Announces(g)) == 0
    {
      CountNone(s.db.outbox, Announces(g));
    }
  }

  lemma {:induction false} RunInv(h: seq<State>, actions: seq<Action>, i: nat)
    requires Run(h, actions) && i < |h|
    ensures Inv(h[i])
  {
    if i == 0 {
      InitialInv(h[0]);
    } else {
      RunInv(h, actions, i - 1);
      assert ActsAt(h, actions, i - 1);
      ActKeeps(h[i - 1], actions[i - 1], h[i]);
    }
  }

  /**
   However copies of the uploaded event are duplicated, redelivered, killed and retried, and whatever
   the other handlers commit meanwhile: every segment is announced exactly once.
   */
  lemma SegmentsAreAnnouncedOnce(h: seq<State>, actions: seq<Action>, i: nat, g: nat)
    requires Run(h, actions) && i < |h|
    ensures Count(h[i].db.outbox, Announces(g)) == if g in h[i].db.segments then 1 else 0
  {
    RunInv(h, actions, i);
  }

  /** In particular the branch that announces segments again is never taken. */
  lemma RepublishIsDead(h: seq<State>, actions: seq<Action>, i: nat)
    requires Run(h, actions) && i < |actions|
    ensures !actions[i].Republish?
  {
    RunInv(h, actions, i);
    assert ActsAt(h, actions, i);
  }
}
