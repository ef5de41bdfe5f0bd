/** What holds after every transaction of every history of one video. */
module PipelineSafety {
  import opened Domain
  import opened FrameResults
  import opened Pipeline
  import V = VideoAggregate

  // ----- Invariant -----

  ghost predicate JobsInv(d: Db) {
    && (d.segmentJob.Some? ==> d.video.status != Pending)
    && (d.frameJob.Some? <==> d.segments != map[])
    && (d.frameJob.Some? <==> Is(d.segmentJob, Success))
    && (d.ocrJob.Some? ==> d.frameJob.Some?)
    && (d.classifyJob.Some? ==> d.ocrJob.Some?)
    && (d.video.status == Success <==> Is(d.classifyJob, Success))
    && (d.video.finished <==> d.video.status == Success)
  }

  ghost predicate SegmentsInv(d: Db) {
    && (d.frameJob.Some? ==>
        && d.frameJob.value.expectedSegments == |d.segments.Keys|
        && d.frameJob.value.completedSegments == |Succeeded(d.segments)|
        && (d.frameJob.value.status == Success <==> Succeeded(d.segments) == d.segments.Keys))
    && (forall s :: s in Succeeded(d.segments) ==> HasFrame(d, s))
    && (forall f :: f in d.frames ==> f.segment in d.segments)
  }

  ghost predicate RowsInv(d: Db) {
    && d.ocr.Keys <= d.frames.Keys
    && d.classifications.Keys <= d.frames.Keys
    && (Is(d.ocrJob, Success) ==> Is(d.frameJob, Success) && d.frames.Keys <= d.ocr.Keys)
    && (d.video.status == Success ==>
        Is(d.frameJob, Success) && d.frames.Keys <= d.ocr.Keys && d.frames.Keys <= d.classifications.Keys)
  }

  predicate Justified(d: Db, e: Event) {
    match e
    case Uploaded => d.segmentJob.Some?
    case SegmentReady(s) => s in d.segments
    case OcrFrameRequested(f) => f in d.frames && d.ocrJob.Some?
    case ClassifyFrameRequested(_) => d.ocrJob.Some?
    case FramesOcrCompleted(_, _) => Is(d.ocrJob, Success)
    case _ => true
  }

  predicate IsExtracted(e: Event) {
    e.FramesExtracted?
  }

  ghost predicate OutboxInv(d: Db) {
    && (forall e :: e in d.outbox ==> Justified(d, e))
    && Count(d.outbox, IsExtracted) == (if Is(d.frameJob, Success) then 1 else 0)
    && Count(d.outbox, V.IsClassified) == (if d.video.status == Success then 1 else 0)
  }

  ghost predicate Inv(d: Db) {
    JobsInv(d) && SegmentsInv(d) && RowsInv(d) && OutboxInv(d)
  }

  // ----- Preservation -----

  /** Nothing an outbox event relies on is ever taken back. */
  predicate Grows(d: Db, d': Db) {
    && (d.segmentJob.Some? ==> d'.segmentJob.Some?)
    && d.segments.Keys <= d'.segments.Keys
    && d.frames.Keys <= d'.frames.Keys
    && (d.ocrJob.Some? ==> d'.ocrJob.Some?)
    && (Is(d.ocrJob, Success) ==> Is(d'.ocrJob, Success))
  }

  function Bit(b: bool): nat { if b then 1 else 0 }

  lemma OutboxKept(d: Db, d': Db, added: seq<Event>)
    requires OutboxInv(d) && Grows(d, d') && d'.outbox == d.outbox + added
    requires forall e :: e in added ==> Justified(d', e)
    requires Bit(Is(d'.frameJob, Success)) == Bit(Is(d.frameJob, Success)) + Count(added, IsExtracted)
    requires Bit(d'.video.status == Success) == Bit(d.video.status == Success) + Count(added, V.IsClassified)
    ensures OutboxInv(d')
  {
    CountConcat(d.outbox, added, IsExtracted);
    CountConcat(d.outbox, added, V.IsClassified);
    forall e | e in d'.outbox
      ensures Justified(d', e)
    {
      if e in d.outbox {
        assert Justified(d, e);
      }
    }
  }

  /** Counting decides inclusion: a subset as large as the whole is the whole. */
  lemma {:induction false} EqualBySize<T>(part: set<T>, whole: set<T>)
    requires part <= whole
    ensures |part| <= |whole|
    ensures |part| == |whole| <==> part == whole
    decreases |whole|
  {
    if part != {} {
      var x :| x in part;
      EqualBySize(part - {x}, whole - {x});
      if part - {x} == whole - {x} {
        assert part == (part - {x}) + {x} == (whole - {x}) + {x} == whole;
      }
    } else if whole != {} {
      assert |whole| > 0;
    }
  }

  /** The completion test compares sizes only; by uniqueness of rows it decides coverage. */
  lemma CountsDecideCoverage<T>(d: Db, rows: map<FrameKey, T>)
    ensures |Covered(d, rows)| >= |d.frames.Keys| <==> d.frames.Keys <= rows.Keys
  {
    EqualBySize(Covered(d, rows), d.frames.Keys);
  }

  lemma ConfirmUploadKeeps(d: Db, contentType: string, sizeBytes: int)
    requires Inv(d) && CanConfirmUpload(d)
    ensures Inv(AfterConfirmUpload(d, contentType, sizeBytes))
  {
    OutboxKept(d, AfterConfirmUpload(d, contentType, sizeBytes),
      V.Records(d.video.status, V.MarkUploaded(contentType, sizeBytes)));
  }

  lemma ExpireUploadKeeps(d: Db)
    requires Inv(d) && CanExpireUpload(d)
    ensures Inv(AfterExpireUpload(d))
  {
  }

  lemma StartSegmentationKeeps(d: Db)
    requires Inv(d) && CanStartSegmentation(d)
    ensures Inv(AfterStartSegmentation(d))
  {
  }

  lemma FailSegmentationKeeps(d: Db)
    requires Inv(d) && SegmentationOpen(d)
    ensures Inv(AfterFailSegmentation(d))
  {
    OutboxKept(d, AfterFailSegmentation(d), V.Records(d.video.status, V.MarkExtractionFailed));
  }

  lemma SegmentReadiesCountNothing(order: seq<nat>)
    ensures Count(SegmentReadies(order), IsExtracted) == 0
    ensures Count(SegmentReadies(order), V.IsClassified) == 0
  {
    CountNone(SegmentReadies(order), IsExtracted);
    CountNone(SegmentReadies(order), V.IsClassified);
  }

  function Elements(order: seq<nat>): set<nat> {
    set s | s in order
  }

  lemma {:induction false} SizeOfOrder(order: seq<nat>)
    requires NoDuplicates(order)
    ensures |Elements(order)| == |order|
  {
    if order != [] {
      var init, last := order[..|order| - 1], order[|order| - 1];
      SizeOfOrder(init);
      assert order == init + [last];
      assert last !in init;
      assert Elements(order) == Elements(init) + {last};
    }
  }

  lemma CommitSegmentsKeeps(d: Db, order: seq<nat>)
    requires Inv(d) && CanCommitSegments(d, order)
    ensures Inv(AfterCommitSegments(d, order))
  {
    var d' := AfterCommitSegments(d, order);
    assert d.segments == map[];
    assert d'.segments.Keys == Elements(order);
    SizeOfOrder(order);
    assert order[0] in d'.segments;
    assert Succeeded(d'.segments) == {};
    SegmentReadiesCountNothing(order);
    OutboxKept(d, d', SegmentReadies(order));
  }

  lemma RepublishSegmentsKeeps(d: Db, order: seq<nat>)
    requires Inv(d) && CanRepublishSegments(d, order)
    ensures Inv(AfterRepublishSegments(d, order))
  {
    SegmentReadiesCountNothing(order);
    OutboxKept(d, AfterRepublishSegments(d, order), SegmentReadies(order));
  }

  lemma StartSegmentKeeps(d: Db, s: nat)
    requires Inv(d) && CanStartSegment(d, s)
    ensures Inv(AfterStartSegment(d, s))
  {
    var d' := AfterStartSegment(d, s);
    assert d'.segments.Keys == d.segments.Keys && Succeeded(d'.segments) == Succeeded(d.segments);
    OutboxKept(d, d', []);
  }

  lemma StoreFrameKeeps(d: Db, f: FrameKey, timestampMs: int)
    requires Inv(d) && CanStoreFrame(d, f)
    ensures Inv(AfterStoreFrame(d, f, timestampMs))
  {
  }

  lemma CreateOcrJobKeeps(d: Db)
    requires Inv(d) && CanCreateOcrJob(d)
    ensures Inv(AfterCreateOcrJob(d))
  {
  }

  lemma RequestOcrKeeps(d: Db, f: FrameKey)
    requires Inv(d) && CanRequestOcr(d, f)
    ensures Inv(AfterRequestOcr(d, f))
  {
  }

  /** The segment tables after a completion: one more success, and the decision is exact. */
  lemma CompletionCounts(d: Db, s: nat)
    requires SegmentsInv(d) && ExtractionOpen(d, s)
    ensures var after := d.segments[s := Success];
      && after.Keys == d.segments.Keys
      && Succeeded(after) == Succeeded(d.segments) + {s}
      && |Succeeded(after)| == |Succeeded(d.segments)| + 1
      && (Incremented(d).SegmentsComplete() <==> Succeeded(after) == after.Keys)
  {
    var after := d.segments[s := Success];
    assert after.Keys == d.segments.Keys;
    assert Succeeded(after) == Succeeded(d.segments) + {s};
    EqualBySize(Succeeded(after), after.Keys);
  }

  lemma CompleteSegmentJobs(d: Db, s: nat)
    requires JobsInv(d) && CanCompleteSegment(d, s)
    ensures JobsInv(AfterCompleteSegment(d, s))
  {
    assert s in AfterCompleteSegment(d, s).segments;
  }

  lemma CompleteSegmentCounts(d: Db, s: nat)
    requires SegmentsInv(d) && CanCompleteSegment(d, s)
    ensures SegmentsInv(AfterCompleteSegment(d, s))
  {
    var d' := AfterCompleteSegment(d, s);
    CompletionCounts(d, s);
    assert forall g :: HasFrame(d', g) == HasFrame(d, g);
  }

  lemma CompleteSegmentOutbox(d: Db, s: nat)
    requires OutboxInv(d) && d.video.status != Success && CanCompleteSegment(d, s)
    ensures OutboxInv(AfterCompleteSegment(d, s))
  {
    var d' := AfterCompleteSegment(d, s);
    if Incremented(d).SegmentsComplete() {
      OutboxKept(d, d', [FramesExtracted(|d.frames.Keys|)]);
    } else {
      OutboxKept(d, d', []);
    }
  }

  lemma CompleteSegmentKeeps(d: Db, s: nat)
    requires Inv(d) && CanCompleteSegment(d, s)
    ensures Inv(AfterCompleteSegment(d, s))
  {
    CompleteSegmentJobs(d, s);
    CompleteSegmentCounts(d, s);
    CompleteSegmentOutbox(d, s);
  }

  lemma FailSegmentKeeps(d: Db, s: nat)
    requires Inv(d) && CanFailSegment(d, s)
    ensures Inv(AfterFailSegment(d, s))
  {
    var d' := AfterFailSegment(d, s);
    assert d'.segments.Keys == d.segments.Keys && Succeeded(d'.segments) == Succeeded(d.segments);
    OutboxKept(d, d', V.Records(d.video.status, V.MarkExtractionFailed));
  }

  /** The recovery branch of extraction never finds work: completion and finalisation commit together. */
  lemma FinalizeExtractionIsDead(d: Db)
    requires Inv(d)
    ensures !CanFinalizeExtraction(d)
  {
    if d.frameJob.Some? {
      EqualBySize(Succeeded(d.segments), d.segments.Keys);
    }
  }

  lemma StartOcrKeeps(d: Db)
    requires Inv(d) && CanStartOcr(d)
    ensures Inv(AfterStartOcr(d))
  {
    OutboxKept(d, AfterStartOcr(d), [OcrProcessing(|d.frames.Keys|, FinalCount(d))]);
  }

  lemma {:induction false} UpsertKeys(ocr: map<FrameKey, OcrResult>, results: seq<OcrResult>)
    ensures Upsert(ocr, results).Keys == ocr.Keys + set r | r in results :: r.frame
  {
    if results != [] {
      UpsertKeys(ocr, results[..|results| - 1]);
      assert results == results[..|results| - 1] + [results[|results| - 1]];
    }
  }

  predicate Names(results: seq<OcrResult>, f: FrameKey) {
    exists i :: 0 <= i < |results| && results[i].frame == f
  }

  lemma NamesGrow(init: seq<OcrResult>, last: OcrResult, f: FrameKey)
    ensures Names(init + [last], f) <==> Names(init, f) || last.frame == f
  {
    var results := init + [last];
    if Names(init, f) {
      var i :| 0 <= i < |init| && init[i].frame == f;
      assert results[i].frame == f;
    }
    if last.frame == f {
      assert results[|init|].frame == f;
    }
  }

  lemma {:induction false} UpsertStores(ocr: map<FrameKey, OcrResult>, results: seq<OcrResult>, f: FrameKey)
    requires forall i, j :: 0 <= i < j < |results| ==> results[i].frame != results[j].frame
    ensures !Names(results, f) ==>
      (f in Upsert(ocr, results) <==> f in ocr) && (f in ocr ==> Upsert(ocr, results)[f] == ocr[f])
    ensures forall i :: 0 <= i < |results| && results[i].frame == f ==>
      f in Upsert(ocr, results) && Upsert(ocr, results)[f] == results[i]
  {
    if results != [] {
      var init, last := results[..|results| - 1], results[|results| - 1];
      assert results == init + [last];
      UpsertStores(ocr, init, f);
      NamesGrow(init, last, f);
    }
  }

  lemma {:induction false} NewFramesAre(ocr: map<FrameKey, OcrResult>, results: seq<OcrResult>, f: FrameKey)
    ensures f in NewFrames(ocr, results) <==> !(f in ocr && ocr[f].IsFinal()) && Names(results, f)
  {
    if results != [] {
      var init, last := results[..|results| - 1], results[|results| - 1];
      assert results == init + [last];
      NewFramesAre(ocr, init, f);
      NamesGrow(init, last, f);
    }
  }

  /**
   Persisting a batch stores each of its rows and no other, and asks for classification of
   exactly the frames that had no final row.
   */
  lemma BatchIsStored(d: Db, results: seq<OcrResult>, f: FrameKey)
    requires Storable(d, results)
    ensures !Names(results, f) ==>
      (f in Upsert(d.ocr, results) <==> f in d.ocr) && (f in d.ocr ==> Upsert(d.ocr, results)[f] == d.ocr[f])
    ensures forall i :: 0 <= i < |results| && results[i].frame == f ==>
      f in Upsert(d.ocr, results) && Upsert(d.ocr, results)[f] == results[i]
    ensures f in NewFrames(d.ocr, results) <==> !(f in d.ocr && d.ocr[f].IsFinal()) && Names(results, f)
  {
    UpsertStores(d.ocr, results, f);
    NewFramesAre(d.ocr, results, f);
  }

  /** Persisting rows announces progress and asks for classification, nothing else. */
  lemma PersistOcrEvents(d: Db, results: seq<OcrResult>)
    ensures forall e :: e in PersistEvents(d, results) ==> Leakable(e)
    ensures Count(PersistEvents(d, results), IsExtracted) == 0
    ensures Count(PersistEvents(d, results), V.IsClassified) == 0
  {
    CountNone(PersistEvents(d, results), IsExtracted);
    CountNone(PersistEvents(d, results), V.IsClassified);
  }

  lemma PersistOcrKeeps(d: Db, results: seq<OcrResult>)
    requires Inv(d) && CanPersistOcr(d, results)
    ensures Inv(AfterPersistOcr(d, results))
  {
    UpsertKeys(d.ocr, results);
    PersistOcrEvents(d, results);
    OutboxKept(d, AfterPersistOcr(d, results), PersistEvents(d, results));
  }

  lemma CompleteOcrKeeps(d: Db)
    requires Inv(d) && CanCompleteOcr(d)
    ensures Inv(AfterCompleteOcr(d))
  {
    CountsDecideCoverage(d, d.ocr);
    OutboxKept(d, AfterCompleteOcr(d),
      [FramesOcrCompleted(d.ocrJob.value.expectedFrames, d.ocrJob.value.ocrCompleted)]);
  }

  lemma FailOcrKeeps(d: Db, leaked: seq<Event>)
    requires Inv(d) && CanFailOcr(d, leaked)
    ensures Inv(AfterFailOcr(d, leaked))
  {
    var j := d.ocrJob.value;
    var added := leaked + V.Records(d.video.status, V.MarkOcrFailed(j.expectedFrames, j.ocrCompleted));
    CountNone(added, IsExtracted);
    CountNone(added, V.IsClassified);
    OutboxKept(d, AfterFailOcr(d, leaked), added);
  }

  lemma CreateClassifyJobKeeps(d: Db)
    requires Inv(d) && CanCreateClassifyJob(d)
    ensures Inv(AfterCreateClassifyJob(d))
  {
  }

  lemma StartClassifyKeeps(d: Db)
    requires Inv(d) && CanStartClassify(d)
    ensures Inv(AfterStartClassify(d))
  {
    OutboxKept(d, AfterStartClassify(d), [Classifying(|d.frames.Keys|)]);
  }

  lemma PersistClassificationKeeps(d: Db, row: Classification)
    requires Inv(d) && CanPersistClassification(d, row)
    ensures Inv(AfterPersistClassification(d, row))
  {
  }

  lemma CompleteClassifyRows(d: Db)
    requires JobsInv(d) && SegmentsInv(d) && RowsInv(d) && CanCompleteClassify(d)
    ensures var d' := AfterCompleteClassify(d); JobsInv(d') && SegmentsInv(d') && RowsInv(d')
  {
    CountsDecideCoverage(d, d.ocr);
    CountsDecideCoverage(d, d.classifications);
  }

  lemma CompleteClassifyKeeps(d: Db)
    requires Inv(d) && CanCompleteClassify(d)
    ensures Inv(AfterCompleteClassify(d))
  {
    CompleteClassifyRows(d);
    OutboxKept(d, AfterCompleteClassify(d), [FramesClassified(|Covered(d, d.classifications)|)]);
  }

  lemma FailClassifyKeeps(d: Db)
    requires Inv(d) && ClassifyOpen(d)
    ensures Inv(AfterFailClassify(d))
  {
    OutboxKept(d, AfterFailClassify(d),
      V.Records(d.video.status, V.MarkClassifyFailed(d.classifyJob.value.expectedFrames)));
  }

  /** The transactions of upload, segmentation and extraction. */
  predicate IsEarly(tx: Tx) {
    || tx.ConfirmUpload? || tx.ExpireUpload? || tx.StartSegmentation? || tx.FailSegmentation? || tx.CommitSegments?
    || tx.RepublishSegments? || tx.StartSegment? || tx.StoreFrame? || tx.CreateOcrJob? || tx.RequestOcr?
    || tx.CompleteSegment? || tx.FailSegment?
  }

  lemma EarlyKeeps(d: Db, tx: Tx, d': Db)
    requires Inv(d) && IsEarly(tx) && Does(d, tx, d')
    ensures Inv(d')
  {
    match tx
    case ConfirmUpload(c, n) => ConfirmUploadKeeps(d, c, n);
    case ExpireUpload => ExpireUploadKeeps(d);
    case StartSegmentation => StartSegmentationKeeps(d);
    case FailSegmentation => FailSegmentationKeeps(d);
    case CommitSegments(order) => CommitSegmentsKeeps(d, order);
    case RepublishSegments(order) => RepublishSegmentsKeeps(d, order);
    case StartSegment(s) => StartSegmentKeeps(d, s);
    case StoreFrame(f, ts) => StoreFrameKeeps(d, f, ts);
    case CreateOcrJob => CreateOcrJobKeeps(d);
    case RequestOcr(f) => RequestOcrKeeps(d, f);
    case CompleteSegment(s) => CompleteSegmentKeeps(d, s);
    case FailSegment(s) => FailSegmentKeeps(d, s);
  }

  lemma LateKeeps(d: Db, tx: Tx, d': Db)
    requires Inv(d) && !IsEarly(tx) && Does(d, tx, d')
    ensures Inv(d')
  {
    match tx
    case FinalizeExtraction => FinalizeExtractionIsDead(d);
    case StartOcr => StartOcrKeeps(d);
    case PersistOcr(results) => PersistOcrKeeps(d, results);
    case CompleteOcr => CompleteOcrKeeps(d);
    case FailOcr(leaked) => FailOcrKeeps(d, leaked);
    case CreateClassifyJob => CreateClassifyJobKeeps(d);
    case StartClassify => StartClassifyKeeps(d);
    case PersistClassification(row) => PersistClassificationKeeps(d, row);
    case CompleteClassify => CompleteClassifyKeeps(d);
    case FailClassify => FailClassifyKeeps(d);
  }

  lemma StepKeeps(d: Db, d': Db)
    requires Inv(d) && Step(d, d')
    ensures Inv(d')
  {
    var tx :| Does(d, tx, d');
    if IsEarly(tx) {
      EarlyKeeps(d, tx, d');
    } else {
      LateKeeps(d, tx, d');
    }
  }

  // ----- Main results over every history -----

  lemma InitialInv(d: Db)
    requires Initial(d)
    ensures Inv(d)
  {
    assert d.outbox[..|d.outbox| - 1] == [] || d.outbox[..|d.outbox| - 1] == [Created];
    CountNone(d.outbox, IsExtracted);
    CountNone(d.outbox, V.IsClassified);
  }

  lemma {:induction false} EveryStateIsSafe(h: seq<Db>, i: nat)
    requires History(h) && Initial(h[0]) && i < |h|
    ensures Inv(h[i])
  {
    if i == 0 {
      InitialInv(h[0]);
    } else {
      EveryStateIsSafe(h, i - 1);
      assert StepAt(h, i - 1);
      StepKeeps(h[i - 1], h[i]);
    }
  }

  /**
   Completion safety.  In every state of every history, whatever stopped or was delivered
   again: the video is in success exactly when its classify job is, and then extraction is
   complete and every frame has an OCR row and a classification row; completion of
   extraction and of classification is announced exactly once.
   */
  lemma {:induction false} CompletionSafety(h: seq<Db>, i: nat)
    requires History(h) && Initial(h[0]) && i < |h|
    ensures var d := h[i];
      && (d.video.status == Success <==> Is(d.classifyJob, Success))
      && (d.video.status == Success ==>
          && Is(d.frameJob, Success)
          && (forall s :: s in d.segments ==> d.segments[s] == Success)
          && d.frames != map[]
          && (forall f :: f in d.frames ==> f in d.ocr && f in d.classifications))
      && Count(d.outbox, IsExtracted) == Bit(Is(d.frameJob, Success))
      && Count(d.outbox, V.IsClassified) == Bit(d.video.status == Success)
  {
    EveryStateIsSafe(h, i);
    var d := h[i];
    if d.video.status == Success {
      assert d.segments != map[];
      var s :| s in d.segments;
      assert s in Succeeded(d.segments) && HasFrame(d, s);
    }
  }

  /** Pipeline precedence: no stage has a job before the stage it feeds on. */
  lemma {:induction false} PipelinePrecedence(h: seq<Db>, i: nat)
    requires History(h) && Initial(h[0]) && i < |h|
    ensures var d := h[i];
      && (d.frameJob.Some? ==> Is(d.segmentJob, Success) && d.segments != map[])
      && (d.ocrJob.Some? ==> d.frameJob.Some?)
      && (d.classifyJob.Some? ==> d.ocrJob.Some?)
      && (Is(d.frameJob, Success) <==> d.frameJob.Some? && forall s :: s in d.segments ==> d.segments[s] == Success)
      && (Is(d.ocrJob, Success) ==> Is(d.frameJob, Success) && forall f :: f in d.frames ==> f in d.ocr)
  {
    EveryStateIsSafe(h, i);
    var d := h[i];
    if d.frameJob.Some? && forall s :: s in d.segments ==> d.segments[s] == Success {
      assert Succeeded(d.segments) == d.segments.Keys;
    }
  }

  /** What one transaction can no longer change. */
  ghost predicate Frozen(d: Db, d': Db) {
    && (d.video.status == Success ==> d'.video.status == Success)
    && (Is(d.frameJob, Success) ==> Is(d'.frameJob, Success) && d'.frames == d.frames && d'.segments == d.segments)
    && (Is(d.ocrJob, Success) ==> Is(d'.ocrJob, Success))
    && (forall f :: f in d.classifications && d.classifications[f].IsFinal() ==>
          f in d'.classifications && d'.classifications[f] == d.classifications[f])
    && d.outbox <= d'.outbox
  }

  lemma EarlyFreezes(d: Db, tx: Tx, d': Db)
    requires JobsInv(d) && IsEarly(tx) && Does(d, tx, d')
    ensures Frozen(d, d')
  {
  }

  lemma LateFreezes(d: Db, tx: Tx, d': Db)
    requires JobsInv(d) && !IsEarly(tx) && Does(d, tx, d')
    ensures Frozen(d, d')
  {
  }

  lemma StepFreezes(d: Db, d': Db)
    requires Inv(d) && Step(d, d')
    ensures Frozen(d, d')
  {
    var tx :| Does(d, tx, d');
    if IsEarly(tx) {
      EarlyFreezes(d, tx, d');
    } else {
      LateFreezes(d, tx, d');
    }
  }

  ghost predicate FrozenAt(h: seq<Db>, i: nat)
    requires i + 1 < |h|
  {
    Frozen(h[i], h[i + 1])
  }

  lemma NextFreezes(h: seq<Db>, i: nat)
    requires History(h) && Initial(h[0]) && i + 1 < |h|
    ensures FrozenAt(h, i)
  {
    EveryStateIsSafe(h, i);
    assert StepAt(h, i);
    StepFreezes(h[i], h[i + 1]);
  }

  lemma {:induction false} FrozenThrough(h: seq<Db>, i: nat, j: nat)
    requires i <= j < |h| && forall k {:trigger FrozenAt(h, k)} :: 0 <= k < |h| - 1 ==> FrozenAt(h, k)
    ensures Frozen(h[i], h[j])
  {
    if i < j {
      FrozenThrough(h, i, j - 1);
      assert FrozenAt(h, j - 1);
    }
  }

  /**
   Once extraction is complete the frame set never changes again, success is absorbing,
   and a final classification row is never overwritten, for the rest of the history.
   */
  lemma {:induction false} CompletionIsStable(h: seq<Db>, i: nat, j: nat)
    requires History(h) && Initial(h[0]) && i <= j < |h|
    ensures Frozen(h[i], h[j])
  {
    forall k | 0 <= k < |h| - 1
      ensures FrozenAt(h, k)
    {
      NextFreezes(h, k);
    }
    FrozenThrough(h, i, j);
  }
}
