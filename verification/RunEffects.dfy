/** What whole runs of the handlers come to, in terms of the rows. */
module RunEffects {
  import opened Domain
  import opened FrameResults
  import opened Pipeline
  import opened PipelineSafety
  import opened HandlerRuns
  import opened Effects
  import V = VideoAggregate

  // ----- Segmentation -----

  predicate Started(d: Db, d': Db) {
    if Is(d.segmentJob, Processing) then d' == d
    else
      && JobIs(d.segmentJob, d'.segmentJob, Processing) && VideoIs(d, d', Processing) && Announced(d, d', [Extracting])
      && d' == d.(video := d'.video, segmentJob := d'.segmentJob, outbox := d'.outbox)
  }

  lemma StartIs(d: Db)
    requires SegmentationOpen(d)
    ensures Started(d, SegmentationStarted(d)) && SegmentationOpen(SegmentationStarted(d))
  {
    if !Is(d.segmentJob, Processing) {
      StartSegmentationDoes(d, SegmentationStarted(d));
    }
  }

  lemma SplitIs(d: Db, d1: Db, order: seq<nat>, d': Db)
    requires Started(d, d1) && SegmentsCommitted(d1, order, d')
    ensures IsSplitInto(d, order, d')
  {
  }

  /** Every segment is stored once, pending, and announced, in order, once the video is at work. */
  predicate IsSplitInto(d: Db, order: seq<nat>, d': Db) {
    var starts := !Is(d.segmentJob, Processing);
    && d'.segments.Keys == d.segments.Keys + (set g | g in order)
    && (forall g :: g in order ==> g in d'.segments && d'.segments[g] == Pending)
    && Is(d'.segmentJob, Success) && d'.segmentJob.value.expectedSegments == |order|
    && d'.frameJob.Some? && d'.frameJob.value.expectedSegments == |order|
    && d'.video.status == (if starts then Processing else d.video.status)
    && d'.outbox == d.outbox + If(starts, Extracting) + Readies(order)
    && d'.frames == d.frames && d'.ocr == d.ocr && d'.classifications == d.classifications
  }

  lemma SplitRunDoes(d: Db, order: seq<nat>)
    requires d.segmentJob.Some? && d.video.status != Success && !Resumes(d) && order != [] && NoDuplicates(order)
    ensures IsSplitInto(d, order, SegmentVideoRun(d, order))
  {
    StartIs(d);
    var d1 := SegmentationStarted(d);
    CommitSegmentsDoes(d1, order, AfterCommitSegments(d1, order));
    SplitIs(d, d1, order, AfterCommitSegments(d1, order));
  }

  // ----- Extraction -----

  function Keys(s: nat, items: seq<Item>): set<FrameKey> {
    set i | 0 <= i < |items| :: FrameKey(s, items[i].index)
  }

  function Requests(s: nat, items: seq<Item>): seq<Event> {
    seq(|items|, i requires 0 <= i < |items| => OcrFrameRequested(FrameKey(s, items[i].index)))
  }

  predicate Distinct(items: seq<Item>) {
    forall i, j :: 0 <= i < j < |items| ==> items[i].index != items[j].index
  }

  predicate Timed(frames: map<FrameKey, int>, s: nat, items: seq<Item>) {
    forall i :: 0 <= i < |items| ==>
      FrameKey(s, items[i].index) in frames && frames[FrameKey(s, items[i].index)] == items[i].timestampMs
  }

  /** Every emitted frame is stored with its time and requested, in order; nothing else is. */
  predicate Emitted(d: Db, s: nat, items: seq<Item>, d': Db) {
    && d'.frames.Keys == d.frames.Keys + Keys(s, items)
    && (forall f :: f in d.frames && f.segment != s ==> d'.frames[f] == d.frames[f])
    && (Distinct(items) ==> Timed(d'.frames, s, items))
    && d'.outbox == d.outbox + Requests(s, items)
    && (if items == [] then d'.ocrJob == d.ocrJob else FoundOrNew(d.ocrJob, d'.ocrJob))
    && d' == d.(frames := d'.frames, ocrJob := d'.ocrJob, outbox := d'.outbox)
  }

  predicate OneEmitted(d: Db, f: FrameKey, timestampMs: int, d': Db) {
    && d'.frames == d.frames[f := timestampMs] && FoundOrNew(d.ocrJob, d'.ocrJob)
    && d'.outbox == d.outbox + [OcrFrameRequested(f)]
    && d' == d.(frames := d'.frames, ocrJob := d'.ocrJob, outbox := d'.outbox)
  }

  lemma FramePersistedDoes(d: Db, f: FrameKey, timestampMs: int)
    ensures OneEmitted(d, f, timestampMs, FramePersisted(d, f, timestampMs))
  {
  }

  lemma RequestsGrow(s: nat, init: seq<Item>, last: Item)
    ensures Requests(s, init + [last]) == Requests(s, init) + [OcrFrameRequested(FrameKey(s, last.index))]
    ensures Keys(s, init + [last]) == Keys(s, init) + {FrameKey(s, last.index)}
  {
    var items := init + [last];
    assert items[|init|] == last && forall i :: 0 <= i < |init| ==> items[i] == init[i];
  }

  lemma TimedGrows(frames: map<FrameKey, int>, s: nat, init: seq<Item>, last: Item)
    requires Distinct(init + [last]) && (Distinct(init) ==> Timed(frames, s, init))
    ensures Timed(frames[FrameKey(s, last.index) := last.timestampMs], s, init + [last])
  {
    var items := init + [last];
    assert Distinct(init) by {
      assert forall i :: 0 <= i < |init| ==> items[i] == init[i];
    }
    forall i | 0 <= i < |init|
      ensures items[i].index != last.index && items[i] == init[i]
    {
      assert items[|init|] == last;
    }
  }

  lemma EmittedGrows(d: Db, s: nat, init: seq<Item>, d1: Db, last: Item, d': Db)
    requires Emitted(d, s, init, d1) && OneEmitted(d1, FrameKey(s, last.index), last.timestampMs, d')
    ensures Emitted(d, s, init + [last], d')
  {
    RequestsGrow(s, init, last);
    if Distinct(init + [last]) {
      TimedGrows(d1.frames, s, init, last);
    }
  }

  lemma {:induction false} FramesPersistedDo(d: Db, s: nat, items: seq<Item>)
    ensures Emitted(d, s, items, FramesPersisted(d, s, items))
  {
    if items != [] {
      var init, last := items[..|items| - 1], items[|items| - 1];
      FramesPersistedDo(d, s, init);
      FramePersistedDoes(FramesPersisted(d, s, init), FrameKey(s, last.index), last.timestampMs);
      assert items == init + [last];
      EmittedGrows(d, s, init, FramesPersisted(d, s, init), last, FramesPersisted(d, s, items));
    }
  }

  /** The segment succeeds and counts once, its frames are stored and requested; the last one completes the job. */
  predicate IsExtracted(d: Db, s: nat, items: seq<Item>, d': Db) {
    && d.frameJob.Some? && d'.frameJob.Some? && SegmentIs(d, d', s, Success)
    && d'.frames.Keys == d.frames.Keys + Keys(s, items) && (Distinct(items) ==> Timed(d'.frames, s, items))
    && (var j, j' := d.frameJob.value, d'.frameJob.value;
        var ends := j.expectedSegments > 0 && j.completedSegments + 1 >= j.expectedSegments;
        && j'.completedSegments == j.completedSegments + 1
        && j'.status == (if ends then Success else j.status)
        && (ends ==> j'.expectedFrames == |d'.frames.Keys|)
        && d'.outbox == d.outbox + Requests(s, items) + If(ends && IsLive(d), FramesExtracted(|d'.frames.Keys|)))
    && d'.ocr == d.ocr && d'.classifications == d.classifications && d'.segmentJob == d.segmentJob
  }

  lemma ExtractionIs(d: Db, d1: Db, d2: Db, s: nat, items: seq<Item>, d': Db)
    requires SegmentIs(d, d1, s, Processing) && d1 == d.(segments := d1.segments)
    requires Emitted(d1, s, items, d2) && SegmentCompleted(d2, s, d')
    ensures IsExtracted(d, s, items, d')
  {
  }

  lemma CanComplete(d: Db, d1: Db, d2: Db, s: nat, items: seq<Item>)
    requires CanStartSegment(d, s) && SegmentIs(d, d1, s, Processing) && d1 == d.(segments := d1.segments)
    requires Emitted(d1, s, items, d2) && items != []
    ensures CanCompleteSegment(d2, s)
  {
    var last := FrameKey(s, items[|items| - 1].index);
    assert last in Keys(s, items) && last in d2.frames && last.segment == s;
  }

  lemma ExtractRunDoes(d: Db, s: nat, items: seq<Item>)
    requires CanStartSegment(d, s) && items != []
    ensures IsExtracted(d, s, items, ExtractRun(d, s, items))
  {
    var d1 := AfterStartSegment(d, s);
    var d2 := FramesPersisted(d1, s, items);
    StartSegmentDoes(d, s, d1);
    FramesPersistedDo(d1, s, items);
    CanComplete(d, d1, d2, s, items);
    var d3 := AfterCompleteSegment(d2, s);
    CompleteSegmentDoes(d2, s, d3);
    ExtractionIs(d, d1, d2, s, items, d3);
  }

  /** What is done already is left alone. */
  lemma DoneRunsDoNothing(d: Db, s: nat, items: seq<Item>, order: seq<nat>)
    ensures d.video.status == Success ==> SegmentVideoRun(d, order) == d
    ensures Is(d.frameJob, Success) || d.video.status == Failed ==> ExtractRun(d, s, items) == d
    ensures d.frameJob.Some? && s in d.segments && d.segments[s] == Success && !d.frameJob.value.SegmentsComplete() ==>
      ExtractRun(d, s, items) == d
  {
  }

  /** A done OCR or classify job, or a successful video, ends a run before it has changed anything else. */
  lemma DoneStagesDoNothing(d: Db, results: seq<OcrResult>, f: FrameKey, raw: seq<ClassifyItem>)
    ensures Is(d.ocrJob, Success) || (d.ocrJob.Some? && d.video.status == Success) ==> PersistFrameRun(d, results) == d
    ensures Is(d.classifyJob, Success) || (d.classifyJob.Some? && d.video.status == Success) ==>
      HandleFrameRun(d, f, raw) == d && FinalizeRun(d) == d
  {
  }

  // ----- OCR -----

  /** Extraction is done, and each of its frames, at least one, has an OCR row. */
  predicate AllRecognised(d: Db) {
    Is(d.frameJob, Success) && d.frames != map[] && forall f :: f in d.frames ==> f in d.ocr
  }

  lemma ReadyIs(d: Db)
    ensures OcrReady(d) <==> AllRecognised(d)
  {
    CountsDecideCoverage(d, d.ocr);
  }

  /** The frames named whose row was not final: they are asked for. */
  predicate IsAsked(d: Db, results: seq<OcrResult>, f: FrameKey) {
    Names(results, f) && !(f in d.ocr && (d.ocr[f].status == "success" || d.ocr[f].status == "empty"))
  }

  lemma RequestsFollow(d: Db, results: seq<OcrResult>, f: FrameKey)
    requires d.outbox <= AfterPersistOcr(d, results).outbox
    ensures ClassifyFrameRequested(f) in AfterPersistOcr(d, results).outbox[|d.outbox|..] <==> IsAsked(d, results, f)
  {
    NewFramesAre(d.ocr, results, f);
    var asked := NewFrames(d.ocr, results);
    if IsAsked(d, results, f) {
      var i :| 0 <= i < |asked| && asked[i] == f;
      assert V.ClassifyRequests(asked)[i] == ClassifyFrameRequested(f);
    }
  }

  /** The tables that OCR does not write. */
  predicate SameElse(d: Db, d': Db) {
    d'.frames == d.frames && d'.frameJob == d.frameJob && d'.classifications == d.classifications
  }

  lemma OcrStartIs(d: Db)
    requires OcrOpen(d)
    ensures var d' := OcrStarted(d);
      SameElse(d, d') && d'.ocr == d.ocr && d'.ocrJob.Some? && !Is(d'.ocrJob, Success)
  {
  }

  lemma ResultsAre(d: Db, results: seq<OcrResult>)
    requires d.ocrJob.Some? && !Is(d.ocrJob, Success)
    ensures var d' := ResultsStored(d, results);
      && SameElse(d, d') && d'.ocrJob.Some? && !Is(d'.ocrJob, Success)
      && d'.ocr == if results == [] then d.ocr else Upsert(d.ocr, results)
  {
  }

  lemma CompletingIs(d: Db)
    requires d.ocrJob.Some? && !Is(d.ocrJob, Success)
    ensures var d' := OcrCompleted(d);
      SameElse(d, d') && d'.ocr == d.ocr && (Is(d'.ocrJob, Success) <==> AllRecognised(d))
  {
    ReadyIs(d);
  }

  /** The job is done exactly when no frame lacks a row any more. */
  lemma PersistRunCompletesIff(d: Db, results: seq<OcrResult>)
    requires OcrOpen(d)
    ensures var d' := PersistFrameRun(d, results);
      && d'.ocr == (if results == [] then d.ocr else Upsert(d.ocr, results))
      && d'.frames == d.frames && d'.frameJob == d.frameJob && d'.classifications == d.classifications
      && (Is(d'.ocrJob, Success) <==> AllRecognised(d'))
  {
    var d1 := OcrStarted(d);
    OcrStartIs(d);
    ResultsAre(d1, results);
    CompletingIs(ResultsStored(d1, results));
  }

  // ----- Classification -----

  /** Extraction is done, and each of its frames has both of its rows. */
  predicate AllClassified(d: Db) {
    Is(d.frameJob, Success) && forall f :: f in d.frames ==> f in d.ocr && f in d.classifications
  }

  lemma FinalReadyIs(d: Db)
    ensures ClassifyReady(d) <==> AllClassified(d)
  {
    CountsDecideCoverage(d, d.ocr);
    CountsDecideCoverage(d, d.classifications);
  }

  /** Video and job are completed exactly when no row is missing, and otherwise left alone. */
  lemma FinalizingCompletesIff(d: Db)
    requires ClassifyOpen(d) && d.video.status != Failed
    ensures var d' := TryFinalizeRun(d);
      if AllClassified(d) then
        && d'.video == d.video.(status := Success, finished := true) && Is(d'.classifyJob, Success)
        && d'.outbox == d.outbox + [FramesClassified(|ClassifiedFrames(d)|)]
      else d' == d
  {
    FinalReadyIs(d);
    if AllClassified(d) {
      CompleteClassifyDoes(d, TryFinalizeRun(d));
    }
  }
}
