/**
 What each handler leaves in the rows when it returns without an error, as a chain of transactions,
 and how it returns when nothing fails around it.  A read or commit that fails ends a handler early,
 with a prefix of its chain; the handler modules prove the program's handlers against these runs, and
 the results on completion are about histories that are put together from whole runs.
 */
module HandlerRuns {
  import opened Domain
  import opened FrameResults
  import opened Pipeline
  import opened Messaging

  function WithOcrJob(d: Db): Db {
    if d.ocrJob.None? then AfterCreateOcrJob(d) else d
  }

  function WithClassifyJob(d: Db): Db {
    if d.classifyJob.None? then AfterCreateClassifyJob(d) else d
  }

  // ----- Segmentation -----

  function SegmentationStarted(d: Db): Db {
    if Is(d.segmentJob, Processing) then d else AfterStartSegmentation(d)
  }

  function Republished(d: Db, order: seq<nat>): Db {
    if order == [] then d else AfterRepublishSegments(d, order)
  }

  /** The segments are known already: what is left of them is announced again. */
  predicate Resumes(d: Db) {
    && d.video.status != Success
    && (Is(d.segmentJob, Success) || (d.segments != map[] && JobOrNew(d.segmentJob).expectedSegments > 0))
  }

  /** `order` are the indices of the segments produced, or republished on a redelivery. */
  function SegmentVideoRun(d: Db, order: seq<nat>): Db {
    if d.video.status == Success then d
    else if Resumes(d) then Republished(d, order)
    else AfterCommitSegments(SegmentationStarted(d), order)
  }

  // ----- Extraction -----

  /** One frame of a segment: stored, then requested from the OCR workers. */
  function FramePersisted(d: Db, f: FrameKey, timestampMs: int): Db {
    AfterRequestOcr(WithOcrJob(AfterStoreFrame(d, f, timestampMs)), f)
  }

  datatype Item = Item(index: nat, timestampMs: int)

  function FramesPersisted(d: Db, s: nat, items: seq<Item>): Db {
    if items == [] then d
    else
      var last := items[|items| - 1];
      FramePersisted(FramesPersisted(d, s, items[..|items| - 1]), FrameKey(s, last.index), last.timestampMs)
  }

  /** `items` are the frames the extractor emits for the segment; timestamps include its offset. */
  function ExtractRun(d: Db, s: nat, items: seq<Item>): Db {
    if Is(d.frameJob, Success) || d.video.status == Failed then d
    else if s in d.segments && d.segments[s] == Success then
      if JobOrNew(d.frameJob).SegmentsComplete() then AfterFinalizeExtraction(d) else d
    else AfterCompleteSegment(FramesPersisted(AfterStartSegment(d, s), s, items), s)
  }

  // ----- OCR -----

  function OcrStarted(d: Db): Db {
    if Is(d.ocrJob, Pending) then AfterStartOcr(d) else d
  }

  function ResultsStored(d: Db, results: seq<OcrResult>): Db {
    if results == [] then d else AfterPersistOcr(WithClassifyJob(d), results)
  }

  /** Extraction is done and every frame of the video has an OCR row. */
  predicate OcrReady(d: Db) {
    Is(d.frameJob, Success) && d.frames != map[] && |Covered(d, d.ocr)| >= |d.frames.Keys|
  }

  function OcrCompleted(d: Db): Db {
    if OcrReady(d) then AfterCompleteOcr(d) else d
  }

  predicate OcrDone(d: Db) {
    Is(d.ocrJob, Success) || d.video.status == Success
  }

  function PersistFrameRun(d: Db, results: seq<OcrResult>): Db {
    var d1 := WithOcrJob(d);
    if OcrDone(d1) then d1 else OcrCompleted(ResultsStored(OcrStarted(d1), results))
  }

  /** How the handler returns when no read or commit fails: what the rows themselves refuse. */
  function ResultsOutcome(d: Db, results: seq<OcrResult>, lastAttempt: bool): Outcome {
    if results != [] && !Storable(d, results) then Failure(lastAttempt)
    else
      var d1 := ResultsStored(OcrStarted(d), results);
      if OcrReady(d1) && d1.video.status == Failed then Retryable else Ok
  }

  function PersistFrameOutcome(d: Db, results: seq<OcrResult>, lastAttempt: bool): Outcome {
    var d1 := WithOcrJob(d);
    if d.frameJob.None? then NonRetryable
    else if OcrDone(d1) then Ok
    else ResultsOutcome(d1, results, lastAttempt)
  }

  // ----- Classification -----

  /** Extraction is done and the counts say that no row is missing. */
  predicate ClassifyReady(d: Db) {
    Is(d.frameJob, Success) && (d.frames == map[] || AllRowsCounted(d))
  }

  function TryFinalizeRun(d: Db): Db {
    if ClassifyReady(d) then AfterCompleteClassify(d) else d
  }

  /** Only a failed video refuses; without frames the error has no class. */
  function TryFinalizeOutcome(d: Db): Outcome {
    if !ClassifyReady(d) || d.video.status != Failed then Ok
    else if d.frames == map[] then Unclassified
    else Retryable
  }

  predicate ClassifyDone(d: Db) {
    Is(d.classifyJob, Success) || d.video.status == Success
  }

  /** The row a frame gets: skipped without text, else from the classifier's answer. */
  function ClassifyRow(d: Db, f: FrameKey, raw: seq<ClassifyItem>): Classification {
    if FateOf(f, d.ocr, {}).Skip? then SkippedRow(f) else RowFor(f, raw)
  }

  function ClassifyStarted(d: Db): Db {
    if Is(d.classifyJob, Processing) then d else AfterStartClassify(d)
  }

  function RowStored(d: Db, f: FrameKey, raw: seq<ClassifyItem>): Db {
    AfterPersistClassification(d, ClassifyRow(d, f, raw))
  }

  function FrameHandled(d: Db, f: FrameKey, raw: seq<ClassifyItem>): Db {
    if f in d.classifications && d.classifications[f].IsFinal() then TryFinalizeRun(d)
    else TryFinalizeRun(RowStored(ClassifyStarted(d), f, raw))
  }

  function FrameOutcome(d: Db, f: FrameKey, answer: Option<seq<ClassifyItem>>, lastAttempt: bool): Outcome {
    if f !in d.frames then NonRetryable
    else if f in d.classifications && d.classifications[f].IsFinal() then TryFinalizeOutcome(d)
    else if FateOf(f, d.ocr, {}).Classify? && answer.None? then Failure(lastAttempt)
    else TryFinalizeOutcome(RowStored(ClassifyStarted(d), f, Raw(answer)))
  }

  /** What the classifier returned, if it was asked and answered. */
  function Raw(answer: Option<seq<ClassifyItem>>): seq<ClassifyItem> {
    if answer.Some? then answer.value else []
  }

  function HandleFrameRun(d: Db, f: FrameKey, raw: seq<ClassifyItem>): Db {
    var d1 := WithClassifyJob(d);
    if ClassifyDone(d1) then d1 else FrameHandled(d1, f, raw)
  }

  function FinalizeRun(d: Db): Db {
    var d1 := WithClassifyJob(d);
    if ClassifyDone(d1) then d1 else TryFinalizeRun(d1)
  }

  /** How the handlers return when no read or commit fails. */
  function HandleFrameOutcome(d: Db, f: FrameKey, answer: Option<seq<ClassifyItem>>, lastAttempt: bool): Outcome {
    var d1 := WithClassifyJob(d);
    if d.frameJob.None? then NonRetryable
    else if ClassifyDone(d1) then Ok
    else FrameOutcome(d1, f, answer, lastAttempt)
  }

  function FinalizeOutcome(d: Db): Outcome {
    var d1 := WithClassifyJob(d);
    if d.frameJob.None? then NonRetryable
    else if ClassifyDone(d1) then Ok
    else TryFinalizeOutcome(d1)
  }
}
