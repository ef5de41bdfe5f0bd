/** What each transaction changes, field by field. */
module Effects {
  import opened Domain
  import opened FrameResults
  import opened Pipeline
  import V = VideoAggregate

  predicate IsLive(d: Db) {
    d.video.status == Pending || d.video.status == Processing
  }

  /** The video has moved to `status`, and of the rest of its row nothing has changed. */
  predicate VideoIs(d: Db, d': Db, status: Status) {
    d'.video == VideoRow(status, d.video.finished, d.video.contentType, d.video.sizeBytes, d.video.thumbnailKey)
  }

  /** A job that was not there is new, one that was is as it was. */
  predicate FoundOrNew(j: Option<JobRow>, j': Option<JobRow>) {
    j' == Some(if j.Some? then j.value else JobRow(Pending, 0, 0, 0, 0))
  }

  /** The status has changed, and of the counters nothing. */
  predicate JobIs(j: Option<JobRow>, j': Option<JobRow>, status: Status) {
    && j.Some? && j'.Some?
    && j'.value == JobRow(status, j.value.expectedFrames, j.value.ocrCompleted, j.value.expectedSegments,
                          j.value.completedSegments)
  }

  predicate Announced(d: Db, d': Db, events: seq<Event>) {
    d'.outbox == d.outbox + events
  }

  function If(c: bool, e: Event): seq<Event> {
    if c then [e] else []
  }

  // ----- Segmentation -----

  lemma StartSegmentationDoes(d: Db, d': Db)
    requires Does(d, StartSegmentation, d')
    ensures JobIs(d.segmentJob, d'.segmentJob, Processing) && VideoIs(d, d', Processing)
    ensures Announced(d, d', [Extracting])
    ensures d' == d.(video := d'.video, segmentJob := d'.segmentJob, outbox := d'.outbox)
  {
  }

  lemma FailSegmentationDoes(d: Db, d': Db)
    requires Does(d, FailSegmentation, d')
    ensures JobIs(d.segmentJob, d'.segmentJob, Failed) && VideoIs(d, d', Failed)
    ensures Announced(d, d', If(IsLive(d), ExtractionFailed))
    ensures d' == d.(video := d'.video, segmentJob := d'.segmentJob, outbox := d'.outbox)
  {
  }

  /** Every segment is there once, pending; both jobs know their number; the announcements are in order. */
  predicate SegmentsCommitted(d: Db, order: seq<nat>, d': Db) {
    && d'.segmentJob.Some? && d'.segmentJob.value.status == Success
    && d'.segmentJob.value.expectedSegments == |order| && d'.segmentJob.value.completedSegments == 0
    && d'.segments.Keys == d.segments.Keys + (set g | g in order)
    && (forall g :: g in d'.segments ==> d'.segments[g] == if g in order then Pending else d.segments[g])
    && d'.frameJob.Some? && d'.frameJob.value.expectedSegments == |order|
    && d'.frameJob.value.status == (if d.frameJob.None? then Pending
         else if d.frameJob.value.status == Pending then Processing else d.frameJob.value.status)
    && d'.frameJob.value.completedSegments == (if d.frameJob.None? then 0 else d.frameJob.value.completedSegments)
    && Announced(d, d', Readies(order))
    && d' == d.(segments := d'.segments, segmentJob := d'.segmentJob, frameJob := d'.frameJob, outbox := d'.outbox)
  }

  function Readies(order: seq<nat>): seq<Event> {
    seq(|order|, i requires 0 <= i < |order| => SegmentReady(order[i]))
  }

  lemma CommitSegmentsDoes(d: Db, order: seq<nat>, d': Db)
    requires Does(d, CommitSegments(order), d')
    ensures SegmentsCommitted(d, order, d')
  {
  }

  lemma RepublishSegmentsDoes(d: Db, order: seq<nat>, d': Db)
    requires Does(d, RepublishSegments(order), d')
    ensures Announced(d, d', Readies(order)) && d' == d.(outbox := d'.outbox)
  {
  }

  // ----- Extraction -----

  predicate SegmentIs(d: Db, d': Db, g: nat, status: Status) {
    && g in d.segments && d'.segments.Keys == d.segments.Keys
    && forall k :: k in d.segments ==> d'.segments[k] == if k == g then status else d.segments[k]
  }

  lemma StartSegmentDoes(d: Db, g: nat, d': Db)
    requires Does(d, StartSegment(g), d')
    ensures SegmentIs(d, d', g, Processing) && d' == d.(segments := d'.segments)
  {
  }

  lemma StoreFrameDoes(d: Db, f: FrameKey, timestampMs: int, d': Db)
    requires Does(d, StoreFrame(f, timestampMs), d')
    ensures d'.frames.Keys == d.frames.Keys + {f} && d'.frames[f] == timestampMs
    ensures forall k :: k in d.frames && k != f ==> d'.frames[k] == d.frames[k]
    ensures d' == d.(frames := d'.frames)
  {
  }

  lemma RequestOcrDoes(d: Db, f: FrameKey, d': Db)
    requires Does(d, RequestOcr(f), d')
    ensures Announced(d, d', [OcrFrameRequested(f)]) && d' == d.(outbox := d'.outbox)
  {
  }

  /** The counter advances by one; if it has then reached the expected number, so has the extraction its end. */
  predicate SegmentCompleted(d: Db, g: nat, d': Db) {
    && SegmentIs(d, d', g, Success) && FoundOrNew(d.ocrJob, d'.ocrJob) && d.frameJob.Some? && d'.frameJob.Some?
    && (var j, j' := d.frameJob.value, d'.frameJob.value;
        && j'.completedSegments == j.completedSegments + 1 && j'.expectedSegments == j.expectedSegments
        && j'.ocrCompleted == j.ocrCompleted
        && if j.expectedSegments > 0 && j.completedSegments + 1 >= j.expectedSegments then
             && j'.status == Success && j'.expectedFrames == |d.frames.Keys|
             && VideoIs(d, d', if d.video.status == Pending then Processing else d.video.status)
             && Announced(d, d', If(IsLive(d), FramesExtracted(|d.frames.Keys|)))
           else
             && j'.status == j.status && j'.expectedFrames == j.expectedFrames
             && d'.video == d.video && d'.outbox == d.outbox)
    && d' == d.(segments := d'.segments, frameJob := d'.frameJob, ocrJob := d'.ocrJob, video := d'.video,
                outbox := d'.outbox)
  }

  lemma CompleteSegmentDoes(d: Db, g: nat, d': Db)
    requires Does(d, CompleteSegment(g), d')
    ensures SegmentCompleted(d, g, d')
  {
  }

  lemma FailSegmentDoes(d: Db, g: nat, d': Db)
    requires Does(d, FailSegment(g), d')
    ensures SegmentIs(d, d', g, Failed) && JobIs(d.frameJob, d'.frameJob, Failed) && VideoIs(d, d', Failed)
    ensures Announced(d, d', If(IsLive(d), ExtractionFailed))
    ensures d' == d.(segments := d'.segments, frameJob := d'.frameJob, video := d'.video, outbox := d'.outbox)
  {
  }

  lemma FinalizeExtractionDoes(d: Db, d': Db)
    requires Does(d, FinalizeExtraction, d')
    ensures d'.frameJob.Some? && d'.frameJob.value.status == Success
    ensures d'.frameJob.value.expectedFrames == |d.frames.Keys| && FoundOrNew(d.ocrJob, d'.ocrJob)
    ensures VideoIs(d, d', if d.video.status == Pending then Processing else d.video.status)
    ensures Announced(d, d', If(IsLive(d), FramesExtracted(|d.frames.Keys|)))
    ensures d' == d.(frameJob := d'.frameJob, ocrJob := d'.ocrJob, video := d'.video, outbox := d'.outbox)
  {
  }

  // ----- OCR -----

  lemma CreateJobsDo(d: Db, d': Db)
    ensures Does(d, CreateOcrJob, d') ==>
      d.ocrJob.None? && FoundOrNew(d.ocrJob, d'.ocrJob) && d' == d.(ocrJob := d'.ocrJob)
    ensures Does(d, CreateClassifyJob, d') ==>
      d.classifyJob.None? && FoundOrNew(d.classifyJob, d'.classifyJob) && d' == d.(classifyJob := d'.classifyJob)
  {
  }

  /** The frames whose OCR row is final. */
  function Recognised(d: Db): set<FrameKey> {
    set f | f in d.frames && f in d.ocr && (d.ocr[f].status == "success" || d.ocr[f].status == "empty")
  }

  lemma StartOcrDoes(d: Db, d': Db)
    requires Does(d, StartOcr, d')
    ensures d'.ocrJob.Some? && d'.ocrJob.value.status == Processing
    ensures d'.ocrJob.value.expectedFrames == |d.frames.Keys| && d'.ocrJob.value.ocrCompleted == |Recognised(d)|
    ensures VideoIs(d, d', Processing) && Announced(d, d', [OcrProcessing(|d.frames.Keys|, |Recognised(d)|)])
    ensures d' == d.(video := d'.video, ocrJob := d'.ocrJob, outbox := d'.outbox)
  {
    assert Recognised(d) == set f | f in Covered(d, d.ocr) && d.ocr[f].IsFinal();
  }

  function Requests(asked: seq<FrameKey>): seq<Event> {
    seq(|asked|, i requires 0 <= i < |asked| => ClassifyFrameRequested(asked[i]))
  }

  /** The counter advances by the number of frames that are asked for; progress is announced, then each request. */
  lemma PersistOcrDoes(d: Db, results: seq<OcrResult>, d': Db)
    requires Does(d, PersistOcr(results), d')
    ensures d.ocrJob.Some? && d'.ocrJob.Some?
    ensures var asked, j, j' := NewFrames(d.ocr, results), d.ocrJob.value, d'.ocrJob.value;
      && j' == j.(ocrCompleted := j.ocrCompleted + |asked|)
      && Announced(d, d', If(asked != [] && d.video.status == Processing,
                             OcrProcessing(j'.expectedFrames, j'.ocrCompleted)) + Requests(asked))
    ensures d' == d.(ocr := d'.ocr, ocrJob := d'.ocrJob, outbox := d'.outbox)
  {
    var asked := NewFrames(d.ocr, results);
    assert V.ClassifyRequests(asked) == Requests(asked);
  }

  lemma CompleteOcrDoes(d: Db, d': Db)
    requires Does(d, CompleteOcr, d')
    ensures JobIs(d.ocrJob, d'.ocrJob, Success) && FoundOrNew(d.classifyJob, d'.classifyJob)
    ensures VideoIs(d, d', if d.video.status == Pending then Processing else d.video.status)
    ensures Announced(d, d', If(IsLive(d),
      FramesOcrCompleted(d.ocrJob.value.expectedFrames, d.ocrJob.value.ocrCompleted)))
    ensures d' == d.(video := d'.video, ocrJob := d'.ocrJob, classifyJob := d'.classifyJob, outbox := d'.outbox)
  {
  }

  lemma FailOcrDoes(d: Db, leaked: seq<Event>, d': Db)
    requires Does(d, FailOcr(leaked), d')
    ensures JobIs(d.ocrJob, d'.ocrJob, Failed) && VideoIs(d, d', Failed)
    ensures Announced(d, d', leaked + If(IsLive(d),
      OcrFailed(d.ocrJob.value.expectedFrames, d.ocrJob.value.ocrCompleted)))
    ensures d' == d.(video := d'.video, ocrJob := d'.ocrJob, outbox := d'.outbox)
  {
  }

  // ----- Classification -----

  lemma StartClassifyDoes(d: Db, d': Db)
    requires Does(d, StartClassify, d')
    ensures d'.classifyJob.Some? && d'.classifyJob.value.status == Processing
    ensures d'.classifyJob.value.expectedFrames == |d.frames.Keys|
    ensures VideoIs(d, d', Processing) && Announced(d, d', [Classifying(|d.frames.Keys|)])
    ensures d' == d.(video := d'.video, classifyJob := d'.classifyJob, outbox := d'.outbox)
  {
  }

  lemma PersistClassificationDoes(d: Db, row: Classification, d': Db)
    requires Does(d, PersistClassification(row), d')
    ensures d'.classifications.Keys == d.classifications.Keys + {row.frame}
    ensures d'.classifications[row.frame] == row
    ensures forall f :: f in d.classifications && f != row.frame ==> d'.classifications[f] == d.classifications[f]
    ensures d' == d.(classifications := d'.classifications)
  {
  }

  function ClassifiedFrames(d: Db): set<FrameKey> {
    set f | f in d.frames && f in d.classifications
  }

  lemma ClassifiedAreCovered(d: Db)
    ensures ClassifiedFrames(d) == Covered(d, d.classifications)
  {
  }

  /** Video and job succeed together, and the announcement says how many frames were classified. */
  lemma CompleteClassifyDoes(d: Db, d': Db)
    requires Does(d, CompleteClassify, d')
    ensures var n := |ClassifiedFrames(d)|;
      && d'.classifyJob.Some? && d'.classifyJob.value.status == Success && d'.classifyJob.value.expectedFrames == n
      && d'.video == d.video.(status := Success, finished := true)
      && Announced(d, d', [FramesClassified(n)])
    ensures d' == d.(video := d'.video, classifyJob := d'.classifyJob, outbox := d'.outbox)
  {
    ClassifiedAreCovered(d);
  }

  lemma FailClassifyDoes(d: Db, d': Db)
    requires Does(d, FailClassify, d')
    ensures JobIs(d.classifyJob, d'.classifyJob, Failed) && VideoIs(d, d', Failed)
    ensures Announced(d, d', If(IsLive(d), ClassifyFailed(d.classifyJob.value.expectedFrames)))
    ensures d' == d.(video := d'.video, classifyJob := d'.classifyJob, outbox := d'.outbox)
  {
  }
}
