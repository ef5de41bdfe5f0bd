/**
 The rows of one video and the transactions that change them.  A transaction is one
 committed change of the program; its guard is what the handler has established when it
 commits.  Handlers run as chains of transactions (see the handler modules), and may stop
 after any of them, so what holds after every transaction holds whatever fails.
 */
module Pipeline {
  import opened Domain
  import opened FrameResults
  import V = VideoAggregate

  datatype Db = Db(
    video: VideoRow,
    segmentJob: Option<JobRow>,
    frameJob: Option<JobRow>,
    ocrJob: Option<JobRow>,
    classifyJob: Option<JobRow>,
    segments: map<nat, Status>,
    frames: map<FrameKey, int>,
    ocr: map<FrameKey, OcrResult>,
    classifications: map<FrameKey, Classification>,
    outbox: seq<Event>)

  /** A video whose creation has been saved. */
  ghost predicate Initial(d: Db) {
    && d.video.status == Pending && !d.video.finished
    && d.segmentJob == None && d.frameJob == None && d.ocrJob == None && d.classifyJob == None
    && d.segments == map[] && d.frames == map[] && d.ocr == map[] && d.classifications == map[]
    && (d.outbox == [Created] || exists url :: d.outbox == [Created, IngestRequested(url)])
  }

  // ----- Derived views -----

  predicate Is(j: Option<JobRow>, s: Status) {
    j.Some? && j.value.status == s
  }

  /** The job row a repository returns for a given type, or a new one. */
  function JobOrNew(j: Option<JobRow>): JobRow {
    if j.Some? then j.value else NEW_JOB
  }

  function Succeeded(segments: map<nat, Status>): set<nat> {
    set s | s in segments && segments[s] == Success
  }

  /** Frames that have a row in another table: the rows a listing by frame id returns. */
  function Covered<T>(d: Db, rows: map<FrameKey, T>): set<FrameKey> {
    d.frames.Keys * rows.Keys
  }

  predicate HasFrame(d: Db, s: nat) {
    exists f :: f in d.frames && f.segment == s
  }

  predicate NoDuplicates(s: seq<nat>) {
    forall i, j :: 0 <= i < j < |s| ==> s[i] != s[j]
  }

  function SegmentReadies(order: seq<nat>): seq<Event> {
    seq(|order|, i requires 0 <= i < |order| => SegmentReady(order[i]))
  }

  /** Frames whose OCR row is new or not final: the ones classification is asked for. */
  function NewFrames(ocr: map<FrameKey, OcrResult>, results: seq<OcrResult>): seq<FrameKey> {
    if results == [] then []
    else
      var last := results[|results| - 1];
      NewFrames(ocr, results[..|results| - 1]) +
      if last.frame in ocr && ocr[last.frame].IsFinal() then [] else [last.frame]
  }

  function Upsert(ocr: map<FrameKey, OcrResult>, results: seq<OcrResult>): map<FrameKey, OcrResult> {
    if results == [] then ocr
    else
      var last := results[|results| - 1];
      Upsert(ocr, results[..|results| - 1])[last.frame := last]
  }

  function FinalCount(d: Db): nat {
    |set f | f in Covered(d, d.ocr) && d.ocr[f].IsFinal()|
  }

  /** The counts the completion decision looks at: never frames against rows one by one. */
  predicate AllRowsCounted(d: Db) {
    && |Covered(d, d.ocr)| >= |d.frames.Keys|
    && |Covered(d, d.classifications)| >= |d.frames.Keys|
  }

  // ----- Transactions -----

  /** Applies an aggregate command: the row is saved and what it records goes to the outbox. */
  function Commanded(d: Db, c: V.Command): Db {
    d.(video := V.NextRow(d.video, c), outbox := d.outbox + V.Records(d.video.status, c))
  }

  // Upload

  predicate CanConfirmUpload(d: Db) { d.video.status != Failed }

  function AfterConfirmUpload(d: Db, contentType: string, sizeBytes: int): Db {
    Commanded(d, V.MarkUploaded(contentType, sizeBytes)).(segmentJob := Some(JobOrNew(d.segmentJob)))
  }

  predicate CanExpireUpload(d: Db) { d.video.status == Pending }

  function AfterExpireUpload(d: Db): Db { Commanded(d, V.MarkUploadExpired) }

  // Segmentation

  predicate SegmentationOpen(d: Db) {
    d.segmentJob.Some? && d.segmentJob.value.status != Success && d.video.status != Success
  }

  predicate CanStartSegmentation(d: Db) { SegmentationOpen(d) && d.segmentJob.value.status != Processing }

  function AfterStartSegmentation(d: Db): Db {
    Commanded(d, V.MarkExtracting).(segmentJob := Some(JobOrNew(d.segmentJob).(status := Processing)))
  }

  function AfterFailSegmentation(d: Db): Db {
    Commanded(d, V.MarkExtractionFailed).(segmentJob := Some(JobOrNew(d.segmentJob).(status := Failed)))
  }

  predicate CanCommitSegments(d: Db, order: seq<nat>) {
    && SegmentationOpen(d)
    && !(d.segments != map[] && d.segmentJob.value.expectedSegments > 0)
    && order != [] && NoDuplicates(order)
  }

  function AfterCommitSegments(d: Db, order: seq<nat>): Db {
    var f := JobOrNew(d.frameJob).(expectedSegments := |order|);
    var s := JobOrNew(d.segmentJob).(status := Success, expectedSegments := |order|, completedSegments := 0);
    d.(segmentJob := Some(s),
       segments := d.segments + (map s | s in order :: Pending),
       frameJob := Some(if Is(d.frameJob, Pending) then f.(status := Processing) else f),
       outbox := d.outbox + SegmentReadies(order))
  }

  ghost predicate CanRepublishSegments(d: Db, order: seq<nat>) {
    && d.segmentJob.Some? && order != []
    && forall s :: s in order <==> s in d.segments && (d.segments[s] == Pending || d.segments[s] == Failed)
  }

  function AfterRepublishSegments(d: Db, order: seq<nat>): Db {
    d.(outbox := d.outbox + SegmentReadies(order))
  }

  // Extraction

  predicate ExtractionOpen(d: Db, s: nat) {
    d.frameJob.Some? && d.frameJob.value.status != Success && s in d.segments && d.segments[s] != Success
  }

  predicate CanStartSegment(d: Db, s: nat) { ExtractionOpen(d, s) && d.video.status != Failed }

  function AfterStartSegment(d: Db, s: nat): Db { d.(segments := d.segments[s := Processing]) }

  predicate CanStoreFrame(d: Db, f: FrameKey) { ExtractionOpen(d, f.segment) }

  function AfterStoreFrame(d: Db, f: FrameKey, timestampMs: int): Db { d.(frames := d.frames[f := timestampMs]) }

  predicate CanCreateOcrJob(d: Db) { d.frameJob.Some? && d.ocrJob.None? }

  function AfterCreateOcrJob(d: Db): Db { d.(ocrJob := Some(NEW_JOB)) }

  predicate CanRequestOcr(d: Db, f: FrameKey) { f in d.frames && d.ocrJob.Some? }

  function AfterRequestOcr(d: Db, f: FrameKey): Db { d.(outbox := d.outbox + [OcrFrameRequested(f)]) }

  predicate CanCompleteSegment(d: Db, s: nat) { ExtractionOpen(d, s) && HasFrame(d, s) && d.video.status != Failed }

  /** The frame job with one more completed segment, before the completion decision. */
  function Incremented(d: Db): JobRow {
    var j := JobOrNew(d.frameJob);
    j.(completedSegments := j.completedSegments + 1)
  }

  function DoneExtracting(d: Db, j: JobRow): JobRow {
    j.(status := Success, expectedFrames := |d.frames.Keys|)
  }

  function AfterCompleteSegment(d: Db, s: nat): Db {
    var j := Incremented(d);
    var d1 := d.(segments := d.segments[s := Success], ocrJob := Some(JobOrNew(d.ocrJob)));
    if j.SegmentsComplete()
    then Commanded(d1, V.MarkFramesReady(|d.frames.Keys|)).(frameJob := Some(DoneExtracting(d, j)))
    else d1.(frameJob := Some(j))
  }

  predicate CanFailSegment(d: Db, s: nat) { ExtractionOpen(d, s) && d.video.status != Success }

  function AfterFailSegment(d: Db, s: nat): Db {
    Commanded(d, V.MarkExtractionFailed)
      .(segments := d.segments[s := Failed], frameJob := Some(JobOrNew(d.frameJob).(status := Failed)))
  }

  predicate CanFinalizeExtraction(d: Db) {
    && d.frameJob.Some? && d.frameJob.value.status != Success && d.frameJob.value.SegmentsComplete()
    && d.video.status != Failed
  }

  function AfterFinalizeExtraction(d: Db): Db {
    Commanded(d, V.MarkFramesReady(|d.frames.Keys|))
      .(frameJob := Some(DoneExtracting(d, JobOrNew(d.frameJob))), ocrJob := Some(JobOrNew(d.ocrJob)))
  }

  // OCR

  predicate OcrOpen(d: Db) {
    d.frameJob.Some? && d.ocrJob.Some? && d.ocrJob.value.status != Success && d.video.status != Success
  }

  predicate CanStartOcr(d: Db) { OcrOpen(d) && d.ocrJob.value.status == Pending }

  function AfterStartOcr(d: Db): Db {
    var expected, completed := |d.frames.Keys|, FinalCount(d);
    Commanded(d, V.MarkOcrProcessing(expected, completed))
      .(ocrJob := Some(
          JobOrNew(d.ocrJob).(status := Processing, expectedFrames := expected, ocrCompleted := completed)))
  }

  /** The database takes a batch of rows only for known frames, and no frame twice. */
  predicate Storable(d: Db, results: seq<OcrResult>) {
    && (forall r :: r in results ==> r.frame in d.frames)
    && (forall i, j :: 0 <= i < j < |results| ==> results[i].frame != results[j].frame)
  }

  predicate CanPersistOcr(d: Db, results: seq<OcrResult>) {
    OcrOpen(d) && d.classifyJob.Some? && Storable(d, results)
  }

  function OcrAdvanced(d: Db, results: seq<OcrResult>): JobRow {
    var j := JobOrNew(d.ocrJob);
    j.(ocrCompleted := j.ocrCompleted + |NewFrames(d.ocr, results)|)
  }

  /** Progress is announced and classification requested for new or not yet final frames only. */
  function PersistEvents(d: Db, results: seq<OcrResult>): seq<Event> {
    var j, asked := OcrAdvanced(d, results), NewFrames(d.ocr, results);
    (if asked == [] then [] else V.Records(d.video.status, V.RecordOcrProgress(j.expectedFrames, j.ocrCompleted)))
    + V.ClassifyRequests(asked)
  }

  function AfterPersistOcr(d: Db, results: seq<OcrResult>): Db {
    d.(ocr := Upsert(d.ocr, results), ocrJob := Some(OcrAdvanced(d, results)),
       outbox := d.outbox + PersistEvents(d, results))
  }

  predicate CanCompleteOcr(d: Db) {
    && OcrOpen(d) && Is(d.frameJob, Success) && d.video.status != Failed
    && |Covered(d, d.ocr)| >= |d.frames.Keys| && d.frames != map[]
  }

  function AfterCompleteOcr(d: Db): Db {
    var j := JobOrNew(d.ocrJob);
    Commanded(d, V.MarkOcrReady(j.expectedFrames, j.ocrCompleted))
      .(ocrJob := Some(j.(status := Success)), classifyJob := Some(JobOrNew(d.classifyJob)))
  }

  /** An event a failed OCR persist can leave in the buffer for the failure transaction. */
  predicate Leakable(e: Event) {
    e.OcrProcessing? || e.ClassifyFrameRequested?
  }

  predicate CanFailOcr(d: Db, leaked: seq<Event>) { OcrOpen(d) && forall e :: e in leaked ==> Leakable(e) }

  function AfterFailOcr(d: Db, leaked: seq<Event>): Db {
    var j := JobOrNew(d.ocrJob);
    Commanded(d.(outbox := d.outbox + leaked), V.MarkOcrFailed(j.expectedFrames, j.ocrCompleted))
      .(ocrJob := Some(j.(status := Failed)))
  }

  // Classification

  predicate ClassifyOpen(d: Db) {
    d.frameJob.Some? && d.classifyJob.Some? && d.classifyJob.value.status != Success && d.video.status != Success
  }

  predicate ClassifyAsked(d: Db) {
    exists e :: e in d.outbox && (e.ClassifyFrameRequested? || e.FramesOcrCompleted?)
  }

  predicate CanCreateClassifyJob(d: Db) {
    d.frameJob.Some? && d.classifyJob.None? && (d.ocrJob.Some? || ClassifyAsked(d))
  }

  function AfterCreateClassifyJob(d: Db): Db { d.(classifyJob := Some(NEW_JOB)) }

  predicate CanStartClassify(d: Db) { ClassifyOpen(d) && d.classifyJob.value.status != Processing }

  function AfterStartClassify(d: Db): Db {
    Commanded(d, V.MarkClassifying(|d.frames.Keys|))
      .(classifyJob := Some(JobOrNew(d.classifyJob).(status := Processing, expectedFrames := |d.frames.Keys|)))
  }

  predicate CanPersistClassification(d: Db, row: Classification) {
    && ClassifyOpen(d) && row.frame in d.frames
    && !(row.frame in d.classifications && d.classifications[row.frame].IsFinal())
  }

  function AfterPersistClassification(d: Db, row: Classification): Db {
    d.(classifications := d.classifications[row.frame := row])
  }

  predicate CanCompleteClassify(d: Db) {
    && ClassifyOpen(d) && Is(d.frameJob, Success) && d.video.status != Failed
    && (d.frames == map[] || AllRowsCounted(d))
  }

  function AfterCompleteClassify(d: Db): Db {
    var n := |Covered(d, d.classifications)|;
    Commanded(d, V.MarkClassified(n))
      .(classifyJob := Some(JobOrNew(d.classifyJob).(status := Success, expectedFrames := n)))
  }

  function AfterFailClassify(d: Db): Db {
    var j := JobOrNew(d.classifyJob);
    Commanded(d, V.MarkClassifyFailed(j.expectedFrames)).(classifyJob := Some(j.(status := Failed)))
  }

  // ----- Steps and histories -----

  datatype Tx =
    | ConfirmUpload(contentType: string, sizeBytes: int)
    | ExpireUpload
    | StartSegmentation
    | FailSegmentation
    | CommitSegments(order: seq<nat>)
    | RepublishSegments(order: seq<nat>)
    | StartSegment(segment: nat)
    | StoreFrame(frame: FrameKey, timestampMs: int)
    | CreateOcrJob
    | RequestOcr(frame: FrameKey)
    | CompleteSegment(segment: nat)
    | FailSegment(segment: nat)
    | FinalizeExtraction
    | StartOcr
    | PersistOcr(results: seq<OcrResult>)
    | CompleteOcr
    | FailOcr(leaked: seq<Event>)
    | CreateClassifyJob
    | StartClassify
    | PersistClassification(row: Classification)
    | CompleteClassify
    | FailClassify

  /** One committed transaction `tx` takes `d` to `d'`. */
  ghost predicate Does(d: Db, tx: Tx, d': Db) {
    match tx
    case ConfirmUpload(c, n) => CanConfirmUpload(d) && d' == AfterConfirmUpload(d, c, n)
    case ExpireUpload => CanExpireUpload(d) && d' == AfterExpireUpload(d)
    case StartSegmentation => CanStartSegmentation(d) && d' == AfterStartSegmentation(d)
    case FailSegmentation => SegmentationOpen(d) && d' == AfterFailSegmentation(d)
    case CommitSegments(order) => CanCommitSegments(d, order) && d' == AfterCommitSegments(d, order)
    case RepublishSegments(order) => CanRepublishSegments(d, order) && d' == AfterRepublishSegments(d, order)
    case StartSegment(s) => CanStartSegment(d, s) && d' == AfterStartSegment(d, s)
    case StoreFrame(f, ts) => CanStoreFrame(d, f) && d' == AfterStoreFrame(d, f, ts)
    case CreateOcrJob => CanCreateOcrJob(d) && d' == AfterCreateOcrJob(d)
    case RequestOcr(f) => CanRequestOcr(d, f) && d' == AfterRequestOcr(d, f)
    case CompleteSegment(s) => CanCompleteSegment(d, s) && d' == AfterCompleteSegment(d, s)
    case FailSegment(s) => CanFailSegment(d, s) && d' == AfterFailSegment(d, s)
    case FinalizeExtraction => CanFinalizeExtraction(d) && d' == AfterFinalizeExtraction(d)
    case StartOcr => CanStartOcr(d) && d' == AfterStartOcr(d)
    case PersistOcr(results) => CanPersistOcr(d, results) && d' == AfterPersistOcr(d, results)
    case CompleteOcr => CanCompleteOcr(d) && d' == AfterCompleteOcr(d)
    case FailOcr(leaked) => CanFailOcr(d, leaked) && d' == AfterFailOcr(d, leaked)
    case CreateClassifyJob => CanCreateClassifyJob(d) && d' == AfterCreateClassifyJob(d)
    case StartClassify => CanStartClassify(d) && d' == AfterStartClassify(d)
    case PersistClassification(row) => CanPersistClassification(d, row) && d' == AfterPersistClassification(d, row)
    case CompleteClassify => CanCompleteClassify(d) && d' == AfterCompleteClassify(d)
    case FailClassify => ClassifyOpen(d) && d' == AfterFailClassify(d)
  }

  ghost predicate Step(d: Db, d': Db) {
    exists tx :: Does(d, tx, d')
  }

  ghost predicate StepAt(h: seq<Db>, i: nat)
    requires i + 1 < |h|
  {
    Step(h[i], h[i + 1])
  }

  /** A history: the states after each committed transaction, in commit order. */
  ghost predicate History(h: seq<Db>) {
    h != [] && forall i {:trigger StepAt(h, i)} :: 0 <= i < |h| - 1 ==> StepAt(h, i)
  }
}
