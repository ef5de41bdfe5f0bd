/** Runs in which no handler fails: do they end in success? */
module Quiescence {
  import opened Domain
  import opened FrameResults
  import opened Pipeline
  import opened PipelineSafety
  import opened HandlerRuns
  import V = VideoAggregate

  datatype Message =
    | SegmentVideo
    | ExtractSegment(segment: nat)
    | OcrFrame(frame: FrameKey)
    | OcrAnswer(row: OcrResult)
    | ClassifyOne(frame: FrameKey)
    | FinalizeClassify

  /** The queue message an outbox event becomes; the other events only feed realtime views. */
  function MessageOf(e: Event): Option<Message> {
    match e
    case Uploaded => Some(SegmentVideo)
    case SegmentReady(s) => Some(ExtractSegment(s))
    case OcrFrameRequested(f) => Some(OcrFrame(f))
    case ClassifyFrameRequested(f) => Some(ClassifyOne(f))
    case FramesOcrCompleted(_, _) => Some(FinalizeClassify)
    case _ => None
  }

  function Inbound(events: seq<Event>): multiset<Message> {
    if events == [] then multiset{}
    else
      var m := MessageOf(events[|events| - 1]);
      Inbound(events[..|events| - 1]) + if m.Some? then multiset{m.value} else multiset{}
  }

  lemma {:induction false} InboundIs(events: seq<Event>)
    ensures forall m :: m in Inbound(events) <==> exists e :: e in events && MessageOf(e) == Some(m)
  {
    if events != [] {
      var init, last := events[..|events| - 1], events[|events| - 1];
      InboundIs(init);
      assert events == init + [last];
    }
  }

  /**
   `late` remembers whether an OCR or classification message was handled after extraction
   had completed.
   */
  datatype Sys = Sys(db: Db, inbox: multiset<Message>, late: bool)

  /**
   The rows evolve by the handler runs, messages are taken from an inbox in any order, the OCR
   workers may answer a request several times and the relay may send it again.  Extraction is split
   into its transactions, so OCR and classification overlap with it as they do in the program.
   */
  datatype Action =
    | Confirm(contentType: string, sizeBytes: int)
    | Expire
    | Split(order: seq<nat>)
    | Begin(segment: nat)
    | Emit(frame: FrameKey, timestampMs: int)
    | Finish(segment: nat)
    | SkipSegment(segment: nat)
    | AnswerOcr(frame: FrameKey, rows: seq<OcrResult>)
    | ResendOcr(frame: FrameKey)
    | PersistAnswer(row: OcrResult)
    | ClassifyAnswer(frame: FrameKey, raw: seq<ClassifyItem>)
    | Finalize

  function Answers(rows: seq<OcrResult>): seq<Message> {
    seq(|rows|, i requires 0 <= i < |rows| => OcrAnswer(rows[i]))
  }

  function Added(d: Db, d': Db): seq<Event> {
    if d.outbox <= d'.outbox then d'.outbox[|d.outbox|..] else []
  }

  /** The rows become `d'`, a message is taken, and what the rows announce is queued. */
  function Moved(s: Sys, taken: multiset<Message>, d': Db, sent: multiset<Message>): Sys {
    Sys(d', s.inbox - taken + sent + Inbound(Added(s.db, d')), s.late)
  }

  /** As `Moved`, for OCR and classification work: late once extraction has completed. */
  function Worked(s: Sys, taken: multiset<Message>, d': Db, sent: multiset<Message>): Sys {
    Moved(s, taken, d', sent).(late := s.late || Is(s.db.frameJob, Success))
  }

  /** Nothing is left to republish. */
  predicate NothingPending(d: Db) {
    forall g :: g in d.segments ==> d.segments[g] != Pending && d.segments[g] != Failed
  }

  ghost predicate CanSplit(d: Db, order: seq<nat>) {
    if !Is(d.segmentJob, Success) then CanCommitSegments(d, order)
    else if order != [] then CanRepublishSegments(d, order)
    else NothingPending(d)
  }

  /** One action takes `s` to `s'`. */
  ghost predicate Acts(s: Sys, a: Action, s': Sys) {
    match a
    case Confirm(c, n) =>
      CanConfirmUpload(s.db) && s' == Moved(s, multiset{}, AfterConfirmUpload(s.db, c, n), multiset{})
    case Expire =>
      CanExpireUpload(s.db) && s' == Moved(s, multiset{}, AfterExpireUpload(s.db), multiset{})
    case Split(order) =>
      && SegmentVideo in s.inbox && CanSplit(s.db, order)
      && s' == Moved(s, multiset{SegmentVideo}, SegmentVideoRun(s.db, order), multiset{})
    case Begin(g) =>
      && ExtractSegment(g) in s.inbox && CanStartSegment(s.db, g)
      && s' == Moved(s, multiset{}, AfterStartSegment(s.db, g), multiset{})
    case Emit(f, ts) =>
      && ExtractSegment(f.segment) in s.inbox && CanStoreFrame(s.db, f) && s.db.segments[f.segment] == Processing
      && s' == Moved(s, multiset{}, FramePersisted(s.db, f, ts), multiset{})
    case Finish(g) =>
      && ExtractSegment(g) in s.inbox && CanCompleteSegment(s.db, g) && s.db.segments[g] == Processing
      && s' == Moved(s, multiset{ExtractSegment(g)}, AfterCompleteSegment(s.db, g), multiset{})
    case SkipSegment(g) =>
      && ExtractSegment(g) in s.inbox && (Is(s.db.frameJob, Success) || g in Succeeded(s.db.segments))
      && s' == Moved(s, multiset{ExtractSegment(g)}, s.db, multiset{})
    case AnswerOcr(f, rows) =>
      && OcrFrame(f) in s.inbox && rows != [] && (forall r :: r in rows ==> r.frame == f)
      && s' == Worked(s, multiset{OcrFrame(f)}, s.db, multiset(Answers(rows)))
    case ResendOcr(f) =>
      OcrFrameRequested(f) in s.db.outbox && s' == Moved(s, multiset{}, s.db, multiset{OcrFrame(f)})
    case PersistAnswer(row) =>
      OcrAnswer(row) in s.inbox && s' == Worked(s, multiset{OcrAnswer(row)}, PersistFrameRun(s.db, [row]), multiset{})
    case ClassifyAnswer(f, raw) =>
      ClassifyOne(f) in s.inbox && s' == Worked(s, multiset{ClassifyOne(f)}, HandleFrameRun(s.db, f, raw), multiset{})
    case Finalize =>
      FinalizeClassify in s.inbox && s' == Moved(s, multiset{FinalizeClassify}, FinalizeRun(s.db), multiset{})
  }

  // ----- Invariant of runs without failures -----

  /** What makes a message worth handling. */
  predicate Backed(d: Db, m: Message) {
    match m
    case SegmentVideo => d.segmentJob.Some?
    case ExtractSegment(g) => g in d.segments
    case OcrFrame(f) => f in d.frames && d.ocrJob.Some?
    case OcrAnswer(row) => row.frame in d.frames && d.ocrJob.Some?
    case ClassifyOne(f) => f in d.frames && d.classifyJob.Some?
    case FinalizeClassify => Is(d.ocrJob, Success) && d.classifyJob.Some?
  }

  predicate AnswerPending(inbox: multiset<Message>, f: FrameKey) {
    exists m :: m in inbox && m.OcrAnswer? && m.row.frame == f
  }

  /** OCR or classification work is still queued. */
  predicate Outstanding(inbox: multiset<Message>) {
    exists m :: m in inbox && (m.OcrFrame? || m.OcrAnswer? || m.ClassifyOne?)
  }

  predicate Busy(inbox: multiset<Message>) {
    Outstanding(inbox) || FinalizeClassify in inbox
  }

  predicate NoneFailed(d: Db) {
    && (d.segmentJob.Some? ==> Is(d.segmentJob, Pending) || Is(d.segmentJob, Success))
    && (d.segmentJob.Some? <==> d.video.status == Processing || d.video.status == Success)
    && !Is(d.frameJob, Failed) && !Is(d.ocrJob, Failed) && !Is(d.classifyJob, Failed)
  }

  predicate AllBacked(d: Db, q: multiset<Message>) {
    forall m :: m in q ==> Backed(d, m)
  }

  /** Every row still missing is promised by a queued message. */
  predicate Promised(d: Db, q: multiset<Message>) {
    && (Is(d.segmentJob, Pending) ==> SegmentVideo in q)
    && (forall g :: g in d.segments && d.segments[g] != Success ==> ExtractSegment(g) in q)
    && (forall f :: f in d.frames ==> f in d.ocr || OcrFrame(f) in q || AnswerPending(q, f))
    && (forall f :: f in d.ocr ==> f in d.classifications || ClassifyOne(f) in q)
  }

  predicate ClassifyPending(q: multiset<Message>) {
    exists m :: m in q && m.ClassifyOne?
  }

  predicate LateInv(d: Db, q: multiset<Message>, late: bool) {
    && (late ==> Is(d.frameJob, Success))
    && (Is(d.ocrJob, Success) || d.video.status == Success ==> late)
    && (late ==> d.video.status == Success || Busy(q))
    && (Is(d.ocrJob, Success) ==> d.video.status == Success || FinalizeClassify in q || ClassifyPending(q))
  }

  ghost predicate Healthy(s: Sys) {
    && Inv(s.db) && NoneFailed(s.db)
    && AllBacked(s.db, s.inbox) && Promised(s.db, s.inbox) && LateInv(s.db, s.inbox, s.late)
  }

  // ----- What each handler run does to the rows -----

  lemma {:induction false} InboundConcat(a: seq<Event>, b: seq<Event>)
    ensures Inbound(a + b) == Inbound(a) + Inbound(b)
  {
    if b == [] {
      assert a + b == a;
    } else {
      assert (a + b)[..|a + b| - 1] == a + b[..|b| - 1];
      InboundConcat(a, b[..|b| - 1]);
    }
  }

  lemma AddedTwice(a: Db, b: Db, c: Db)
    requires a.outbox <= b.outbox <= c.outbox
    ensures Inbound(Added(a, c)) == Inbound(Added(a, b)) + Inbound(Added(b, c))
  {
    assert Added(a, c) == Added(a, b) + Added(b, c);
    InboundConcat(Added(a, b), Added(b, c));
  }

  lemma InboundOfOne(e: Event)
    ensures Inbound([e]) == if MessageOf(e).Some? then multiset{MessageOf(e).value} else multiset{}
  {
  }

  lemma OneAdded(d: Db, d': Db, e: Event)
    requires d'.outbox == d.outbox + [e]
    ensures Added(d, d') == [e]
    ensures Inbound(Added(d, d')) == if MessageOf(e).Some? then multiset{MessageOf(e).value} else multiset{}
  {
    InboundOfOne(e);
  }

  /** A change to the classification side only, that queues nothing. */
  ghost predicate Classifies(d: Db, d': Db) {
    && d' == d.(video := d'.video, classifyJob := d'.classifyJob, classifications := d'.classifications,
                outbox := d'.outbox)
    && d.classifyJob.Some? && d'.classifyJob.Some?
    && d.classifications.Keys <= d'.classifications.Keys
    && (d.video.status == Success ==> d'.video.status == Success)
    && Inv(d') && NoneFailed(d')
    && d.outbox <= d'.outbox && Inbound(Added(d, d')) == multiset{}
  }

  lemma ClassifiesTwice(a: Db, b: Db, c: Db)
    requires Classifies(a, b) && Classifies(b, c)
    ensures Classifies(a, c)
  {
    AddedTwice(a, b, c);
  }

  lemma StartClassifyEffect(d: Db)
    requires Inv(d) && NoneFailed(d) && CanStartClassify(d)
    ensures Classifies(d, AfterStartClassify(d))
  {
    StartClassifyKeeps(d);
    OneAdded(d, AfterStartClassify(d), Classifying(|d.frames.Keys|));
  }

  lemma PersistClassificationEffect(d: Db, row: Classification)
    requires Inv(d) && NoneFailed(d) && CanPersistClassification(d, row)
    ensures Classifies(d, AfterPersistClassification(d, row))
    ensures AfterPersistClassification(d, row).classifications.Keys == d.classifications.Keys + {row.frame}
  {
    PersistClassificationKeeps(d, row);
    assert Added(d, AfterPersistClassification(d, row)) == [];
  }

  predicate AllCovered(d: Db) {
    Is(d.frameJob, Success) && d.frames.Keys <= d.ocr.Keys && d.frames.Keys <= d.classifications.Keys
  }

  lemma CompleteClassifyAdds(d: Db)
    requires CanCompleteClassify(d) && d.video.status == Processing
    ensures var d' := AfterCompleteClassify(d);
      NoneFailed(d) ==> NoneFailed(d') && d.outbox <= d'.outbox && Inbound(Added(d, d')) == multiset{}
  {
    var done := FramesClassified(|Covered(d, d.classifications)|);
    OneAdded(d, AfterCompleteClassify(d), done);
  }

  lemma CompleteClassifyEffect(d: Db)
    requires Inv(d) && NoneFailed(d) && CanCompleteClassify(d)
    ensures Classifies(d, AfterCompleteClassify(d))
    ensures AfterCompleteClassify(d).video.status == Success
  {
    CompleteClassifyKeeps(d);
    CompleteClassifyAdds(d);
  }

  lemma NothingAdded(d: Db)
    requires Inv(d) && NoneFailed(d) && d.classifyJob.Some?
    ensures Classifies(d, d)
  {
  }

  lemma TryFinalizeEffect(d: Db)
    requires Inv(d) && NoneFailed(d) && d.classifyJob.Some? && d.video.status != Success
    ensures Classifies(d, TryFinalizeRun(d))
    ensures AllCovered(d) ==> TryFinalizeRun(d).video.status == Success
    ensures TryFinalizeRun(d).video.status == Success ==> Is(d.frameJob, Success)
    ensures TryFinalizeRun(d).classifications == d.classifications
  {
    CountsDecideCoverage(d, d.ocr);
    CountsDecideCoverage(d, d.classifications);
    if CanCompleteClassify(d) {
      CompleteClassifyEffect(d);
    } else {
      NothingAdded(d);
    }
  }

  /** One classification message: its frame is classified, and completion follows once all rows are there. */
  lemma ClassifyEffect(d: Db, f: FrameKey, raw: seq<ClassifyItem>)
    requires Inv(d) && NoneFailed(d) && f in d.frames && d.classifyJob.Some?
    ensures var d' := HandleFrameRun(d, f, raw);
      && Classifies(d, d')
      && d'.classifications.Keys == d.classifications.Keys + {f}
      && (AllCovered(d') ==> d'.video.status == Success)
      && (d'.video.status == Success ==> Is(d.frameJob, Success))
  {
    if d.video.status == Success {
      NothingAdded(d);
    } else if f in d.classifications && d.classifications[f].IsFinal() {
      TryFinalizeEffect(d);
    } else {
      ClassifyFresh(d, f, raw);
    }
  }

  lemma ClassifyStartedEffect(d: Db)
    requires Inv(d) && NoneFailed(d) && d.frameJob.Some? && d.classifyJob.Some? && d.video.status != Success
    ensures Classifies(d, ClassifyStarted(d)) && ClassifyStarted(d).video.status != Success
    ensures ClassifyStarted(d).classifications == d.classifications
  {
    if Is(d.classifyJob, Processing) {
      NothingAdded(d);
    } else {
      StartClassifyEffect(d);
    }
  }

  lemma RowStoredEffect(d: Db, f: FrameKey, raw: seq<ClassifyItem>)
    requires Inv(d) && NoneFailed(d) && f in d.frames && d.classifyJob.Some? && d.video.status != Success
    requires !(f in d.classifications && d.classifications[f].IsFinal())
    ensures var d' := RowStored(d, f, raw);
      Classifies(d, d') && d'.video == d.video && d'.classifications.Keys == d.classifications.Keys + {f}
  {
    assert ClassifyRow(d, f, raw).frame == f;
    PersistClassificationEffect(d, ClassifyRow(d, f, raw));
  }

  /** What one classification message leaves when its frame has no final row yet. */
  ghost predicate ClassifiesOne(d: Db, f: FrameKey, d': Db) {
    && Classifies(d, d')
    && d'.classifications.Keys == d.classifications.Keys + {f}
    && (AllCovered(d') ==> d'.video.status == Success)
    && (d'.video.status == Success ==> Is(d.frameJob, Success))
  }

  lemma FinalizedAfter(d: Db, f: FrameKey, d3: Db)
    requires Classifies(d, d3) && d3.video.status != Success && d3.classifications.Keys == d.classifications.Keys + {f}
    ensures ClassifiesOne(d, f, TryFinalizeRun(d3))
  {
    TryFinalizeEffect(d3);
    ClassifiesTwice(d, d3, TryFinalizeRun(d3));
  }

  lemma ClassifyFresh(d: Db, f: FrameKey, raw: seq<ClassifyItem>)
    requires Inv(d) && NoneFailed(d) && f in d.frames && d.frameJob.Some? && d.classifyJob.Some?
    requires d.video.status != Success && !(f in d.classifications && d.classifications[f].IsFinal())
    ensures ClassifiesOne(d, f, TryFinalizeRun(RowStored(ClassifyStarted(d), f, raw)))
  {
    var d2 := ClassifyStarted(d);
    ClassifyStartedEffect(d);
    RowStoredEffect(d2, f, raw);
    ClassifiesTwice(d, d2, RowStored(d2, f, raw));
    FinalizedAfter(d, f, RowStored(d2, f, raw));
  }

  lemma FinalizeEffect(d: Db)
    requires Inv(d) && NoneFailed(d) && d.classifyJob.Some?
    ensures var d' := FinalizeRun(d);
      && Classifies(d, d') && d'.classifications == d.classifications
      && (AllCovered(d') ==> d'.video.status == Success)
      && (d'.video.status == Success ==> Is(d.frameJob, Success))
  {
    if d.video.status == Success {
      NothingAdded(d);
    } else {
      TryFinalizeEffect(d);
    }
  }

  /** A change to the OCR side only. */
  ghost predicate Recognizes(d: Db, d': Db) {
    && d'.(video := d.video, ocrJob := d.ocrJob, classifyJob := d.classifyJob, ocr := d.ocr, outbox := d.outbox) == d
    && d.video.status == Processing && d'.video.status == Processing
    && d.ocrJob.Some? && d'.ocrJob.Some?
    && (d.classifyJob.Some? ==> d'.classifyJob.Some?)
    && d.ocr.Keys <= d'.ocr.Keys
    && Inv(d') && NoneFailed(d')
    && d.outbox <= d'.outbox
  }

  lemma StartOcrEffect(d: Db)
    requires Inv(d) && NoneFailed(d) && CanStartOcr(d)
    ensures Recognizes(d, AfterStartOcr(d)) && AfterStartOcr(d).ocr == d.ocr
    ensures Is(AfterStartOcr(d).ocrJob, Processing)
    ensures Inbound(Added(d, AfterStartOcr(d))) == multiset{}
  {
    StartOcrKeeps(d);
    OneAdded(d, AfterStartOcr(d), OcrProcessing(|d.frames.Keys|, FinalCount(d)));
  }

  lemma CreateClassifyJobEffect(d: Db)
    requires Inv(d) && NoneFailed(d) && OcrOpen(d)
    ensures Recognizes(d, WithClassifyJob(d)) && WithClassifyJob(d).(classifyJob := d.classifyJob) == d
    ensures WithClassifyJob(d).classifyJob.Some?
    ensures Inbound(Added(d, WithClassifyJob(d))) == multiset{}
  {
    if d.classifyJob.None? {
      CreateClassifyJobKeeps(d);
    }
    assert Added(d, WithClassifyJob(d)) == [];
  }

  predicate KnownFinal(d: Db, f: FrameKey) {
    f in d.ocr && d.ocr[f].IsFinal()
  }

  lemma OneRow(ocr: map<FrameKey, OcrResult>, row: OcrResult)
    ensures Upsert(ocr, [row]) == ocr[row.frame := row]
    ensures NewFrames(ocr, [row]) == if row.frame in ocr && ocr[row.frame].IsFinal() then [] else [row.frame]
  {
  }

  lemma PersistEventsOfOne(d: Db, row: OcrResult)
    requires d.video.status == Processing
    ensures var j := OcrAdvanced(d, [row]);
      PersistEvents(d, [row]) == if KnownFinal(d, row.frame) then []
        else [OcrProcessing(j.expectedFrames, j.ocrCompleted), ClassifyFrameRequested(row.frame)]
  {
    OneRow(d.ocr, row);
    if !KnownFinal(d, row.frame) {
      assert V.ClassifyRequests([row.frame]) == [ClassifyFrameRequested(row.frame)];
    }
  }

  lemma InboundOfTwo(quiet: Event, e: Event)
    requires MessageOf(quiet).None? && MessageOf(e).Some?
    ensures Inbound([quiet, e]) == multiset{MessageOf(e).value}
  {
    InboundConcat([quiet], [e]);
    assert [quiet] + [e] == [quiet, e];
    InboundOfOne(quiet);
    InboundOfOne(e);
  }

  lemma InboundOfPersist(d: Db, row: OcrResult)
    requires d.video.status == Processing
    ensures Inbound(PersistEvents(d, [row])) ==
      if KnownFinal(d, row.frame) then multiset{} else multiset{ClassifyOne(row.frame)}
  {
    PersistEventsOfOne(d, row);
    if !KnownFinal(d, row.frame) {
      var j := OcrAdvanced(d, [row]);
      InboundOfTwo(OcrProcessing(j.expectedFrames, j.ocrCompleted), ClassifyFrameRequested(row.frame));
    }
  }

  lemma PersistOcrQueues(d: Db, row: OcrResult)
    requires d.ocrJob.Some? && d.video.status == Processing
    ensures var d' := AfterPersistOcr(d, [row]);
      && d'.ocr.Keys == d.ocr.Keys + {row.frame}
      && d.outbox <= d'.outbox
      && Inbound(Added(d, d')) == if KnownFinal(d, row.frame) then multiset{} else multiset{ClassifyOne(row.frame)}
  {
    OneRow(d.ocr, row);
    InboundOfPersist(d, row);
    assert Added(d, AfterPersistOcr(d, [row])) == PersistEvents(d, [row]);
  }

  lemma PersistOcrEffect(d: Db, row: OcrResult)
    requires Inv(d) && NoneFailed(d) && CanPersistOcr(d, [row])
    ensures var d' := AfterPersistOcr(d, [row]);
      Recognizes(d, d') && d'.ocrJob.value.status == d.ocrJob.value.status && d'.classifyJob == d.classifyJob
  {
    PersistOcrKeeps(d, [row]);
    PersistOcrQueues(d, row);
  }

  lemma CompleteOcrQueues(d: Db)
    requires d.ocrJob.Some? && d.video.status == Processing
    ensures var d' := AfterCompleteOcr(d);
      && d'.(video := d.video, ocrJob := d.ocrJob, classifyJob := d.classifyJob, outbox := d.outbox) == d
      && d'.video.status == Processing && Is(d'.ocrJob, Success)
      && d'.classifyJob == Some(JobOrNew(d.classifyJob))
      && d.outbox <= d'.outbox && Inbound(Added(d, d')) == multiset{FinalizeClassify}
  {
  }

  lemma CompleteOcrEffect(d: Db)
    requires Inv(d) && NoneFailed(d) && CanCompleteOcr(d)
    ensures Recognizes(d, AfterCompleteOcr(d))
  {
    CompleteOcrKeeps(d);
    CompleteOcrQueues(d);
  }

  /** The rows right after the answer is stored, before the completion decision. */
  function AnswerStored(d: Db, row: OcrResult): Db {
    var d2 := if Is(d.ocrJob, Pending) then AfterStartOcr(d) else d;
    AfterPersistOcr(WithClassifyJob(d2), [row])
  }

  lemma AnswerStoredEffect(d: Db, row: OcrResult)
    requires Inv(d) && NoneFailed(d) && OcrOpen(d) && row.frame in d.frames
    ensures var d' := AnswerStored(d, row);
      && Recognizes(d, d') && d'.ocr.Keys == d.ocr.Keys + {row.frame}
      && d'.classifyJob.Some? && !Is(d'.ocrJob, Success)
      && Inbound(Added(d, d')) == if KnownFinal(d, row.frame) then multiset{} else multiset{ClassifyOne(row.frame)}
  {
    var d2 := if Is(d.ocrJob, Pending) then AfterStartOcr(d) else d;
    if d2 == d {
      assert Added(d, d) == [];
    } else {
      StartOcrEffect(d);
    }
    CreateClassifyJobEffect(d2);
    var d3 := WithClassifyJob(d2);
    PersistOcrEffect(d3, row);
    PersistOcrQueues(d3, row);
    AddedTwice(d, d2, d3);
    AddedTwice(d, d3, AnswerStored(d, row));
  }

  lemma PersistFrameRunIs(d: Db, row: OcrResult)
    requires Inv(d) && NoneFailed(d) && OcrOpen(d) && row.frame in d.frames
    ensures var d3 := AnswerStored(d, row);
      && PersistFrameRun(d, [row]) == (if CanCompleteOcr(d3) then AfterCompleteOcr(d3) else d3)
      && (CanCompleteOcr(d3) <==> Is(d.frameJob, Success) && d.frames.Keys <= d3.ocr.Keys)
  {
    AnswerStoredEffect(d, row);
    var d3 := AnswerStored(d, row);
    CountsDecideCoverage(d3, d3.ocr);
    assert row.frame in d3.frames;
  }

  /** What an answer queues: a classification request if the row was new, completion if OCR is. */
  function QueuedByAnswer(d: Db, f: FrameKey, d': Db): multiset<Message> {
    (if KnownFinal(d, f) then multiset{} else multiset{ClassifyOne(f)})
    + (if Is(d'.ocrJob, Success) then multiset{FinalizeClassify} else multiset{})
  }

  ghost predicate StoresAnswer(d: Db, f: FrameKey, d': Db) {
    && d'
      == d.(video := d'.video, ocrJob := d'.ocrJob, classifyJob := d'.classifyJob, ocr := d'.ocr, outbox := d'.outbox)
    && d.video.status == Processing && d'.video.status == Processing
    && f in d.frames && d.ocrJob.Some? && !Is(d.ocrJob, Success) && d'.ocrJob.Some? && d'.classifyJob.Some?
    && d'.ocr.Keys == d.ocr.Keys + {f}
    && (Is(d'.ocrJob, Success) <==> Is(d.frameJob, Success) && d.frames.Keys <= d'.ocr.Keys)
  }

  /**
   One OCR answer: its row is stored, classification is asked for unless the row was
   already final, and OCR completes once extraction is done and every frame has a row.
   */
  lemma PersistEffect(d: Db, row: OcrResult)
    requires Inv(d) && NoneFailed(d) && OcrOpen(d) && row.frame in d.frames
    ensures var d' := PersistFrameRun(d, [row]);
      && StoresAnswer(d, row.frame, d')
      && Inv(d') && NoneFailed(d')
      && Inbound(Added(d, d')) == QueuedByAnswer(d, row.frame, d')
  {
    AnswerStoredEffect(d, row);
    PersistFrameRunIs(d, row);
    var d3 := AnswerStored(d, row);
    if CanCompleteOcr(d3) {
      CompleteOcrEffect(d3);
      CompleteOcrQueues(d3);
      AddedTwice(d, d3, AfterCompleteOcr(d3));
    }
  }

  // ----- Every action keeps the invariant -----

  predicate IsEarlyMessage(m: Message) {
    m.SegmentVideo? || m.ExtractSegment?
  }

  /** Upload and extraction work never disturbs what OCR and classification are waiting for. */
  lemma LateUnaffected(d: Db, q: multiset<Message>, d': Db, q': multiset<Message>, late: bool)
    requires LateInv(d, q, late)
    requires Is(d.frameJob, Success) ==> Is(d'.frameJob, Success)
    requires Is(d'.ocrJob, Success) == Is(d.ocrJob, Success)
    requires (d'.video.status == Success) == (d.video.status == Success)
    requires forall m :: m in q && !IsEarlyMessage(m) ==> m in q'
    ensures LateInv(d', q', late)
  {
  }

  lemma ConfirmShape(d: Db, contentType: string, sizeBytes: int)
    requires NoneFailed(d) && CanConfirmUpload(d)
    ensures var d' := AfterConfirmUpload(d, contentType, sizeBytes);
      && NoneFailed(d')
      && d' == d.(video := d'.video, segmentJob := Some(JobOrNew(d.segmentJob)), outbox := d'.outbox)
      && (d'.video.status == Success <==> d.video.status == Success)
      && d'.video.status != Pending
      && Inbound(Added(d, d')) == if d.video.status == Pending then multiset{SegmentVideo} else multiset{}
  {
  }

  lemma ConfirmQueue(d: Db, q: multiset<Message>, contentType: string, sizeBytes: int)
    requires NoneFailed(d) && CanConfirmUpload(d) && AllBacked(d, q) && Promised(d, q)
    ensures var d' := AfterConfirmUpload(d, contentType, sizeBytes);
      var q' := q + Inbound(Added(d, d'));
      NoneFailed(d') && AllBacked(d', q') && Promised(d', q')
  {
    ConfirmShape(d, contentType, sizeBytes);
  }

  lemma InboundOfSegments(order: seq<nat>)
    ensures forall m :: m in Inbound(SegmentReadies(order)) <==> m.ExtractSegment? && m.segment in order
  {
    InboundIs(SegmentReadies(order));
    forall g | g in order
      ensures ExtractSegment(g) in Inbound(SegmentReadies(order))
    {
      assert SegmentReady(g) in SegmentReadies(order) && MessageOf(SegmentReady(g)) == Some(ExtractSegment(g)) by {
        var i :| 0 <= i < |order| && order[i] == g;
        assert SegmentReadies(order)[i] == SegmentReady(g);
      }
    }
  }

  lemma SkipQueue(d: Db, q: multiset<Message>, g: nat)
    requires SegmentsInv(d) && (Is(d.frameJob, Success) || g in Succeeded(d.segments))
    requires AllBacked(d, q) && Promised(d, q)
    ensures AllBacked(d, q - multiset{ExtractSegment(g)}) && Promised(d, q - multiset{ExtractSegment(g)})
  {
  }

  lemma FirstSplitShape(d: Db, order: seq<nat>)
    requires NoneFailed(d) && Is(d.segmentJob, Pending) && d.frameJob.None? && d.segments == map[] && order != []
    requires d.video.status != Success
    ensures var d' := SegmentVideoRun(d, order);
      && NoneFailed(d') && Is(d'.segmentJob, Success)
      && d'.segments == (map s | s in order :: Pending)
      && d' == d.(video := d'.video, segmentJob := d'.segmentJob,
        frameJob := d'.frameJob, segments := d'.segments, outbox := d'.outbox)
      && d'.video.status == d.video.status
      && !Is(d'.frameJob, Success)
      && Added(d, d') == [Extracting] + SegmentReadies(order)
  {
    var d1 := AfterStartSegmentation(d);
    assert d1.video.status == Processing && d1.frameJob.None? && d1.segments == map[];
    assert d1 == d.(video := d1.video, segmentJob := d1.segmentJob, outbox := d.outbox + [Extracting]);
    var d' := AfterCommitSegments(d1, order);
    assert d'.outbox == d.outbox + ([Extracting] + SegmentReadies(order));
  }

  lemma InboundOfSplit(order: seq<nat>)
    ensures forall m :: m in Inbound([Extracting] + SegmentReadies(order)) <==> m.ExtractSegment? && m.segment in order
  {
    InboundConcat([Extracting], SegmentReadies(order));
    InboundOfOne(Extracting);
    InboundOfSegments(order);
  }

  lemma SplitQueue(d: Db, q: multiset<Message>, d': Db, added: multiset<Message>)
    requires AllBacked(d, q) && Promised(d, q) && Is(d'.segmentJob, Success)
    requires d' == d.(video := d'.video, segmentJob := d'.segmentJob,
      frameJob := d'.frameJob, segments := d'.segments, outbox := d'.outbox)
    requires d.segments.Keys <= d'.segments.Keys
    requires forall m :: m in added ==> m.ExtractSegment? && m.segment in d'.segments
    requires forall g :: g in d'.segments && d'.segments[g] != Success ==>
      ExtractSegment(g) in q || ExtractSegment(g) in added
    ensures AllBacked(d', q - multiset{SegmentVideo} + added) && Promised(d', q - multiset{SegmentVideo} + added)
  {
    var q' := q - multiset{SegmentVideo} + added;
    forall m | m in q'
      ensures Backed(d', m)
    {
      if m in q {
        assert Backed(d, m);
      }
    }
  }

  lemma AgainSplitShape(d: Db, order: seq<nat>)
    requires Is(d.segmentJob, Success) && (order == [] || CanRepublishSegments(d, order))
    ensures var d' := SegmentVideoRun(d, order);
      && d' == d.(outbox := d'.outbox)
      && forall m :: m in Inbound(Added(d, d')) ==> m.ExtractSegment? && m.segment in d.segments
  {
    if d.video.status == Success || order == [] {
      assert Added(d, d) == [];
    } else {
      assert Added(d, AfterRepublishSegments(d, order)) == SegmentReadies(order);
      InboundOfSegments(order);
    }
  }

  lemma EmitShape(d: Db, f: FrameKey, timestampMs: int)
    ensures var d' := FramePersisted(d, f, timestampMs);
      && d' == d.(frames := d.frames[f := timestampMs], ocrJob := Some(JobOrNew(d.ocrJob)), outbox := d'.outbox)
      && Inbound(Added(d, d')) == multiset{OcrFrame(f)}
  {
    OneAdded(d, FramePersisted(d, f, timestampMs), OcrFrameRequested(f));
  }

  lemma EmitQueue(d: Db, q: multiset<Message>, d': Db, f: FrameKey, timestampMs: int)
    requires AllBacked(d, q) && Promised(d, q)
    requires d' == d.(frames := d.frames[f := timestampMs], ocrJob := Some(JobOrNew(d.ocrJob)), outbox := d'.outbox)
    ensures AllBacked(d', q + multiset{OcrFrame(f)}) && Promised(d', q + multiset{OcrFrame(f)})
  {
  }

  lemma FinishShape(d: Db, g: nat)
    requires NoneFailed(d) && CanCompleteSegment(d, g) && d.segmentJob.Some? && d.video.status != Success
    ensures var d' := AfterCompleteSegment(d, g);
      && NoneFailed(d') && d'.video.status == d.video.status
      && d' == d.(video := d'.video, segments := d.segments[g := Success], frameJob := d'.frameJob,
                  ocrJob := Some(JobOrNew(d.ocrJob)), outbox := d'.outbox)
      && Inbound(Added(d, d')) == multiset{}
  {
    var d' := AfterCompleteSegment(d, g);
    if Incremented(d).SegmentsComplete() {
      OneAdded(d, d', FramesExtracted(|d.frames.Keys|));
    } else {
      assert Added(d, d') == [];
    }
  }

  lemma FinishBacked(d: Db, q: multiset<Message>, d': Db, g: nat)
    requires AllBacked(d, q) && g in d.segments
    requires d' == d.(video := d'.video, segments := d.segments[g := Success], frameJob := d'.frameJob,
                      ocrJob := Some(JobOrNew(d.ocrJob)), outbox := d'.outbox)
    ensures AllBacked(d', q - multiset{ExtractSegment(g)})
  {
  }

  lemma FinishQueue(d: Db, q: multiset<Message>, d': Db, g: nat)
    requires AllBacked(d, q) && Promised(d, q) && g in d.segments
    requires d' == d.(video := d'.video, segments := d.segments[g := Success], frameJob := d'.frameJob,
                      ocrJob := Some(JobOrNew(d.ocrJob)), outbox := d'.outbox)
    ensures AllBacked(d', q - multiset{ExtractSegment(g)}) && Promised(d', q - multiset{ExtractSegment(g)})
  {
    FinishBacked(d, q, d', g);
  }

  lemma AnswerBacked(d: Db, q: multiset<Message>, f: FrameKey, rows: seq<OcrResult>)
    requires OcrFrame(f) in q && AllBacked(d, q) && forall r :: r in rows ==> r.frame == f
    ensures AllBacked(d, q - multiset{OcrFrame(f)} + multiset(Answers(rows)))
  {
    assert Backed(d, OcrFrame(f));
    assert forall m :: m in Answers(rows) ==> m.OcrAnswer? && m.row.frame == f;
  }

  /** The answer takes over the request's promise. */
  lemma AnswerPromised(d: Db, q: multiset<Message>, f: FrameKey, rows: seq<OcrResult>)
    requires rows != [] && Promised(d, q) && rows[0].frame == f
    ensures Promised(d, q - multiset{OcrFrame(f)} + multiset(Answers(rows)))
  {
    var q' := q - multiset{OcrFrame(f)} + multiset(Answers(rows));
    assert Answers(rows)[0] == OcrAnswer(rows[0]) && OcrAnswer(rows[0]) in q';
    assert forall m :: m in q && m != OcrFrame(f) ==> m in q';
  }

  lemma AnswerQueue(d: Db, q: multiset<Message>, late: bool, f: FrameKey, rows: seq<OcrResult>)
    requires OcrFrame(f) in q && rows != [] && forall r :: r in rows ==> r.frame == f
    requires AllBacked(d, q) && Promised(d, q) && LateInv(d, q, late)
    ensures var q' := q - multiset{OcrFrame(f)} + multiset(Answers(rows));
      AllBacked(d, q') && Promised(d, q') && LateInv(d, q', late || Is(d.frameJob, Success))
  {
    AnswerBacked(d, q, f, rows);
    AnswerPromised(d, q, f, rows);
    assert Answers(rows)[0] == OcrAnswer(rows[0]);
    assert OcrAnswer(rows[0]) in q - multiset{OcrFrame(f)} + multiset(Answers(rows));
  }

  lemma ResendQueue(d: Db, q: multiset<Message>, f: FrameKey)
    requires AllBacked(d, q) && Promised(d, q) && Backed(d, OcrFrame(f))
    ensures AllBacked(d, q + multiset{OcrFrame(f)}) && Promised(d, q + multiset{OcrFrame(f)})
  {
  }

  lemma PersistPromised(d: Db, q: multiset<Message>, row: OcrResult, d': Db)
    requires StoresAnswer(d, row.frame, d') && AllBacked(d, q) && Promised(d, q)
    ensures Promised(d', q - multiset{OcrAnswer(row)} + QueuedByAnswer(d, row.frame, d'))
  {
    var q' := q - multiset{OcrAnswer(row)} + QueuedByAnswer(d, row.frame, d');
    assert forall m :: m in q && m != OcrAnswer(row) ==> m in q';
    forall f | f in d'.frames && f !in d'.ocr
      ensures OcrFrame(f) in q' || AnswerPending(q', f)
    {
      if OcrFrame(f) !in q {
        var m :| m in q && m.OcrAnswer? && m.row.frame == f;
        assert m in q';
      }
    }
  }

  lemma PersistBacked(d: Db, q: multiset<Message>, row: OcrResult, d': Db)
    requires StoresAnswer(d, row.frame, d') && AllBacked(d, q)
    ensures AllBacked(d', q - multiset{OcrAnswer(row)} + QueuedByAnswer(d, row.frame, d'))
  {
  }

  /** A stored answer leaves completion decided or more work queued. */
  lemma PersistLate(d: Db, q: multiset<Message>, late: bool, row: OcrResult, d': Db)
    requires StoresAnswer(d, row.frame, d') && Promised(d, q) && LateInv(d, q, late)
    ensures LateInv(d', q - multiset{OcrAnswer(row)} + QueuedByAnswer(d, row.frame, d'),
      late || Is(d.frameJob, Success))
  {
    var q' := q - multiset{OcrAnswer(row)} + QueuedByAnswer(d, row.frame, d');
    if Is(d.frameJob, Success) {
      if Is(d'.ocrJob, Success) {
        assert FinalizeClassify in q';
      } else if !KnownFinal(d, row.frame) {
        assert ClassifyOne(row.frame) in q';
      } else {
        var g :| g in d.frames && g !in d'.ocr;
        var m :| m in q && (m == OcrFrame(g) || (m.OcrAnswer? && m.row.frame == g));
        assert m in q';
      }
    }
  }

  /** What a classification message or the finalising message does, in terms of rows. */
  ghost predicate StoresClassification(d: Db, fs: set<FrameKey>, d': Db) {
    && d' == d.(video := d'.video, classifyJob := d'.classifyJob, classifications := d'.classifications,
                outbox := d'.outbox)
    && d.classifyJob.Some? && d'.classifyJob.Some?
    && d'.classifications.Keys == d.classifications.Keys + fs
    && (d.video.status == Success ==> d'.video.status == Success)
    && (AllCovered(d') ==> d'.video.status == Success)
    && (d'.video.status == Success ==> Is(d.frameJob, Success))
  }

  lemma ClassifyBacked(d: Db, q: multiset<Message>, m: Message, fs: set<FrameKey>, d': Db)
    requires StoresClassification(d, fs, d') && AllBacked(d, q)
    ensures AllBacked(d', q - multiset{m})
  {
  }

  lemma ClassifyQueue(d: Db, q: multiset<Message>, f: FrameKey, d': Db)
    requires StoresClassification(d, {f}, d') && AllBacked(d, q) && Promised(d, q)
    ensures AllBacked(d', q - multiset{ClassifyOne(f)}) && Promised(d', q - multiset{ClassifyOne(f)})
  {
    ClassifyBacked(d, q, ClassifyOne(f), {f}, d');
    assert forall m :: m in q && m != ClassifyOne(f) ==> m in q - multiset{ClassifyOne(f)};
  }

  lemma FinalizeQueue(d: Db, q: multiset<Message>, d': Db)
    requires StoresClassification(d, {}, d') && AllBacked(d, q) && Promised(d, q)
    ensures AllBacked(d', q - multiset{FinalizeClassify}) && Promised(d', q - multiset{FinalizeClassify})
  {
    ClassifyBacked(d, q, FinalizeClassify, {}, d');
    assert forall m :: m in q && m != FinalizeClassify ==> m in q - multiset{FinalizeClassify};
  }

  lemma ClassificationLate(d': Db, q': multiset<Message>, late: bool)
    requires Promised(d', q') && RowsInv(d')
    requires AllCovered(d') ==> d'.video.status == Success
    requires (late ==> Is(d'.frameJob, Success)) && (Is(d'.ocrJob, Success) || d'.video.status == Success ==> late)
    ensures LateInv(d', q', late)
  {
  }

  // ----- The actions, put together -----

  lemma ConfirmKeeps(s: Sys, contentType: string, sizeBytes: int)
    requires Healthy(s) && CanConfirmUpload(s.db)
    ensures Healthy(Moved(s, multiset{}, AfterConfirmUpload(s.db, contentType, sizeBytes), multiset{}))
  {
    var d' := AfterConfirmUpload(s.db, contentType, sizeBytes);
    var s' := Moved(s, multiset{}, d', multiset{});
    ConfirmUploadKeeps(s.db, contentType, sizeBytes);
    ConfirmQueue(s.db, s.inbox, contentType, sizeBytes);
    assert s'.inbox == s.inbox + Inbound(Added(s.db, d'));
    LateUnaffected(s.db, s.inbox, d', s'.inbox, s.late);
  }

  lemma ExpireShape(d: Db)
    requires NoneFailed(d) && CanExpireUpload(d)
    ensures var d' := AfterExpireUpload(d);
      && NoneFailed(d') && d' == d.(video := d'.video, outbox := d'.outbox) && d'.video.status == Failed
      && Inbound(Added(d, d')) == multiset{}
  {
    OneAdded(d, AfterExpireUpload(d), UploadExpired);
  }

  lemma ExpireKeeps(s: Sys)
    requires Healthy(s) && CanExpireUpload(s.db)
    ensures Healthy(Moved(s, multiset{}, AfterExpireUpload(s.db), multiset{}))
  {
    var d' := AfterExpireUpload(s.db);
    ExpireUploadKeeps(s.db);
    ExpireShape(s.db);
    assert Moved(s, multiset{}, d', multiset{}) == Sys(d', s.inbox, s.late);
    LateUnaffected(s.db, s.inbox, d', s.inbox, s.late);
  }

  lemma SplitInv(d: Db, order: seq<nat>)
    requires Inv(d) && NoneFailed(d) && d.segmentJob.Some? && CanSplit(d, order)
    ensures Inv(SegmentVideoRun(d, order))
  {
    if Is(d.segmentJob, Success) {
      if d.video.status != Success && order != [] {
        RepublishSegmentsKeeps(d, order);
      }
    } else {
      StartSegmentationKeeps(d);
      CommitSegmentsKeeps(AfterStartSegmentation(d), order);
    }
  }

  lemma FirstSplitQueue(d: Db, q: multiset<Message>, late: bool, order: seq<nat>)
    requires NoneFailed(d) && Is(d.segmentJob, Pending) && d.frameJob.None? && d.segments == map[] && order != []
    requires d.video.status != Success && d.ocrJob.None?
    requires AllBacked(d, q) && Promised(d, q) && LateInv(d, q, late)
    ensures var d' := SegmentVideoRun(d, order);
      var q' := q - multiset{SegmentVideo} + Inbound(Added(d, d'));
      NoneFailed(d') && AllBacked(d', q') && Promised(d', q') && LateInv(d', q', late)
  {
    var d' := SegmentVideoRun(d, order);
    FirstSplitShape(d, order);
    InboundOfSplit(order);
    var added := Inbound(Added(d, d'));
    SplitQueue(d, q, d', added);
    LateUnaffected(d, q, d', q - multiset{SegmentVideo} + added, late);
  }

  lemma FirstSplitKeeps(s: Sys, order: seq<nat>)
    requires Healthy(s) && Is(s.db.segmentJob, Pending) && CanSplit(s.db, order)
    ensures Healthy(Moved(s, multiset{SegmentVideo}, SegmentVideoRun(s.db, order), multiset{}))
  {
    var d, d' := s.db, SegmentVideoRun(s.db, order);
    SplitInv(d, order);
    FirstSplitQueue(d, s.inbox, s.late, order);
    assert Moved(s, multiset{SegmentVideo}, d', multiset{}).inbox ==
      s.inbox - multiset{SegmentVideo} + Inbound(Added(d, d'));
  }

  lemma AgainSplitQueue(d: Db, q: multiset<Message>, late: bool, order: seq<nat>)
    requires Is(d.segmentJob, Success) && (order == [] || CanRepublishSegments(d, order))
    requires NoneFailed(d) && AllBacked(d, q) && Promised(d, q) && LateInv(d, q, late)
    ensures var d' := SegmentVideoRun(d, order);
      var q' := q - multiset{SegmentVideo} + Inbound(Added(d, d'));
      NoneFailed(d') && AllBacked(d', q') && Promised(d', q') && LateInv(d', q', late)
  {
    var d' := SegmentVideoRun(d, order);
    AgainSplitShape(d, order);
    var added := Inbound(Added(d, d'));
    SplitQueue(d, q, d', added);
    LateUnaffected(d, q, d', q - multiset{SegmentVideo} + added, late);
  }

  lemma AgainSplitKeeps(s: Sys, order: seq<nat>)
    requires Healthy(s) && Is(s.db.segmentJob, Success) && CanSplit(s.db, order)
    ensures Healthy(Moved(s, multiset{SegmentVideo}, SegmentVideoRun(s.db, order), multiset{}))
  {
    var d, d' := s.db, SegmentVideoRun(s.db, order);
    SplitInv(d, order);
    AgainSplitQueue(d, s.inbox, s.late, order);
    assert Moved(s, multiset{SegmentVideo}, d', multiset{}).inbox ==
      s.inbox - multiset{SegmentVideo} + Inbound(Added(d, d'));
  }

  lemma BeginKeeps(s: Sys, g: nat)
    requires Healthy(s) && ExtractSegment(g) in s.inbox && CanStartSegment(s.db, g)
    ensures Healthy(Moved(s, multiset{}, AfterStartSegment(s.db, g), multiset{}))
  {
    StartSegmentKeeps(s.db, g);
    assert Moved(s, multiset{}, AfterStartSegment(s.db, g), multiset{}).inbox == s.inbox;
    LateUnaffected(s.db, s.inbox, AfterStartSegment(s.db, g), s.inbox, s.late);
  }

  lemma EmitInv(d: Db, f: FrameKey, timestampMs: int)
    requires Inv(d) && CanStoreFrame(d, f)
    ensures Inv(FramePersisted(d, f, timestampMs))
  {
    var d1 := AfterStoreFrame(d, f, timestampMs);
    StoreFrameKeeps(d, f, timestampMs);
    if d1.ocrJob.None? {
      CreateOcrJobKeeps(d1);
    }
    RequestOcrKeeps(WithOcrJob(d1), f);
  }

  lemma EmitKeeps(s: Sys, f: FrameKey, timestampMs: int)
    requires Healthy(s) && CanStoreFrame(s.db, f)
    ensures Healthy(Moved(s, multiset{}, FramePersisted(s.db, f, timestampMs), multiset{}))
  {
    var d' := FramePersisted(s.db, f, timestampMs);
    var s' := Moved(s, multiset{}, d', multiset{});
    EmitInv(s.db, f, timestampMs);
    EmitShape(s.db, f, timestampMs);
    EmitQueue(s.db, s.inbox, d', f, timestampMs);
    assert s'.inbox == s.inbox + multiset{OcrFrame(f)};
    LateUnaffected(s.db, s.inbox, d', s'.inbox, s.late);
  }

  lemma FinishKeeps(s: Sys, g: nat)
    requires Healthy(s) && CanCompleteSegment(s.db, g)
    ensures Healthy(Moved(s, multiset{ExtractSegment(g)}, AfterCompleteSegment(s.db, g), multiset{}))
  {
    var d' := AfterCompleteSegment(s.db, g);
    var s' := Moved(s, multiset{ExtractSegment(g)}, d', multiset{});
    CompleteSegmentKeeps(s.db, g);
    FinishShape(s.db, g);
    FinishQueue(s.db, s.inbox, d', g);
    assert s'.inbox == s.inbox - multiset{ExtractSegment(g)};
    LateUnaffected(s.db, s.inbox, d', s'.inbox, s.late);
  }

  lemma SkipKeeps(s: Sys, g: nat)
    requires Healthy(s) && (Is(s.db.frameJob, Success) || g in Succeeded(s.db.segments))
    ensures Healthy(Moved(s, multiset{ExtractSegment(g)}, s.db, multiset{}))
  {
    var s' := Moved(s, multiset{ExtractSegment(g)}, s.db, multiset{});
    assert Added(s.db, s.db) == [];
    assert s'.inbox == s.inbox - multiset{ExtractSegment(g)};
    SkipQueue(s.db, s.inbox, g);
    LateUnaffected(s.db, s.inbox, s.db, s'.inbox, s.late);
  }

  lemma AnswerKeeps(s: Sys, f: FrameKey, rows: seq<OcrResult>)
    requires Healthy(s) && OcrFrame(f) in s.inbox && rows != [] && forall r :: r in rows ==> r.frame == f
    ensures Healthy(Worked(s, multiset{OcrFrame(f)}, s.db, multiset(Answers(rows))))
  {
    assert Added(s.db, s.db) == [];
    AnswerQueue(s.db, s.inbox, s.late, f, rows);
    assert Worked(s, multiset{OcrFrame(f)}, s.db, multiset(Answers(rows))).inbox
        == s.inbox - multiset{OcrFrame(f)} + multiset(Answers(rows));
  }

  lemma ResendKeeps(s: Sys, f: FrameKey)
    requires Healthy(s) && OcrFrameRequested(f) in s.db.outbox
    ensures Healthy(Moved(s, multiset{}, s.db, multiset{OcrFrame(f)}))
  {
    var s' := Moved(s, multiset{}, s.db, multiset{OcrFrame(f)});
    assert Added(s.db, s.db) == [];
    assert s'.inbox == s.inbox + multiset{OcrFrame(f)};
    assert Justified(s.db, OcrFrameRequested(f));
    ResendQueue(s.db, s.inbox, f);
    LateUnaffected(s.db, s.inbox, s.db, s'.inbox, s.late);
  }

  lemma PersistKeeps(s: Sys, row: OcrResult)
    requires Healthy(s) && OcrAnswer(row) in s.inbox
    ensures Healthy(Worked(s, multiset{OcrAnswer(row)}, PersistFrameRun(s.db, [row]), multiset{}))
  {
    assert Backed(s.db, OcrAnswer(row));
    if OcrOpen(s.db) {
      StoreKeeps(s, row);
    } else {
      IgnoredAnswerKeeps(s, row);
    }
  }

  lemma PersistQueue(d: Db, q: multiset<Message>, late: bool, row: OcrResult, d': Db)
    requires StoresAnswer(d, row.frame, d') && AllBacked(d, q) && Promised(d, q) && LateInv(d, q, late)
    ensures var q' := q - multiset{OcrAnswer(row)} + QueuedByAnswer(d, row.frame, d');
      AllBacked(d', q') && Promised(d', q') && LateInv(d', q', late || Is(d.frameJob, Success))
  {
    PersistBacked(d, q, row, d');
    PersistPromised(d, q, row, d');
    PersistLate(d, q, late, row, d');
  }

  lemma StoreQueue(d: Db, q: multiset<Message>, late: bool, row: OcrResult)
    requires Inv(d) && NoneFailed(d) && OcrOpen(d) && row.frame in d.frames
    requires AllBacked(d, q) && Promised(d, q) && LateInv(d, q, late)
    ensures var d' := PersistFrameRun(d, [row]);
      var q' := q - multiset{OcrAnswer(row)} + Inbound(Added(d, d'));
      && Inv(d') && NoneFailed(d')
      && AllBacked(d', q') && Promised(d', q') && LateInv(d', q', late || Is(d.frameJob, Success))
  {
    PersistEffect(d, row);
    PersistQueue(d, q, late, row, PersistFrameRun(d, [row]));
  }

  lemma StoreKeeps(s: Sys, row: OcrResult)
    requires Healthy(s) && row.frame in s.db.frames && OcrOpen(s.db)
    ensures Healthy(Worked(s, multiset{OcrAnswer(row)}, PersistFrameRun(s.db, [row]), multiset{}))
  {
    var d' := PersistFrameRun(s.db, [row]);
    StoreQueue(s.db, s.inbox, s.late, row);
    assert Worked(s, multiset{OcrAnswer(row)}, d', multiset{}).inbox ==
      s.inbox - multiset{OcrAnswer(row)} + Inbound(Added(s.db, d'));
  }

  lemma IgnoredAnswerMoves(s: Sys, row: OcrResult)
    requires s.db.frameJob.Some? && s.db.ocrJob.Some? && !OcrOpen(s.db)
    requires Is(s.db.ocrJob, Success) ==> Is(s.db.frameJob, Success)
    requires s.db.video.status == Success ==> Is(s.db.frameJob, Success)
    ensures Worked(s, multiset{OcrAnswer(row)}, PersistFrameRun(s.db, [row]), multiset{})
         == Sys(s.db, s.inbox - multiset{OcrAnswer(row)}, true)
  {
  }

  /** An answer that arrives after OCR has completed changes no row. */
  lemma IgnoredAnswerKeeps(s: Sys, row: OcrResult)
    requires Healthy(s) && row.frame in s.db.frames && s.db.ocrJob.Some? && !OcrOpen(s.db)
    ensures Healthy(Worked(s, multiset{OcrAnswer(row)}, PersistFrameRun(s.db, [row]), multiset{}))
  {
    IgnoredAnswerMoves(s, row);
    IgnoredAnswerQueue(s.db, s.inbox, s.inbox - multiset{OcrAnswer(row)});
  }

  lemma IgnoredAnswerQueue(d: Db, q: multiset<Message>, q': multiset<Message>)
    requires RowsInv(d) && (Is(d.ocrJob, Success) || d.video.status == Success)
    requires AllBacked(d, q) && Promised(d, q) && LateInv(d, q, true)
    requires (forall m :: m in q && !m.OcrAnswer? ==> m in q') && q' <= q
    ensures AllBacked(d, q') && Promised(d, q') && LateInv(d, q', true)
  {
  }

  lemma ClassifyKeeps(s: Sys, f: FrameKey, raw: seq<ClassifyItem>)
    requires Healthy(s) && ClassifyOne(f) in s.inbox
    ensures Healthy(Worked(s, multiset{ClassifyOne(f)}, HandleFrameRun(s.db, f, raw), multiset{}))
  {
    var d, d' := s.db, HandleFrameRun(s.db, f, raw);
    var s' := Worked(s, multiset{ClassifyOne(f)}, d', multiset{});
    assert Backed(d, ClassifyOne(f));
    ClassifyEffect(d, f, raw);
    ClassifyQueue(d, s.inbox, f, d');
    assert s'.inbox == s.inbox - multiset{ClassifyOne(f)};
    ClassificationLate(d', s'.inbox, s'.late);
  }

  lemma FinalizeKeeps(s: Sys)
    requires Healthy(s) && FinalizeClassify in s.inbox
    ensures Healthy(Moved(s, multiset{FinalizeClassify}, FinalizeRun(s.db), multiset{}))
  {
    var d, d' := s.db, FinalizeRun(s.db);
    var s' := Moved(s, multiset{FinalizeClassify}, d', multiset{});
    assert Backed(d, FinalizeClassify);
    FinalizeEffect(d);
    FinalizeQueue(d, s.inbox, d');
    assert s'.inbox == s.inbox - multiset{FinalizeClassify};
    ClassificationLate(d', s'.inbox, s'.late);
  }

  lemma ActKeeps(s: Sys, a: Action, s': Sys)
    requires Healthy(s) && Acts(s, a, s')
    ensures Healthy(s')
  {
    match a
    case Confirm(c, n) => ConfirmKeeps(s, c, n);
    case Expire => ExpireKeeps(s);
    case Split(order) =>
      assert Backed(s.db, SegmentVideo);
      if Is(s.db.segmentJob, Success) {
        AgainSplitKeeps(s, order);
      } else {
        FirstSplitKeeps(s, order);
      }
    case Begin(g) => BeginKeeps(s, g);
    case Emit(f, ts) => EmitKeeps(s, f, ts);
    case Finish(g) => FinishKeeps(s, g);
    case SkipSegment(g) => SkipKeeps(s, g);
    case AnswerOcr(f, rows) => AnswerKeeps(s, f, rows);
    case ResendOcr(f) => ResendKeeps(s, f);
    case PersistAnswer(row) => PersistKeeps(s, row);
    case ClassifyAnswer(f, raw) => ClassifyKeeps(s, f, raw);
    case Finalize => FinalizeKeeps(s);
  }

  // ----- Main results -----

  ghost predicate Start(s: Sys) {
    Initial(s.db) && s.inbox == multiset{} && !s.late
  }

  ghost predicate ActsAt(h: seq<Sys>, actions: seq<Action>, i: nat)
    requires |h| == |actions| + 1 && i < |actions|
  {
    Acts(h[i], actions[i], h[i + 1])
  }

  /** A run without failures: each state follows from the one before by the action beside it. */
  ghost predicate Run(h: seq<Sys>, actions: seq<Action>) {
    && |h| == |actions| + 1 && Start(h[0])
    && forall i :: 0 <= i < |actions| ==> ActsAt(h, actions, i)
  }

  lemma {:induction false} RunIsHealthy(h: seq<Sys>, actions: seq<Action>, i: nat)
    requires Run(h, actions) && i < |h|
    ensures Healthy(h[i])
  {
    if i == 0 {
      InitialInv(h[0].db);
    } else {
      RunIsHealthy(h, actions, i - 1);
      assert ActsAt(h, actions, i - 1);
      ActKeeps(h[i - 1], actions[i - 1], h[i]);
    }
  }

  /**
   Conditional completion.  Whatever the order and duplication of messages, once the upload
   was confirmed and no message is left, extraction is complete and every frame has its OCR
   and classification rows; and the video is in success exactly when some OCR or
   classification message was handled after extraction had completed.
   */
  lemma QuiescentCompletion(h: seq<Sys>, actions: seq<Action>, i: nat)
    requires i < |h| && h[i].inbox == multiset{} && h[i].db.segmentJob.Some?
    requires Run(h, actions)
    ensures Is(h[i].db.frameJob, Success)
    ensures forall f :: f in h[i].db.frames ==> f in h[i].db.ocr && f in h[i].db.classifications
    ensures h[i].db.video.status == Success <==> h[i].late
  {
    RunIsHealthy(h, actions, i);
    var d := h[i].db;
    assert Succeeded(d.segments) == d.segments.Keys;
  }

  /** Extraction completed, and OCR or classification work was or will be done after that. */
  predicate Rescued(s: Sys) {
    Is(s.db.frameJob, Success) && (s.late || Outstanding(s.inbox))
  }

  predicate IsWork(a: Action) {
    a.AnswerOcr? || a.PersistAnswer? || a.ClassifyAnswer?
  }

  lemma WorkRescues(s: Sys, a: Action, s': Sys)
    requires Acts(s, a, s') && IsWork(a) && Is(s.db.frameJob, Success)
    ensures s'.late
  {
  }

  predicate IsChainMessage(m: Message) {
    m.OcrFrame? || m.OcrAnswer? || m.ClassifyOne?
  }

  /** After extraction: either work is handled late, or none of the work queued is taken. */
  ghost predicate Advances(s: Sys, s': Sys) {
    s'.late
    || (Is(s'.db.frameJob, Success) && s'.late == s.late
        && forall m :: m in s.inbox && IsChainMessage(m) ==> m in s'.inbox)
  }

  predicate IsEarlyAction(a: Action) {
    a.Confirm? || a.Expire? || a.Split? || a.Begin? || a.Emit?
  }

  lemma EarlyAdvances(s: Sys, a: Action, s': Sys)
    requires IsEarlyAction(a) && Acts(s, a, s') && Is(s.db.frameJob, Success) && Is(s.db.segmentJob, Success)
    ensures Advances(s, s')
  {
  }

  lemma FinalizeAdvances(s: Sys, s': Sys)
    requires Acts(s, Finalize, s') && Is(s.db.frameJob, Success)
    ensures Advances(s, s')
  {
    assert FinalizeRun(s.db).frameJob == s.db.frameJob;
    assert forall m :: m in s.inbox && IsChainMessage(m) ==> m in s.inbox - multiset{FinalizeClassify};
  }

  lemma ActAdvances(s: Sys, a: Action, s': Sys)
    requires Acts(s, a, s') && Is(s.db.frameJob, Success) && Is(s.db.segmentJob, Success)
    ensures Advances(s, s')
  {
    if IsWork(a) {
      WorkRescues(s, a, s');
    } else if IsEarlyAction(a) {
      EarlyAdvances(s, a, s');
    } else if a.Finalize? {
      FinalizeAdvances(s, s');
    }
  }

  lemma RunFacts(h: seq<Sys>, actions: seq<Action>, i: nat)
    requires Run(h, actions) && i < |h|
    ensures h[i].late ==> Is(h[i].db.frameJob, Success)
    ensures Is(h[i].db.frameJob, Success) ==> Is(h[i].db.segmentJob, Success)
  {
    RunIsHealthy(h, actions, i);
  }

  lemma RunAdvances(h: seq<Sys>, actions: seq<Action>, i: nat)
    requires Run(h, actions) && i < |actions| && Is(h[i].db.frameJob, Success)
    ensures h[i + 1].late ==> Is(h[i + 1].db.frameJob, Success)
    ensures Advances(h[i], h[i + 1])
  {
    RunFacts(h, actions, i);
    RunFacts(h, actions, i + 1);
    assert ActsAt(h, actions, i);
    ActAdvances(h[i], actions[i], h[i + 1]);
  }

  lemma {:induction false} RescuedStays(h: seq<Sys>, actions: seq<Action>, i: nat, j: nat)
    requires i <= j < |h| && Rescued(h[i]) && Run(h, actions)
    ensures Rescued(h[j])
  {
    if i < j {
      RescuedStays(h, actions, i, j - 1);
      RunAdvances(h, actions, j - 1);
    }
  }

  /** Extraction completed with nothing left that could lead to completion. */
  predicate Stranded(s: Sys) {
    Is(s.db.frameJob, Success) && !s.late && !Outstanding(s.inbox)
  }

  lemma StrandedQuietly(s: Sys, taken: multiset<Message>, d': Db, s': Sys)
    requires Stranded(s) && s' == Moved(s, taken, d', multiset{})
    requires Is(d'.frameJob, Success) && forall m :: m in Inbound(Added(s.db, d')) ==> IsEarlyMessage(m)
    ensures Stranded(s')
  {
  }

  lemma ActKeepsStranded(s: Sys, a: Action, s': Sys)
    requires Healthy(s) && Acts(s, a, s') && Stranded(s) && !a.ResendOcr?
    ensures Stranded(s')
  {
    assert FinalizeClassify in s.inbox ==> Backed(s.db, FinalizeClassify);
    match a
    case Confirm(c, n) =>
      assert Added(s.db, s'.db) == [];
      StrandedQuietly(s, multiset{}, s'.db, s');
    case Split(order) =>
      AgainSplitShape(s.db, order);
      StrandedQuietly(s, multiset{SegmentVideo}, s'.db, s');
    case SkipSegment(g) =>
      assert Added(s.db, s'.db) == [];
      StrandedQuietly(s, multiset{ExtractSegment(g)}, s'.db, s');
    case _ =>
  }

  lemma StrandedStep(h: seq<Sys>, actions: seq<Action>, k: nat)
    requires Run(h, actions) && k < |actions| && Stranded(h[k]) && !actions[k].ResendOcr?
    ensures Stranded(h[k + 1])
  {
    RunIsHealthy(h, actions, k);
    assert ActsAt(h, actions, k);
    ActKeepsStranded(h[k], actions[k], h[k + 1]);
  }

  lemma {:induction false} StrandedStays(h: seq<Sys>, actions: seq<Action>, i: nat, j: nat)
    requires Run(h, actions) && i <= j < |h| && Stranded(h[i])
    requires forall k :: i <= k < j ==> !actions[k].ResendOcr?
    ensures Stranded(h[j])
  {
    if i < j {
      StrandedStays(h, actions, i, j - 1);
      StrandedStep(h, actions, j - 1);
    }
  }

  lemma NotLateAtCompletion(h: seq<Sys>, actions: seq<Action>, i: nat)
    requires 0 < i < |h| && Is(h[i].db.frameJob, Success) && !Is(h[i - 1].db.frameJob, Success) && Run(h, actions)
    ensures !h[i].late
  {
    RunFacts(h, actions, i - 1);
    LateNeedsCompletion(h, actions, i - 1);
  }

  lemma LateNeedsCompletion(h: seq<Sys>, actions: seq<Action>, i: nat)
    requires Run(h, actions) && i < |actions| && !h[i].late && !Is(h[i].db.frameJob, Success)
    ensures !h[i + 1].late
  {
    assert ActsAt(h, actions, i);
  }

  predicate Resends(actions: seq<Action>, i: nat, j: nat) {
    exists k :: i <= k < j && k < |actions| && actions[k].ResendOcr?
  }

  /** Sending an old request again brings the work back. */
  lemma ResendRescues(h: seq<Sys>, actions: seq<Action>, k: nat)
    requires Run(h, actions) && k < |actions| && actions[k].ResendOcr? && Is(h[k].db.frameJob, Success)
    ensures Rescued(h[k + 1])
  {
    assert ActsAt(h, actions, k);
    RunAdvances(h, actions, k);
    assert OcrFrame(actions[k].frame) in h[k + 1].inbox;
  }

  lemma {:induction false} ExtractedStays(h: seq<Sys>, actions: seq<Action>, i: nat, j: nat)
    requires i <= j < |h| && Is(h[i].db.frameJob, Success) && Run(h, actions)
    ensures Is(h[j].db.frameJob, Success)
  {
    if i < j {
      ExtractedStays(h, actions, i, j - 1);
      RunAdvances(h, actions, j - 1);
    }
  }

  /**
   The promise of completion, with its exact condition.  Once extraction has completed, the
   video gets to success if and only if OCR or classification work is still queued at that
   moment or an old OCR request is sent once more later: nothing else looks at the counts again.
   */
  lemma CompletionIffWorkIsQueued(h: seq<Sys>, actions: seq<Action>, i: nat, j: nat)
    requires 0 < i <= j < |h| && h[j].inbox == multiset{}
    requires !Is(h[i - 1].db.frameJob, Success) && Is(h[i].db.frameJob, Success)
    requires Run(h, actions)
    ensures h[j].db.video.status == Success <==> Outstanding(h[i].inbox) || Resends(actions, i, j)
  {
    NotLateAtCompletion(h, actions, i);
    if Outstanding(h[i].inbox) {
      RescuedStays(h, actions, i, j);
    } else if Resends(actions, i, j) {
      var k :| i <= k < j && k < |actions| && actions[k].ResendOcr?;
      ExtractedStays(h, actions, i, k);
      ResendRescues(h, actions, k);
      RescuedStays(h, actions, k + 1, j);
    } else {
      StrandedStays(h, actions, i, j);
    }
    RunFacts(h, actions, j);
    QuiescentCompletion(h, actions, j);
  }
}
