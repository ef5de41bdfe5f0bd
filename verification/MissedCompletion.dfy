/**
 A run without failures that never completes: one segment with one frame.  The upload is confirmed
 and the video split; the extraction worker starts the segment and emits its frame, but has not yet
 committed the segment.  Meanwhile the frame is recognised and classified.  Both handlers test for
 completion and find the extraction unfinished.  Then the extraction worker commits the segment,
 which completes the extraction and announces nothing that would make another handler test again.
 */
module MissedCompletion {
  import opened Domain
  import opened FrameResults
  import opened Pipeline
  import opened PipelineSafety
  import opened HandlerRuns
  import opened Quiescence

  const F := FrameKey(0, 0)
  const EMPTY_ROW := OcrResult(F, "", 0.0, "empty", "")

  /** Appends one action to a run. */
  lemma Extend(h: seq<Sys>, actions: seq<Action>, a: Action, s: Sys)
    requires Run(h, actions) && Acts(h[|h| - 1], a, s)
    ensures Run(h + [s], actions + [a])
  {
    var h', actions' := h + [s], actions + [a];
    forall i | 0 <= i < |actions'|
      ensures ActsAt(h', actions', i)
    {
      if i < |actions| {
        assert ActsAt(h, actions, i);
      }
    }
  }

  ghost predicate At(h: seq<Sys>, actions: seq<Action>, s: Sys) {
    Run(h, actions) && h[|h| - 1] == s && !s.late
  }

  lemma Then(h: seq<Sys>, actions: seq<Action>, s: Sys, a: Action, s': Sys)
    returns (h': seq<Sys>, actions': seq<Action>)
    requires At(h, actions, s) && Acts(s, a, s') && !s'.late
    ensures At(h', actions', s')
  {
    h', actions' := h + [s'], actions + [a];
    Extend(h, actions, a, s');
  }

  lemma Upload() returns (h: seq<Sys>, actions: seq<Action>, s: Sys)
    ensures At(h, actions, s) && s.inbox == multiset{SegmentVideo}
    ensures var d := s.db;
      && Is(d.segmentJob, Pending) && d.frameJob.None?
      && d.segments == map[] && d.frames == map[] && d.ocrJob.None? && d.ocr == map[]
  {
    var d := Db(VideoRow(Pending, false, "", 0, ""), None, None, None, None, map[], map[], map[], map[], [Created]);
    var s0 := Sys(d, multiset{}, false);
    s := Moved(s0, multiset{}, AfterConfirmUpload(d, "", 0), multiset{});
    InitialInv(d);
    assert Run([s0], []);
    h, actions := Then([s0], [], s0, Confirm("", 0), s);
    assert Added(d, s.db) == [Uploaded];
    InboundOfOne(Uploaded);
  }

  lemma OneSegmentQueued()
    ensures Inbound([Extracting] + SegmentReadies([0])) == multiset{ExtractSegment(0)}
  {
    assert SegmentReadies([0]) == [SegmentReady(0)];
    InboundConcat([Extracting], [SegmentReady(0)]);
    InboundOfOne(Extracting);
    InboundOfOne(SegmentReady(0));
  }

  lemma SegmentedRows(d: Db)
    requires NoneFailed(d) && Is(d.segmentJob, Pending) &&
      d.frameJob.None? && d.segments == map[] && d.video.status != Success
    ensures CanSplit(d, [0])
    ensures var d' := SegmentVideoRun(d, [0]);
      && d'.segments == map[0 := Pending] && d'.frameJob.Some? && !Is(d'.frameJob, Success)
      && d'.frames == d.frames && d'.ocrJob == d.ocrJob && d'.ocr == d.ocr
      && Inbound(Added(d, d')) == multiset{ExtractSegment(0)}
  {
    FirstSplitShape(d, [0]);
    OneSegmentQueued();
  }

  lemma Segmented(h: seq<Sys>, actions: seq<Action>, s: Sys) returns (h': seq<Sys>, actions': seq<Action>, s': Sys)
    requires At(h, actions, s) && s.inbox == multiset{SegmentVideo}
    requires Is(s.db.segmentJob, Pending) && s.db.frameJob.None? &&
      s.db.segments == map[] && s.db.frames == map[] && s.db.ocrJob.None?
    requires s.db.ocr == map[]
    ensures At(h', actions', s') && s'.inbox == multiset{ExtractSegment(0)}
    ensures s'.db.segments == map[0 := Pending] && s'.db.frames == map[] && s'.db.ocrJob.None? && s'.db.ocr == map[]
    ensures s'.db.frameJob.Some? && !Is(s'.db.frameJob, Success)
  {
    RunIsHealthy(h, actions, |h| - 1);
    SegmentedRows(s.db);
    s' := Moved(s, multiset{SegmentVideo}, SegmentVideoRun(s.db, [0]), multiset{});
    h', actions' := Then(h, actions, s, Split([0]), s');
  }

  lemma Begun(h: seq<Sys>, actions: seq<Action>, s: Sys) returns (h': seq<Sys>, actions': seq<Action>, s': Sys)
    requires At(h, actions, s) && s.inbox == multiset{ExtractSegment(0)}
    requires s.db.segments == map[0 := Pending] && s.db.frameJob.Some? && !Is(s.db.frameJob, Success)
    ensures At(h', actions', s') && s'.inbox == s.inbox
    ensures s'.db.segments == map[0 := Processing] && s'.db == s.db.(segments := s'.db.segments)
  {
    RunIsHealthy(h, actions, |h| - 1);
    s' := Moved(s, multiset{}, AfterStartSegment(s.db, 0), multiset{});
    h', actions' := Then(h, actions, s, Begin(0), s');
    assert Added(s.db, s'.db) == [];
  }

  lemma Emitted(h: seq<Sys>, actions: seq<Action>, s: Sys) returns (h': seq<Sys>, actions': seq<Action>, s': Sys)
    requires At(h, actions, s) && s.inbox == multiset{ExtractSegment(0)}
    requires s.db.segments == map[0 := Processing] && s.db.frames == map[] && s.db.ocrJob.None? && s.db.ocr == map[]
    requires s.db.frameJob.Some? && !Is(s.db.frameJob, Success)
    ensures At(h', actions', s') && s'.inbox == multiset{ExtractSegment(0), OcrFrame(F)}
    ensures s'.db.segments == s.db.segments && s'.db.frames == map[F := 0] && s'.db.ocr == map[]
    ensures s'.db.frameJob == s.db.frameJob && Is(s'.db.ocrJob, Pending)
  {
    s' := Moved(s, multiset{}, FramePersisted(s.db, F, 0), multiset{});
    h', actions' := Then(h, actions, s, Emit(F, 0), s');
    EmitShape(s.db, F, 0);
  }

  lemma AnswerMoves(s: Sys)
    requires s.inbox == multiset{ExtractSegment(0), OcrFrame(F)} && !Is(s.db.frameJob, Success)
    ensures Worked(s, multiset{OcrFrame(F)}, s.db, multiset(Answers([EMPTY_ROW])))
         == Sys(s.db, multiset{ExtractSegment(0), OcrAnswer(EMPTY_ROW)}, s.late)
  {
    assert Added(s.db, s.db) == [];
    assert Answers([EMPTY_ROW]) == [OcrAnswer(EMPTY_ROW)];
  }

  lemma AnswerActs(s: Sys, s': Sys)
    requires s.inbox == multiset{ExtractSegment(0), OcrFrame(F)} && !Is(s.db.frameJob, Success)
    requires s' == Sys(s.db, multiset{ExtractSegment(0), OcrAnswer(EMPTY_ROW)}, s.late)
    ensures Acts(s, AnswerOcr(F, [EMPTY_ROW]), s')
  {
    AnswerMoves(s);
  }

  lemma Answered(h: seq<Sys>, actions: seq<Action>, s: Sys) returns (h': seq<Sys>, actions': seq<Action>, s': Sys)
    requires At(h, actions, s) && s.inbox == multiset{ExtractSegment(0), OcrFrame(F)} && !Is(s.db.frameJob, Success)
    ensures At(h', actions', s') && s'.inbox == multiset{ExtractSegment(0), OcrAnswer(EMPTY_ROW)} && s'.db == s.db
  {
    s' := Sys(s.db, multiset{ExtractSegment(0), OcrAnswer(EMPTY_ROW)}, s.late);
    AnswerActs(s, s');
    h', actions' := Then(h, actions, s, AnswerOcr(F, [EMPTY_ROW]), s');
  }

  lemma Recognized(h: seq<Sys>, actions: seq<Action>, s: Sys) returns (h': seq<Sys>, actions': seq<Action>, s': Sys)
    requires At(h, actions, s) && s.inbox == multiset{ExtractSegment(0), OcrAnswer(EMPTY_ROW)}
    requires s.db.frames == map[F := 0] && s.db.ocr == map[] && Is(s.db.ocrJob, Pending)
    requires s.db.frameJob.Some? && !Is(s.db.frameJob, Success)
    ensures At(h', actions', s') && s'.inbox == multiset{ExtractSegment(0), ClassifyOne(F)}
    ensures s'.db.segments == s.db.segments && s'.db.frames == s.db.frames && s'.db.frameJob == s.db.frameJob
  {
    RunIsHealthy(h, actions, |h| - 1);
    s' := Worked(s, multiset{OcrAnswer(EMPTY_ROW)}, PersistFrameRun(s.db, [EMPTY_ROW]), multiset{});
    h', actions' := Then(h, actions, s, PersistAnswer(EMPTY_ROW), s');
    PersistEffect(s.db, EMPTY_ROW);
  }

  lemma Classified(h: seq<Sys>, actions: seq<Action>, s: Sys) returns (h': seq<Sys>, actions': seq<Action>, s': Sys)
    requires At(h, actions, s) && s.inbox == multiset{ExtractSegment(0), ClassifyOne(F)}
    requires s.db.frameJob.Some? && !Is(s.db.frameJob, Success)
    ensures At(h', actions', s') && s'.inbox == multiset{ExtractSegment(0)}
    ensures s'.db.segments == s.db.segments && s'.db.frames == s.db.frames && s'.db.frameJob == s.db.frameJob
    ensures s'.db.video.status != Success
  {
    RunIsHealthy(h, actions, |h| - 1);
    assert Backed(s.db, ClassifyOne(F));
    s' := Worked(s, multiset{ClassifyOne(F)}, HandleFrameRun(s.db, F, []), multiset{});
    h', actions' := Then(h, actions, s, ClassifyAnswer(F, []), s');
    ClassifyEffect(s.db, F, []);
  }

  lemma Finished(h: seq<Sys>, actions: seq<Action>, s: Sys) returns (h': seq<Sys>, actions': seq<Action>, s': Sys)
    requires At(h, actions, s) && s.inbox == multiset{ExtractSegment(0)}
    requires s.db.segments == map[0 := Processing] && s.db.frames == map[F := 0]
    requires s.db.frameJob.Some? && !Is(s.db.frameJob, Success) && s.db.video.status != Success
    ensures At(h', actions', s') && s'.inbox == multiset{} && s'.db.segmentJob.Some?
  {
    RunIsHealthy(h, actions, |h| - 1);
    assert F in s.db.frames && F.segment == 0;
    s' := Moved(s, multiset{ExtractSegment(0)}, AfterCompleteSegment(s.db, 0), multiset{});
    h', actions' := Then(h, actions, s, Finish(0), s');
    FinishShape(s.db, 0);
  }

  predicate Missed(s: Sys) {
    s.inbox == multiset{} && Is(s.db.frameJob, Success) && s.db.video.status == Processing
  }

  /** Completion is not guaranteed: a quiescent state with every row in place, still processing. */
  lemma CompletionCanBeMissed()
    ensures exists h: seq<Sys>, actions: seq<Action> ::
      (Run(h, actions) && Missed(h[|h| - 1]))
  {
    var h1, a1, s1 := Upload();
    var h2, a2, s2 := Segmented(h1, a1, s1);
    var h3, a3, s3 := Begun(h2, a2, s2);
    var h4, a4, s4 := Emitted(h3, a3, s3);
    var h5, a5, s5 := Answered(h4, a4, s4);
    var h6, a6, s6 := Recognized(h5, a5, s5);
    var h7, a7, s7 := Classified(h6, a6, s6);
    var h, a, s := Finished(h7, a7, s7);
    StillProcessing(h, a, s);
    assert Run(h, a) && Missed(h[|h| - 1]);
  }

  lemma StillProcessing(h: seq<Sys>, actions: seq<Action>, s: Sys)
    requires At(h, actions, s) && s.inbox == multiset{} && s.db.segmentJob.Some?
    ensures Missed(s)
  {
    RunIsHealthy(h, actions, |h| - 1);
  }
}
