/** Handlers that save stale rows of the video and of their own job. */
module StaleHandlers {
  import opened Domain
  import V = VideoAggregate

  /** OCR and classification handlers; `Other` are those of upload, segmentation and extraction. */
  datatype Kind = Ocr | Classify | Other

  /**
   A handler reads the video, the frame job and its own job, then stores rows; when its copy of the
   frame job is in success it counts the rows of all frames and completes.
   */
  datatype Phase = SawVideo | SawExtraction | Loaded | Stored | OcrCounted | Counted

  /** What a handler has read: statuses of video and own job, whether extraction was done, and the frames. */
  datatype Handler = Handler(
    kind: Kind,
    phase: Phase,
    video: Status,
    job: Status,
    extracted: bool,
    frames: Option<set<FrameKey>>)

  /** The rows, and how often success has been announced. */
  datatype State = State(
    video: Status,
    extracted: bool,
    frames: set<FrameKey>,
    ocr: set<FrameKey>,
    classified: set<FrameKey>,
    ocrJob: Option<Status>,
    classifyJob: Option<Status>,
    announced: nat,
    handlers: map<nat, Handler>)

  datatype Action =
    | AddFrame(frame: FrameKey)
    | CompleteExtraction
    | SeeVideo(handler: nat, kind: Kind)
    | SeeExtraction(handler: nat)
    | SeeJob(handler: nat)
    | ListFrames(handler: nat)
    | Start(handler: nat)
    | Store(handler: nat, rows: set<FrameKey>)
    | CountOcr(handler: nat)
    | CountRows(handler: nat)
    | Finish(handler: nat)
    | Fail(handler: nat)
    | SaveVideo(handler: nat, command: V.Command)
    | End(handler: nat)

  function JobOf(s: State, kind: Kind): Status {
    var j := if kind.Ocr? then s.ocrJob else s.classifyJob;
    if j.Some? then j.value else Pending
  }

  /** Saves the job row of a handler of this kind. */
  function WithJob(s: State, kind: Kind, job: Status): State {
    match kind
    case Ocr => s.(ocrJob := Some(job))
    case Classify => s.(classifyJob := Some(job))
    case Other => s
  }

  function WithClassifyJob(s: State): State {
    if s.classifyJob.None? then s.(classifyJob := Some(Pending)) else s
  }

  function Put(s: State, n: nat, h: Handler): State {
    s.(handlers := s.handlers[n := h])
  }

  function Gone(s: State, n: nat): State {
    s.(handlers := s.handlers - {n})
  }

  /** OCR starts a pending job, classification every job that is not processing. */
  predicate NeedsStart(h: Handler) {
    if h.kind.Ocr? then h.job == Pending else h.job != Processing
  }

  function StartCommand(kind: Kind): V.Command {
    if kind.Ocr? then V.MarkOcrProcessing(0, 0) else V.MarkClassifying(0)
  }

  function FinishCommand(kind: Kind): V.Command {
    if kind.Ocr? then V.MarkOcrReady(0, 0) else V.MarkClassified(0)
  }

  function FailCommand(kind: Kind): V.Command {
    if kind.Ocr? then V.MarkOcrFailed(0, 0) else V.MarkClassifyFailed(0)
  }

  /** Commands of the handlers before OCR. */
  predicate IsEarly(c: V.Command) {
    || c.MarkUploaded? || c.MarkExtractionQueued? || c.MarkExtracting? || c.MarkFramesReady?
    || c.MarkExtractionFailed? || c.MarkUploadExpired?
  }

  /** A handler that finds its job or the video in success has nothing to do. */
  function AfterSeeJob(s: State, n: nat): State
    requires n in s.handlers
  {
    var h := s.handlers[n].(phase := Loaded, job := JobOf(s, s.handlers[n].kind));
    var s1 := if (if h.kind.Ocr? then s.ocrJob else s.classifyJob).None? then WithJob(s, h.kind, Pending) else s;
    if h.job == Success || h.video == Success then Gone(s1, n) else Put(s1, n, h)
  }

  function AfterStart(s: State, n: nat): State
    requires n in s.handlers
  {
    var h := s.handlers[n];
    var h' := h.(video := V.NextStatus(h.video, StartCommand(h.kind)), job := Processing);
    Put(WithJob(s, h.kind, Processing), n, h').(video := h'.video)
  }

  /** OCR rows are stored with the whole job row; classification rows are stored on their own. */
  function AfterStore(s: State, n: nat, rows: set<FrameKey>): State
    requires n in s.handlers
  {
    var h := s.handlers[n];
    var s1 := Put(s, n, h.(phase := Stored));
    if rows == {} then s1
    else if h.kind.Ocr? then WithJob(WithClassifyJob(s1), Ocr, h.job).(ocr := s.ocr + rows)
    else s1.(classified := s.classified + rows)
  }

  /** The video row and the job row are saved as they were read, with the success on top. */
  function AfterFinish(s: State, n: nat): State
    requires n in s.handlers
  {
    var h := s.handlers[n];
    var live := h.video == Pending || h.video == Processing;
    var s1 := WithJob(Gone(s, n), h.kind, Success).(video := V.NextStatus(h.video, FinishCommand(h.kind)));
    if h.kind.Ocr? then WithClassifyJob(s1)
    else s1.(announced := s.announced + if live then 1 else 0)
  }

  function AfterFail(s: State, n: nat): State
    requires n in s.handlers
  {
    var h := s.handlers[n];
    WithJob(Gone(s, n), h.kind, Failed).(video := V.NextStatus(h.video, FailCommand(h.kind)))
  }

  predicate CanStore(s: State, h: Handler, rows: set<FrameKey>) {
    && h.phase.Loaded? && rows <= s.frames
    && match h.kind
       case Ocr => h.frames.Some? && !NeedsStart(h)
       case Classify => rows == {} || !NeedsStart(h)
       case Other => false
  }

  /** The frames are listed before the start by OCR and for the count by classification. */
  predicate CanList(h: Handler) {
    (h.kind.Ocr? && h.phase.Loaded?) || (h.kind.Classify? && h.phase.Stored? && h.extracted)
  }

  ghost predicate HandlerActs(s: State, a: Action, n: nat, s': State)
    requires n in s.handlers
  {
    var h := s.handlers[n];
    match a
    case SeeExtraction(_) =>
      !h.kind.Other? && h.phase.SawVideo? && s' == Put(s, n, h.(phase := SawExtraction, extracted := s.extracted))
    case SeeJob(_) => h.phase.SawExtraction? && s' == AfterSeeJob(s, n)
    case ListFrames(_) => CanList(h) && s' == Put(s, n, h.(frames := Some(s.frames)))
    case Start(_) => h.phase.Loaded? && (h.kind.Ocr? ==> h.frames.Some?) && NeedsStart(h) && s' == AfterStart(s, n)
    case Store(_, rows) => CanStore(s, h, rows) && s' == AfterStore(s, n, rows)
    case CountOcr(_) =>
      && h.phase.Stored? && h.extracted && h.frames.Some? && h.frames.value <= s.ocr
      && (h.kind.Ocr? ==> h.frames.value != {})
      && s' == Put(s, n, h.(phase := if h.kind.Ocr? then Counted else OcrCounted))
    case CountRows(_) =>
      h.phase.OcrCounted? && h.frames.Some? && h.frames.value <= s.classified && s' == Put(s, n, h.(phase := Counted))
    case Finish(_) => h.phase.Counted? && h.video != Failed && s' == AfterFinish(s, n)
    case Fail(_) =>
      !h.phase.SawVideo? && !h.phase.SawExtraction? && h.video != Success && s' == AfterFail(s, n)
    case SaveVideo(_, c) =>
      && h.kind.Other? && IsEarly(c) && V.ReplyTo(h.video, c) == V.Accepted
      && s' == Put(s, n, h.(video := V.NextStatus(h.video, c))).(video := V.NextStatus(h.video, c))
    case End(_) => s' == Gone(s, n)
    case _ => false
  }

  ghost predicate Acts(s: State, a: Action, s': State) {
    match a
    case AddFrame(f) => !s.extracted && s' == s.(frames := s.frames + {f})
    case CompleteExtraction => s.frames != {} && s' == s.(extracted := true)
    case SeeVideo(n, kind) =>
      n !in s.handlers && s' == Put(s, n, Handler(kind, SawVideo, s.video, Pending, false, None))
    case _ => a.handler in s.handlers && HandlerActs(s, a, a.handler, s')
  }

  ghost predicate ActsAt(h: seq<State>, actions: seq<Action>, i: nat)
    requires i + 1 < |h| && i < |actions|
  {
    Acts(h[i], actions[i], h[i + 1])
  }

  /** No frame has been stored yet. */
  predicate Fresh(s: State) {
    s == State(s.video, false, {}, {}, {}, None, None, 0, map[]) && s.video != Success
  }

  ghost predicate Run(h: seq<State>, actions: seq<Action>) {
    && |h| == |actions| + 1 && Fresh(h[0])
    && forall i {:trigger ActsAt(h, actions, i)} :: 0 <= i < |actions| ==> ActsAt(h, actions, i)
  }

  // ----- Safety -----

  /** Extraction is done, and every frame has both of its rows. */
  predicate Complete(s: State) {
    s.extracted && s.frames != {} && s.frames <= s.ocr && s.frames <= s.classified
  }

  predicate HandlerOk(s: State, h: Handler) {
    && (h.video == Success ==> Complete(s))
    && (h.extracted ==> s.extracted && (h.frames.Some? ==> h.frames.value == s.frames))
    && (h.phase.OcrCounted? || h.phase.Counted? ==> h.extracted && h.frames == Some(s.frames) && s.frames <= s.ocr)
    && (h.phase.OcrCounted? ==> h.kind.Classify?)
    && (h.phase.Counted? ==> !h.kind.Other?)
    && (h.phase.Counted? && h.kind.Classify? ==> s.frames <= s.classified)
    && (h.kind.Other? ==> h.phase.SawVideo?)
    && (!h.phase.SawVideo? && !h.phase.SawExtraction? ==> h.job != Success && h.video != Success)
    && (h.phase.SawVideo? ==> h.frames.None? && !h.extracted)
    && (h.phase.SawExtraction? ==> h.frames.None?)
  }

  ghost predicate Inv(s: State) {
    && (s.extracted ==> s.frames != {})
    && (s.video == Success || s.classifyJob == Some(Success) || s.announced > 0 ==> Complete(s))
    && (s.ocrJob == Some(Success) ==> s.extracted && s.frames <= s.ocr)
    && forall n :: n in s.handlers ==> HandlerOk(s, s.handlers[n])
  }

  /** Rows are only added, frames only before extraction is done, and that stays done. */
  predicate Grows(s: State, s': State) {
    && (s.extracted ==> s'.extracted && s'.frames == s.frames)
    && s.ocr <= s'.ocr && s.classified <= s'.classified
  }

  lemma HandlerStaysOk(s: State, s': State, h: Handler)
    requires HandlerOk(s, h) && Grows(s, s')
    ensures HandlerOk(s', h)
  {
  }

  /** Everything but handler `n` and the saved rows is as before. */
  lemma OthersStayOk(s: State, s': State, n: nat)
    requires Inv(s) && Grows(s, s')
    requires forall m :: m in s'.handlers && m != n ==> m in s.handlers && s'.handlers[m] == s.handlers[m]
    requires n in s'.handlers ==> HandlerOk(s', s'.handlers[n])
    ensures forall m :: m in s'.handlers ==> HandlerOk(s', s'.handlers[m])
  {
    forall m | m in s'.handlers
      ensures HandlerOk(s', s'.handlers[m])
    {
      if m != n {
        HandlerStaysOk(s, s', s.handlers[m]);
      }
    }
  }

  lemma OutsideKeeps(s: State, a: Action, s': State)
    requires Inv(s) && Acts(s, a, s') && (a.AddFrame? || a.CompleteExtraction?)
    ensures Inv(s')
  {
    forall m | m in s'.handlers
      ensures HandlerOk(s', s'.handlers[m])
    {
      assert HandlerOk(s, s.handlers[m]);
    }
  }

  lemma SeeKeeps(s: State, n: nat, kind: Kind)
    requires Inv(s) && n !in s.handlers
    ensures Inv(Put(s, n, Handler(kind, SawVideo, s.video, Pending, false, None)))
  {
    OthersStayOk(s, Put(s, n, Handler(kind, SawVideo, s.video, Pending, false, None)), n);
  }

  lemma SeeJobKeeps(s: State, n: nat)
    requires Inv(s) && n in s.handlers && s.handlers[n].phase.SawExtraction?
    ensures Inv(AfterSeeJob(s, n))
  {
    assert HandlerOk(s, s.handlers[n]);
    OthersStayOk(s, AfterSeeJob(s, n), n);
  }

  lemma StartKeeps(s: State, n: nat)
    requires Inv(s) && n in s.handlers && s.handlers[n].phase.Loaded?
    ensures Inv(AfterStart(s, n))
  {
    assert HandlerOk(s, s.handlers[n]);
    OthersStayOk(s, AfterStart(s, n), n);
  }

  lemma StoreKeeps(s: State, n: nat, rows: set<FrameKey>)
    requires Inv(s) && n in s.handlers && CanStore(s, s.handlers[n], rows)
    ensures Inv(AfterStore(s, n, rows))
  {
    assert HandlerOk(s, s.handlers[n]);
    OthersStayOk(s, AfterStore(s, n, rows), n);
  }

  lemma FinishKeeps(s: State, n: nat)
    requires Inv(s) && n in s.handlers && s.handlers[n].phase.Counted? && s.handlers[n].video != Failed
    ensures Inv(AfterFinish(s, n))
  {
    assert HandlerOk(s, s.handlers[n]);
    OthersStayOk(s, AfterFinish(s, n), n);
  }

  lemma FailKeeps(s: State, n: nat)
    requires Inv(s) && n in s.handlers && s.handlers[n].video != Success
    ensures Inv(AfterFail(s, n))
  {
    OthersStayOk(s, AfterFail(s, n), n);
  }

  lemma HandlerKeeps(s: State, a: Action, n: nat, s': State)
    requires Inv(s) && n in s.handlers && HandlerActs(s, a, n, s')
    ensures Inv(s')
  {
    assert HandlerOk(s, s.handlers[n]);
    match a
    case SeeJob(_) => SeeJobKeeps(s, n);
    case Start(_) => StartKeeps(s, n);
    case Store(_, rows) => StoreKeeps(s, n, rows);
    case Finish(_) => FinishKeeps(s, n);
    case Fail(_) => FailKeeps(s, n);
    case _ => OthersStayOk(s, s', n);
  }

  lemma ActKeeps(s: State, a: Action, s': State)
    requires Inv(s) && Acts(s, a, s')
    ensures Inv(s')
  {
    match a
    case AddFrame(_) => OutsideKeeps(s, a, s');
    case CompleteExtraction => OutsideKeeps(s, a, s');
    case SeeVideo(n, kind) => SeeKeeps(s, n, kind);
    case _ => HandlerKeeps(s, a, a.handler, s');
  }

  lemma {:induction false} RunInv(h: seq<State>, actions: seq<Action>, i: nat)
    requires Run(h, actions) && i < |h|
    ensures Inv(h[i])
  {
    if i > 0 {
      RunInv(h, actions, i - 1);
      assert ActsAt(h, actions, i - 1);
      ActKeeps(h[i - 1], actions[i - 1], h[i]);
    }
  }

  /**
   Stale saves of whole rows never make success come too early: whenever the video or the classify
   job is in success, or success has been announced, extraction is done and every frame has both rows.
   */
  lemma StaleCompletionIsSafe(h: seq<State>, actions: seq<Action>, i: nat)
    requires Run(h, actions) && i < |h|
    requires h[i].video == Success || h[i].classifyJob == Some(Success) || h[i].announced > 0
    ensures Complete(h[i])
  {
    RunInv(h, actions, i);
  }

  // ----- What is decided stays decided -----

  /** The classify job is in success, and no classification handler that has read it otherwise is at work. */
  ghost predicate Classed(s: State) {
    && s.classifyJob == Some(Success)
    && forall n :: n in s.handlers && s.handlers[n].kind.Classify? ==>
      s.handlers[n].phase.SawVideo? || s.handlers[n].phase.SawExtraction?
  }

  /** Row and copies of the video all agree on whether it is in success. */
  ghost predicate Agreed(s: State, success: bool) {
    && (s.video == Success <==> success)
    && forall n :: n in s.handlers ==> (s.handlers[n].video == Success <==> success)
  }

  lemma DecidedAct(s: State, a: Action, s': State, success: bool)
    requires Acts(s, a, s') && Classed(s) && Agreed(s, success) && Inv(s)
    ensures Classed(s') && Agreed(s', success) && s'.announced == s.announced
  {
  }

  /**
   Once classification has succeeded, and the handlers then at work (if any) have all read the video
   as it is, nothing changes any more whether the video is in success: a lost success never comes
   back, and one that is kept is never lost.
   */
  lemma {:induction false} OutcomeIsFinal(h: seq<State>, actions: seq<Action>, i: nat, j: nat)
    requires Run(h, actions) && i <= j < |h| && Classed(h[i]) && Agreed(h[i], h[i].video == Success)
    ensures Classed(h[j]) && Agreed(h[j], h[i].video == Success) && h[j].announced == h[i].announced
    ensures h[j].video == Success <==> h[i].video == Success
  {
    if i < j {
      OutcomeIsFinal(h, actions, i, j - 1);
      RunInv(h, actions, j - 1);
      assert ActsAt(h, actions, j - 1);
      DecidedAct(h[j - 1], actions[j - 1], h[j], h[i].video == Success);
    }
  }

  // ----- The race of the last frame -----

  /** Every row is there and success has been announced, but the video is not in success. */
  predicate IsLost(s: State) {
    && Complete(s) && s.announced == 1 && s.ocrJob == Some(Success) && s.classifyJob == Some(Success)
    && s.video == Processing && s.handlers == map[]
  }

  /** No handler repairs it. */
  lemma LostIsFinal(h: seq<State>, actions: seq<Action>, i: nat, j: nat)
    requires Run(h, actions) && i <= j < |h| && IsLost(h[i])
    ensures h[j].video != Success
  {
    OutcomeIsFinal(h, actions, i, j);
  }

  ghost predicate RunTo(h: seq<State>, actions: seq<Action>, s: State) {
    Run(h, actions) && h[|h| - 1] == s
  }

  lemma Then(h: seq<State>, actions: seq<Action>, s: State, a: Action, s': State)
    returns (h': seq<State>, actions': seq<Action>)
    requires RunTo(h, actions, s) && Acts(s, a, s')
    ensures RunTo(h', actions', s')
  {
    h', actions' := h + [s'], actions + [a];
    forall i | 0 <= i < |actions'|
      ensures ActsAt(h', actions', i)
    {
      if i < |actions| {
        assert ActsAt(h, actions, i);
      }
    }
  }

  const FRESH := State(Processing, false, {}, {}, {}, None, None, 0, map[])
  const F := FrameKey(0, 0)
  /** The only frame is stored, and extraction is done. */
  const EXTRACTED := FRESH.(frames := {F}, extracted := true)

  function OcrAt(phase: Phase, job: Status, frames: Option<set<FrameKey>>): Handler {
    Handler(Ocr, phase, Processing, job, true, frames)
  }

  function ClassifyAt(phase: Phase, job: Status, frames: Option<set<FrameKey>>): Handler {
    Handler(Classify, phase, Processing, job, true, frames)
  }

  /** The OCR handler has stored the row of the frame, and has still to count. */
  const OCR_STORED := EXTRACTED.(ocr := {F}, ocrJob := Some(Processing), classifyJob := Some(Pending),
    handlers := map[0 := OcrAt(Stored, Processing, Some({F}))])

  lemma OcrStores() returns (h: seq<State>, actions: seq<Action>)
    ensures RunTo(h, actions, OCR_STORED)
  {
    assert RunTo([FRESH], [], FRESH);
    var s := FRESH.(frames := {F});
    h, actions := Then([FRESH], [], FRESH, AddFrame(F), s);
    h, actions := Then(h, actions, s, CompleteExtraction, EXTRACTED);
    var s1 := Put(EXTRACTED, 0, Handler(Ocr, SawVideo, Processing, Pending, false, None));
    h, actions := Then(h, actions, EXTRACTED, SeeVideo(0, Ocr), s1);
    var s2 := EXTRACTED.(handlers := map[0 := OcrAt(SawExtraction, Pending, None)]);
    assert Put(s1, 0, OcrAt(SawExtraction, Pending, None)) == s2;
    h, actions := Then(h, actions, s1, SeeExtraction(0), s2);
    var s3 := s2.(ocrJob := Some(Pending), handlers := map[0 := OcrAt(Loaded, Pending, None)]);
    assert AfterSeeJob(s2, 0) == s3;
    h, actions := Then(h, actions, s2, SeeJob(0), s3);
    h, actions := OcrGoesOn(h, actions, s3);
  }

  lemma OcrGoesOn(h: seq<State>, actions: seq<Action>, s3: State) returns (h': seq<State>, actions': seq<Action>)
    requires RunTo(h, actions, s3)
    requires s3 == EXTRACTED.(ocrJob := Some(Pending), handlers := map[0 := OcrAt(Loaded, Pending, None)])
    ensures RunTo(h', actions', OCR_STORED)
  {
    var s4 := s3.(handlers := map[0 := OcrAt(Loaded, Pending, Some({F}))]);
    h', actions' := Then(h, actions, s3, ListFrames(0), s4);
    var s5 := s4.(ocrJob := Some(Processing), handlers := map[0 := OcrAt(Loaded, Processing, Some({F}))]);
    assert AfterStart(s4, 0) == s5;
    h', actions' := Then(h', actions', s4, Start(0), s5);
    assert AfterStore(s5, 0, {F}) == OCR_STORED;
    h', actions' := Then(h', actions', s5, Store(0, {F}), OCR_STORED);
  }

  /** While it waits, the classification handler comes in. */
  function Meanwhile(job: Status, classified: set<FrameKey>, c: Handler): State {
    OCR_STORED.(classifyJob := Some(job), classified := classified,
      handlers := map[0 := OcrAt(Stored, Processing, Some({F})), 1 := c])
  }

  const CLASSIFIED := OCR_STORED.(video := Success, classifyJob := Some(Success), classified := {F}, announced := 1)

  lemma ClassifyLoads(h: seq<State>, actions: seq<Action>) returns (h': seq<State>, actions': seq<Action>)
    requires RunTo(h, actions, OCR_STORED)
    ensures RunTo(h', actions', Meanwhile(Pending, {}, ClassifyAt(Loaded, Pending, None)))
  {
    var s1 := Meanwhile(Pending, {}, Handler(Classify, SawVideo, Processing, Pending, false, None));
    assert Put(OCR_STORED, 1, s1.handlers[1]) == s1;
    h', actions' := Then(h, actions, OCR_STORED, SeeVideo(1, Classify), s1);
    var s2 := Meanwhile(Pending, {}, ClassifyAt(SawExtraction, Pending, None));
    assert Put(s1, 1, s2.handlers[1]) == s2;
    h', actions' := Then(h', actions', s1, SeeExtraction(1), s2);
    var s3 := Meanwhile(Pending, {}, ClassifyAt(Loaded, Pending, None));
    assert AfterSeeJob(s2, 1) == s3;
    h', actions' := Then(h', actions', s2, SeeJob(1), s3);
  }

  lemma ClassifyStores(h: seq<State>, actions: seq<Action>) returns (h': seq<State>, actions': seq<Action>)
    requires RunTo(h, actions, Meanwhile(Pending, {}, ClassifyAt(Loaded, Pending, None)))
    ensures RunTo(h', actions', Meanwhile(Processing, {F}, ClassifyAt(Stored, Processing, None)))
  {
    var s3 := Meanwhile(Pending, {}, ClassifyAt(Loaded, Pending, None));
    var s4 := Meanwhile(Processing, {}, ClassifyAt(Loaded, Processing, None));
    assert AfterStart(s3, 1) == s4;
    h', actions' := Then(h, actions, s3, Start(1), s4);
    var s5 := Meanwhile(Processing, {F}, ClassifyAt(Stored, Processing, None));
    assert AfterStore(s4, 1, {F}) == s5;
    h', actions' := Then(h', actions', s4, Store(1, {F}), s5);
  }

  lemma ClassifyCounts(h: seq<State>, actions: seq<Action>) returns (h': seq<State>, actions': seq<Action>)
    requires RunTo(h, actions, Meanwhile(Processing, {F}, ClassifyAt(Stored, Processing, None)))
    ensures RunTo(h', actions', Meanwhile(Processing, {F}, ClassifyAt(OcrCounted, Processing, Some({F}))))
  {
    var s5 := Meanwhile(Processing, {F}, ClassifyAt(Stored, Processing, None));
    var s6 := Meanwhile(Processing, {F}, ClassifyAt(Stored, Processing, Some({F})));
    assert Put(s5, 1, s6.handlers[1]) == s6;
    h', actions' := Then(h, actions, s5, ListFrames(1), s6);
    var s7 := Meanwhile(Processing, {F}, ClassifyAt(OcrCounted, Processing, Some({F})));
    assert Put(s6, 1, s7.handlers[1]) == s7;
    h', actions' := Then(h', actions', s6, CountOcr(1), s7);
  }

  lemma ClassifyFinishes(h: seq<State>, actions: seq<Action>) returns (h': seq<State>, actions': seq<Action>)
    requires RunTo(h, actions, Meanwhile(Processing, {F}, ClassifyAt(OcrCounted, Processing, Some({F}))))
    ensures RunTo(h', actions', CLASSIFIED)
  {
    var s7 := Meanwhile(Processing, {F}, ClassifyAt(OcrCounted, Processing, Some({F})));
    var s8 := Meanwhile(Processing, {F}, ClassifyAt(Counted, Processing, Some({F})));
    assert Put(s7, 1, s8.handlers[1]) == s8;
    h', actions' := Then(h, actions, s7, CountRows(1), s8);
    assert AfterFinish(s8, 1) == CLASSIFIED;
    h', actions' := Then(h', actions', s8, Finish(1), CLASSIFIED);
  }

  /**
   The OCR handler of the last frame stores its row; the row is classified, which completes the video;
   then the OCR handler counts, completes its own job and saves the video as it had read it.
   */
  lemma ReadyOverwritesSuccess()
    ensures exists h: seq<State>, actions: seq<Action> :: Run(h, actions) && IsLost(h[|h| - 1])
  {
    var h, actions := OcrStores();
    h, actions := ClassifyLoads(h, actions);
    h, actions := ClassifyStores(h, actions);
    h, actions := ClassifyCounts(h, actions);
    h, actions := ClassifyFinishes(h, actions);
    var s1 := CLASSIFIED.(handlers := map[0 := OcrAt(Counted, Processing, Some({F}))]);
    h, actions := Then(h, actions, CLASSIFIED, CountOcr(0), s1);
    h, actions := Then(h, actions, s1, Finish(0), AfterFinish(s1, 0));
    assert Run(h, actions) && IsLost(h[|h| - 1]);
  }
}
