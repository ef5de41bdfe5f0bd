/** The video aggregate: a status machine that records events. */
module VideoAggregate {
  import opened Domain
  import opened Filenames

  datatype Aggregate = Aggregate(row: VideoRow, events: seq<Event>)

  datatype Reply = Accepted | InvalidTransition

  datatype Command =
    | MarkUploaded(contentType: string, sizeBytes: int)
    | MarkExtractionQueued
    | MarkExtracting
    | RecordSegmentReady(segment: nat)
    | MarkFramesReady(frameCount: nat)
    | MarkExtractionFailed
    | SetThumbnailKey(key: string)
    | MarkOcrProcessing(expected: int, completed: int)
    | RequestOcrFrames(frames: seq<FrameKey>)
    | RequestClassifyFrames(frames: seq<FrameKey>)
    | RecordOcrProgress(expected: int, completed: int)
    | MarkOcrReady(expected: int, completed: int)
    | MarkOcrFailed(expected: int, completed: int)
    | MarkClassifying(expected: int)
    | MarkClassified(expected: int)
    | MarkClassifyFailed(expected: int)
    | MarkUploadExpired
    | PullEvents

  function OcrRequests(frames: seq<FrameKey>): seq<Event> {
    seq(|frames|, i requires 0 <= i < |frames| => OcrFrameRequested(frames[i]))
  }

  function ClassifyRequests(frames: seq<FrameKey>): seq<Event> {
    seq(|frames|, i requires 0 <= i < |frames| => ClassifyFrameRequested(frames[i]))
  }

  /** The reply of a command in a given status. */
  function ReplyTo(status: Status, c: Command): Reply {
    match c
    case MarkUploaded(_, _) => if status.Failed? then InvalidTransition else Accepted
    case MarkFramesReady(_) => if status.Failed? then InvalidTransition else Accepted
    case MarkOcrReady(_, _) => if status.Failed? then InvalidTransition else Accepted
    case MarkClassified(_) => if status.Failed? then InvalidTransition else Accepted
    case MarkExtractionFailed => if status.Success? then InvalidTransition else Accepted
    case MarkOcrFailed(_, _) => if status.Success? then InvalidTransition else Accepted
    case MarkClassifyFailed(_) => if status.Success? then InvalidTransition else Accepted
    case MarkUploadExpired => if status.Pending? then Accepted else InvalidTransition
    case _ => Accepted
  }

  /** The status after a command. */
  function NextStatus(status: Status, c: Command): Status {
    match c
    case MarkUploaded(_, _) => if status.Pending? then Processing else status
    case MarkExtractionQueued => if status.Pending? then Processing else status
    case MarkExtracting => if status.Success? then status else Processing
    case MarkOcrProcessing(_, _) => if status.Success? then status else Processing
    case MarkClassifying(_) => if status.Success? then status else Processing
    case MarkFramesReady(_) => if status.Pending? then Processing else status
    case MarkOcrReady(_, _) => if status.Pending? then Processing else status
    case MarkExtractionFailed => if status.Success? then status else Failed
    case MarkOcrFailed(_, _) => if status.Success? then status else Failed
    case MarkClassifyFailed(_) => if status.Success? then status else Failed
    case MarkClassified(_) => if status.Pending? || status.Processing? then Success else status
    case MarkUploadExpired => if status.Pending? then Failed else status
    case _ => status
  }

  /** The events a command records. */
  function Records(status: Status, c: Command): seq<Event> {
    var live := status.Pending? || status.Processing?;
    match c
    case MarkUploaded(_, _) => if status.Pending? then [Uploaded] else []
    case MarkExtracting => if status.Success? then [] else [Extracting]
    case RecordSegmentReady(s) => [SegmentReady(s)]
    case MarkFramesReady(n) => if live then [FramesExtracted(n)] else []
    case MarkExtractionFailed => if live then [ExtractionFailed] else []
    case MarkOcrProcessing(e, k) => if status.Success? then [] else [OcrProcessing(e, k)]
    case RequestOcrFrames(frames) => OcrRequests(frames)
    case RequestClassifyFrames(frames) => ClassifyRequests(frames)
    case RecordOcrProgress(e, k) => if status.Processing? then [OcrProcessing(e, k)] else []
    case MarkOcrReady(e, k) => if live then [FramesOcrCompleted(e, k)] else []
    case MarkOcrFailed(e, k) => if live then [OcrFailed(e, k)] else []
    case MarkClassifying(e) => if status.Success? then [] else [Classifying(e)]
    case MarkClassified(e) => if live then [FramesClassified(e)] else []
    case MarkClassifyFailed(e) => if live then [ClassifyFailed(e)] else []
    case MarkUploadExpired => if status.Pending? then [UploadExpired] else []
    case _ => []
  }

  /** The persisted fields after a command. */
  function NextRow(r: VideoRow, c: Command): VideoRow {
    var next := r.(status := NextStatus(r.status, c));
    match c
    case MarkUploaded(contentType, sizeBytes) =>
      next.(contentType := if contentType != "" then contentType else r.contentType,
            sizeBytes := if sizeBytes > 0 then sizeBytes else r.sizeBytes)
    case SetThumbnailKey(key) => if key == "" then next else next.(thumbnailKey := key)
    case MarkClassified(_) => next.(finished := r.finished || r.status.Pending? || r.status.Processing?)
    case _ => next
  }

  function Apply(a: Aggregate, c: Command): Aggregate {
    Aggregate(NextRow(a.row, c), if c.PullEvents? then [] else a.events + Records(a.row.status, c))
  }

  // ----- The aggregate as the program has it -----

  /**
   Domain events are recorded until they are pulled into the outbox.  The class mutates its fields as
   the program does; each of its methods is proved against `Apply`, and what the aggregate promises
   over every history of calls is proved about `Apply`.
   */
  class Video {
    var status: Status
    var finished: bool
    var contentType: string
    var sizeBytes: int
    var thumbnailKey: string
    var events: seq<Event>

    function Row(): VideoRow
      reads this
    {
      VideoRow(status, finished, contentType, sizeBytes, thumbnailKey)
    }

    ghost function State(): Aggregate
      reads this
    {
      Aggregate(Row(), events)
    }

    /** A video whose upload was granted to a user. */
    constructor Presigned(contentType: string, sizeBytes: int)
      ensures State() == Aggregate(VideoRow(Pending, false, contentType, sizeBytes, ""), [Created])
    {
      status, finished, thumbnailKey := Pending, false, "";
      this.contentType, this.sizeBytes := contentType, sizeBytes;
      events := [Created];
    }

    /** A video to be fetched from a remote URL. */
    constructor Webhook(contentType: string, sizeBytes: int, remoteUrl: string)
      ensures State() ==
        Aggregate(VideoRow(Pending, false, contentType, sizeBytes, ""), [Created, IngestRequested(remoteUrl)])
    {
      status, finished, thumbnailKey := Pending, false, "";
      this.contentType, this.sizeBytes := contentType, sizeBytes;
      events := [Created, IngestRequested(remoteUrl)];
    }

    /** A video read back from its row: nothing is buffered. */
    constructor Load(row: VideoRow)
      ensures State() == Aggregate(row, [])
    {
      status, finished := row.status, row.finished;
      contentType, sizeBytes, thumbnailKey := row.contentType, row.sizeBytes, row.thumbnailKey;
      events := [];
    }

    method Pull() returns (pulled: seq<Event>)
      modifies this`events
      ensures pulled == old(events) && State() == Apply(old(State()), PullEvents)
    {
      pulled := events;
      events := [];
    }

    method MarkUploaded(contentType: string, sizeBytes: int) returns (r: Reply)
      modifies this
      ensures State() == Apply(old(State()), Command.MarkUploaded(contentType, sizeBytes))
      ensures r == ReplyTo(old(status), Command.MarkUploaded(contentType, sizeBytes))
    {
      if contentType != "" {
        this.contentType := contentType;
      }
      if sizeBytes > 0 {
        this.sizeBytes := sizeBytes;
      }
      r := Accepted;
      match status
      case Pending =>
        status := Processing;
        Record(Uploaded);
      case Processing =>
      case Success =>
      case Failed => r := InvalidTransition;
    }

    method MarkExtractionQueued() returns (r: Reply)
      modifies this
      ensures State() == Apply(old(State()), Command.MarkExtractionQueued)
      ensures r == ReplyTo(old(status), Command.MarkExtractionQueued)
    {
      r := Accepted;
      if status == Pending {
        status := Processing;
      }
    }

    method MarkExtracting() returns (r: Reply)
      modifies this
      ensures State() == Apply(old(State()), Command.MarkExtracting)
      ensures r == ReplyTo(old(status), Command.MarkExtracting)
    {
      r := Accepted;
      if status != Success {
        status := Processing;
        Record(Extracting);
      }
    }

    method RecordSegmentReady(segment: nat)
      modifies this
      ensures State() == Apply(old(State()), Command.RecordSegmentReady(segment))
    {
      Record(SegmentReady(segment));
    }

    method MarkFramesReady(frameCount: nat) returns (r: Reply)
      modifies this
      ensures State() == Apply(old(State()), Command.MarkFramesReady(frameCount))
      ensures r == ReplyTo(old(status), Command.MarkFramesReady(frameCount))
    {
      r := Accepted;
      match status
      case Pending =>
        status := Processing;
        Record(FramesExtracted(frameCount));
      case Processing => Record(FramesExtracted(frameCount));
      case Success =>
      case Failed => r := InvalidTransition;
    }

    method MarkExtractionFailed() returns (r: Reply)
      modifies this
      ensures State() == Apply(old(State()), Command.MarkExtractionFailed)
      ensures r == ReplyTo(old(status), Command.MarkExtractionFailed)
    {
      if status == Success {
        return InvalidTransition;
      }
      if status == Failed {
        return Accepted;
      }
      status := Failed;
      Record(ExtractionFailed);
      r := Accepted;
    }

    method SetThumbnailKey(key: string)
      modifies this
      ensures State() == Apply(old(State()), Command.SetThumbnailKey(key))
    {
      if key == "" || thumbnailKey == key {
        return;
      }
      thumbnailKey := key;
    }

    method MarkOcrProcessing(expected: int, completed: int) returns (r: Reply)
      modifies this
      ensures State() == Apply(old(State()), Command.MarkOcrProcessing(expected, completed))
      ensures r == ReplyTo(old(status), Command.MarkOcrProcessing(expected, completed))
    {
      r := Accepted;
      if status != Success {
        status := Processing;
        Record(OcrProcessing(expected, completed));
      }
    }

    method RequestOcrFrames(frames: seq<FrameKey>)
      modifies this
      ensures State() == Apply(old(State()), Command.RequestOcrFrames(frames))
    {
      ghost var before := events;
      for i := 0 to |frames|
        invariant events == before + OcrRequests(frames[..i])
        invariant Row() == old(Row())
      {
        Record(OcrFrameRequested(frames[i]));
        assert OcrRequests(frames[..i + 1]) == OcrRequests(frames[..i]) + [OcrFrameRequested(frames[i])];
      }
      assert frames[..|frames|] == frames;
    }

    method RequestClassifyFrames(frames: seq<FrameKey>)
      modifies this
      ensures State() == Apply(old(State()), Command.RequestClassifyFrames(frames))
    {
      ghost var before := events;
      for i := 0 to |frames|
        invariant events == before + ClassifyRequests(frames[..i])
        invariant Row() == old(Row())
      {
        Record(ClassifyFrameRequested(frames[i]));
        assert ClassifyRequests(frames[..i + 1]) == ClassifyRequests(frames[..i]) + [ClassifyFrameRequested(frames[i])];
      }
      assert frames[..|frames|] == frames;
    }

    method RecordOcrProgress(expected: int, completed: int) returns (r: Reply)
      modifies this
      ensures State() == Apply(old(State()), Command.RecordOcrProgress(expected, completed))
      ensures r == ReplyTo(old(status), Command.RecordOcrProgress(expected, completed))
    {
      r := Accepted;
      if status == Processing {
        Record(OcrProcessing(expected, completed));
      }
    }

    method MarkOcrReady(expected: int, completed: int) returns (r: Reply)
      modifies this
      ensures State() == Apply(old(State()), Command.MarkOcrReady(expected, completed))
      ensures r == ReplyTo(old(status), Command.MarkOcrReady(expected, completed))
    {
      if status == Success {
        return Accepted;
      }
      if status == Failed {
        return InvalidTransition;
      }
      status := Processing;
      Record(FramesOcrCompleted(expected, completed));
      r := Accepted;
    }

    method MarkOcrFailed(expected: int, completed: int) returns (r: Reply)
      modifies this
      ensures State() == Apply(old(State()), Command.MarkOcrFailed(expected, completed))
      ensures r == ReplyTo(old(status), Command.MarkOcrFailed(expected, completed))
    {
      if status == Success {
        return InvalidTransition;
      }
      if status == Failed {
        return Accepted;
      }
      status := Failed;
      Record(OcrFailed(expected, completed));
      r := Accepted;
    }

    method MarkClassifying(expected: int) returns (r: Reply)
      modifies this
      ensures State() == Apply(old(State()), Command.MarkClassifying(expected))
      ensures r == ReplyTo(old(status), Command.MarkClassifying(expected))
    {
      r := Accepted;
      if status != Success {
        status := Processing;
        Record(Classifying(expected));
      }
    }

    method MarkClassified(expected: int) returns (r: Reply)
      modifies this
      ensures State() == Apply(old(State()), Command.MarkClassified(expected))
      ensures r == ReplyTo(old(status), Command.MarkClassified(expected))
    {
      if status == Success {
        return Accepted;
      }
      if status == Failed {
        return InvalidTransition;
      }
      status := Success;
      finished := true;
      Record(FramesClassified(expected));
      r := Accepted;
    }

    method MarkClassifyFailed(expected: int) returns (r: Reply)
      modifies this
      ensures State() == Apply(old(State()), Command.MarkClassifyFailed(expected))
      ensures r == ReplyTo(old(status), Command.MarkClassifyFailed(expected))
    {
      if status == Success {
        return InvalidTransition;
      }
      if status == Failed {
        return Accepted;
      }
      status := Failed;
      Record(ClassifyFailed(expected));
      r := Accepted;
    }

    method MarkUploadExpired() returns (r: Reply)
      modifies this
      ensures State() == Apply(old(State()), Command.MarkUploadExpired)
      ensures r == ReplyTo(old(status), Command.MarkUploadExpired)
    {
      if status != Pending {
        return InvalidTransition;
      }
      status := Failed;
      Record(UploadExpired);
      r := Accepted;
    }

    method Record(e: Event)
      modifies this`events
      ensures events == old(events) + [e]
    {
      events := events + [e];
    }
  }

  // ----- Creation -----

  datatype CreationError = InvalidFilename | UnsupportedType

  function NewVideo(lib: Library, name: string, contentType: string, sizeBytes: int): VideoRow {
    VideoRow(Pending, false, ContentTypeFromFilename(lib, name, contentType), sizeBytes, "")
  }

  /** A new video waits, with what the client says of it. */
  lemma NewVideoIs(lib: Library, name: string, contentType: string, sizeBytes: int)
    ensures var r := NewVideo(lib, name, contentType, sizeBytes);
      && r.status == Pending && !r.finished && r.sizeBytes == sizeBytes && r.thumbnailKey == ""
      && r.contentType != "" && (contentType != "" ==> r.contentType == contentType)
  {
    ContentTypesAre(lib, name, contentType);
  }

  /** Neither the name nor the content type says that it is a video. */
  predicate Unsupported(lib: Library, name: string, contentType: string) {
    !IsVideoFilename(lib, name) && !IsVideoContentType(lib, contentType)
  }

  function PresignedError(lib: Library, filename: string, contentType: string): Option<CreationError> {
    var name := Base(filename);
    if name == "." || name == "/" then Some(InvalidFilename)
    else if Unsupported(lib, name, contentType) then Some(UnsupportedType)
    else None
  }

  method NewPresignedVideo(lib: Library, filename: string, contentType: string, sizeBytes: int)
    returns (video: Video?, error: Option<CreationError>)
    ensures error == PresignedError(lib, filename, contentType) && (video == null <==> error.Some?)
    ensures error == Some(InvalidFilename) <==> Base(filename) == "." || Base(filename) == "/"
    ensures error == Some(UnsupportedType) <==>
      Base(filename) != "." && Base(filename) != "/"
      && !IsVideoFilename(lib, Base(filename)) && !IsVideoContentType(lib, contentType)
    ensures video != null ==>
      video.status == Pending && !video.finished && video.sizeBytes == sizeBytes && video.events == [Created]
    ensures video != null ==>
      fresh(video) && video.State() == Aggregate(NewVideo(lib, Base(filename), contentType, sizeBytes), [Created])
  {
    BaseIsAName(filename);
    var name := Base(filename);
    if name == "" || name == "." || name == "/" {
      return null, Some(InvalidFilename);
    }
    if !IsVideoFilename(lib, name) && !IsVideoContentType(lib, contentType) {
      return null, Some(UnsupportedType);
    }
    video := new Video.Presigned(ContentTypeFromFilename(lib, name, contentType), sizeBytes);
    error := None;
  }

  /** A name that says nothing is replaced by that of the stored object. */
  function WebhookName(filename: string): string {
    if Base(filename) == "." then "original.mp4" else Base(filename)
  }

  method NewWebhookVideo(lib: Library, filename: string, contentType: string, remoteUrl: string, sizeBytes: int)
    returns (video: Video?, error: Option<CreationError>)
    ensures error == if Unsupported(lib, WebhookName(filename), contentType) then Some(UnsupportedType) else None
    ensures var name := if Base(filename) == "." then "original.mp4" else Base(filename);
      error == (if IsVideoFilename(lib, name) || IsVideoContentType(lib, contentType) then None
                else Some(UnsupportedType))
    ensures video == null <==> error.Some?
    ensures video != null ==>
      && fresh(video)
      && video.events == [Created, IngestRequested(remoteUrl)]
      && video.Row() == NewVideo(lib, WebhookName(filename), contentType, sizeBytes)
  {
    BaseIsAName(filename);
    var name := Base(filename);
    if name == "" || name == "." {
      name := "original.mp4";
    }
    if !IsVideoFilename(lib, name) && !IsVideoContentType(lib, contentType) {
      return null, Some(UnsupportedType);
    }
    video := new Video.Webhook(ContentTypeFromFilename(lib, name, contentType), sizeBytes, remoteUrl);
    error := None;
  }

  // ----- What each command does -----

  predicate Works(c: Command) { c.MarkExtracting? || c.MarkOcrProcessing? || c.MarkClassifying? }

  predicate Reports(c: Command) { c.MarkFramesReady? || c.MarkOcrReady? }

  predicate Fails(c: Command) { c.MarkExtractionFailed? || c.MarkOcrFailed? || c.MarkClassifyFailed? }

  predicate IsLive(s: Status) { s == Pending || s == Processing }

  /** Where every command leads; success is never left, and reports move only a pending video. */
  lemma StatusAfter(s: Status, c: Command)
    ensures s == Success ==> NextStatus(s, c) == Success
    ensures s != Success && Works(c) ==> NextStatus(s, c) == Processing
    ensures s != Success && Fails(c) ==> NextStatus(s, c) == Failed
    ensures c.MarkUploaded? || c.MarkExtractionQueued? || Reports(c) ==>
      NextStatus(s, c) == if s == Pending then Processing else s
    ensures c.MarkClassified? ==> NextStatus(s, c) == if IsLive(s) then Success else s
    ensures c.MarkUploadExpired? ==> NextStatus(s, c) == if s == Pending then Failed else s
    ensures c.RecordSegmentReady? || c.SetThumbnailKey? || c.PullEvents? ==> NextStatus(s, c) == s
    ensures c.RecordOcrProgress? || c.RequestOcrFrames? || c.RequestClassifyFrames? ==> NextStatus(s, c) == s
  {
  }

  /** A failed video refuses what would complete something, a successful one what would fail it. */
  lemma RefusedIff(s: Status, c: Command)
    ensures ReplyTo(s, c) == InvalidTransition <==>
      || (s == Failed && (c.MarkUploaded? || c.MarkClassified? || Reports(c)))
      || (s == Success && Fails(c))
      || (s != Pending && c.MarkUploadExpired?)
  {
  }

  /** The event a command records, with the data it was given; None for the others. */
  predicate Tells(c: Command, e: Event) {
    match c
    case MarkUploaded(_, _) => e == Uploaded
    case MarkUploadExpired => e == UploadExpired
    case MarkExtracting => e == Extracting
    case RecordSegmentReady(g) => e == SegmentReady(g)
    case MarkFramesReady(n) => e == FramesExtracted(n)
    case MarkExtractionFailed => e == ExtractionFailed
    case MarkOcrProcessing(n, k) => e == OcrProcessing(n, k)
    case RecordOcrProgress(n, k) => e == OcrProcessing(n, k)
    case MarkOcrReady(n, k) => e == FramesOcrCompleted(n, k)
    case MarkOcrFailed(n, k) => e == OcrFailed(n, k)
    case MarkClassifying(n) => e == Classifying(n)
    case MarkClassified(n) => e == FramesClassified(n)
    case MarkClassifyFailed(n) => e == ClassifyFailed(n)
    case _ => false
  }

  /** When a command is heard: work unless the video is in success, endings while it is live. */
  predicate IsHeard(s: Status, c: Command) {
    || c.RecordSegmentReady?
    || (s == Pending && (c.MarkUploaded? || c.MarkUploadExpired?))
    || (s == Processing && c.RecordOcrProgress?)
    || (s != Success && Works(c))
    || (IsLive(s) && (Reports(c) || Fails(c) || c.MarkClassified?))
  }

  /** A command that is heard records one event with its data, a request one event for each frame, others none. */
  lemma RecordsTell(s: Status, c: Command)
    ensures IsHeard(s, c) ==> |Records(s, c)| == 1 && Tells(c, Records(s, c)[0])
    ensures c.RequestOcrFrames? || c.RequestClassifyFrames? ==> |Records(s, c)| == |c.frames|
    ensures c.RequestOcrFrames? ==>
      forall i :: 0 <= i < |c.frames| ==> Records(s, c)[i] == OcrFrameRequested(c.frames[i])
    ensures c.RequestClassifyFrames? ==>
      forall i :: 0 <= i < |c.frames| ==> Records(s, c)[i] == ClassifyFrameRequested(c.frames[i])
    ensures !IsHeard(s, c) && !c.RequestOcrFrames? && !c.RequestClassifyFrames? ==> Records(s, c) == []
  {
  }

  /** The other fields: a confirmation brings its data where they make sense, success the finish time. */
  lemma FieldsAfter(r: VideoRow, c: Command)
    ensures var r' := NextRow(r, c);
      && r'.status == NextStatus(r.status, c)
      && r'.contentType == (if c.MarkUploaded? && c.contentType != "" then c.contentType else r.contentType)
      && r'.sizeBytes == (if c.MarkUploaded? && c.sizeBytes > 0 then c.sizeBytes else r.sizeBytes)
      && r'.thumbnailKey == (if c.SetThumbnailKey? && c.key != "" then c.key else r.thumbnailKey)
      && r'.finished == (r.finished || (c.MarkClassified? && IsLive(r.status)))
  {
  }

  // ----- What the aggregate promises over every history -----

  /** Runs commands one after the other, keeping what was pulled. */
  function Run(a: Aggregate, cs: seq<Command>): (Aggregate, seq<Event>) {
    if cs == [] then (a, [])
    else
      var (b, pulled) := Run(a, cs[..|cs| - 1]);
      var c := cs[|cs| - 1];
      (Apply(b, c), if c.PullEvents? then pulled + b.events else pulled)
  }

  /** Everything the commands recorded, in order, whether pulled or not. */
  function Recorded(a: Aggregate, cs: seq<Command>): seq<Event> {
    if cs == [] then []
    else
      var init := cs[..|cs| - 1];
      Recorded(a, init) + Records(Run(a, init).0.row.status, cs[|cs| - 1])
  }

  lemma CommandKeepsEvents(b: Aggregate, pulled: seq<Event>, c: Command)
    ensures (if c.PullEvents? then pulled + b.events else pulled) + Apply(b, c).events
         == (pulled + b.events) + Records(b.row.status, c)
  {
  }

  /** No event is lost, duplicated or reordered between the calls and the outbox. */
  lemma {:induction false} PulledThenBufferedIsRecorded(a: Aggregate, cs: seq<Command>)
    ensures Run(a, cs).1 + Run(a, cs).0.events == a.events + Recorded(a, cs)
  {
    if cs != [] {
      var init, c := cs[..|cs| - 1], cs[|cs| - 1];
      PulledThenBufferedIsRecorded(a, init);
      CommandKeepsEvents(Run(a, init).0, Run(a, init).1, c);
    }
  }

  predicate IsUploadOutcome(e: Event) {
    e.Uploaded? || e.UploadExpired?
  }

  predicate IsClassified(e: Event) {
    e.FramesClassified?
  }

  ghost predicate Fresh(a: Aggregate) {
    && a.row.status == Pending && !a.row.finished
    && Count(a.events, IsUploadOutcome) == 0 && Count(a.events, IsClassified) == 0
  }

  lemma RecordsAtMostOneOutcome(status: Status, c: Command)
    ensures Count(Records(status, c), IsUploadOutcome)
      <= (if status.Pending? && !NextStatus(status, c).Pending? then 1 else 0)
    ensures Count(Records(status, c), IsClassified) ==
      (if NextStatus(status, c).Success? && !status.Success? then 1 else 0)
  {
    var r := Records(status, c);
    if c.RequestOcrFrames? || c.RequestClassifyFrames? || r == [] {
      CountNone(r, IsUploadOutcome);
      CountNone(r, IsClassified);
    } else {
      assert r == [r[0]];
      assert r[..0] == [];
    }
  }

  /**
   Over every history from a fresh video: the finish time is set exactly on success,
   upload and expiry together happen at most once, and classification is announced
   exactly as often as the video is in success (never twice).
   */
  lemma {:induction false} HistoryOf(a: Aggregate, cs: seq<Command>)
    requires Fresh(a)
    ensures var row := Run(a, cs).0.row; var all := Recorded(a, cs);
      && (row.finished <==> row.status == Success)
      && Count(all, IsUploadOutcome) <= (if row.status.Pending? then 0 else 1)
      && Count(all, IsClassified) == (if row.status.Success? then 1 else 0)
  {
    if cs != [] {
      var init, c := cs[..|cs| - 1], cs[|cs| - 1];
      HistoryOf(a, init);
      var status := Run(a, init).0.row.status;
      RecordsAtMostOneOutcome(status, c);
      CountConcat(Recorded(a, init), Records(status, c), IsUploadOutcome);
      CountConcat(Recorded(a, init), Records(status, c), IsClassified);
    }
  }

  /** Pending is never re-entered and success is never left, however long the history. */
  lemma {:induction false} StatusOnlyMovesForward(a: Aggregate, early: seq<Command>, late: seq<Command>)
    ensures Run(a, early).0.row.status != Pending ==> Run(a, early + late).0.row.status != Pending
    ensures Run(a, early).0.row.status == Success ==> Run(a, early + late).0.row.status == Success
  {
    if late == [] {
      assert early + late == early;
    } else {
      assert (early + late)[..|early + late| - 1] == early + late[..|late| - 1];
      StatusOnlyMovesForward(a, early, late[..|late| - 1]);
    }
  }

  /** Failure is not final: a failed video goes back to processing on exactly three commands. */
  lemma FailedIsLeftExactlyBy(c: Command)
    ensures NextStatus(Failed, c) != Failed <==> c.MarkExtracting? || c.MarkOcrProcessing? || c.MarkClassifying?
    ensures NextStatus(Failed, c) != Failed ==> NextStatus(Failed, c) == Processing
  {
  }
}
