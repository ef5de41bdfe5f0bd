/** Values shared by every stage: statuses, rows and domain events of one video. */
module Domain {

  datatype Option<+T> = None | Some(value: T)

  /** Videos, jobs and segments share one status vocabulary. */
  datatype Status = Pending | Processing | Success | Failed

  /** A frame row is identified by its unique key within the video (see FrameTable). */
  datatype FrameKey = FrameKey(segment: nat, index: nat)

  /** The persisted part of a video. `finished` says that a finish time is set. */
  datatype VideoRow = VideoRow(
    status: Status,
    finished: bool,
    contentType: string,
    sizeBytes: int,
    thumbnailKey: string)

  /** The persisted part of a job of any type. */
  datatype JobRow = JobRow(
    status: Status,
    expectedFrames: int,
    ocrCompleted: int,
    expectedSegments: int,
    completedSegments: int)
  {
    predicate SegmentsComplete() {
      expectedSegments > 0 && completedSegments >= expectedSegments
    }
  }

  const NEW_JOB := JobRow(Pending, 0, 0, 0, 0)

  datatype Event =
    | Created
    | IngestRequested(remoteUrl: string)
    | Uploaded
    | UploadExpired
    | Extracting
    | SegmentReady(segment: nat)
    | FramesExtracted(frameCount: nat)
    | ExtractionFailed
    | OcrFrameRequested(frame: FrameKey)
    | OcrProcessing(expected: int, completed: int)
    | FramesOcrCompleted(expected: int, completed: int)
    | OcrFailed(expected: int, completed: int)
    | ClassifyFrameRequested(frame: FrameKey)
    | Classifying(expected: int)
    | FramesClassified(expected: int)
    | ClassifyFailed(expected: int)

  /** How many events of `s` satisfy `p`. */
  function Count(s: seq<Event>, p: Event -> bool): nat {
    if s == [] then 0 else Count(s[..|s| - 1], p) + (if p(s[|s| - 1]) then 1 else 0)
  }

  lemma {:induction false} CountConcat(a: seq<Event>, b: seq<Event>, p: Event -> bool)
    ensures Count(a + b, p) == Count(a, p) + Count(b, p)
  {
    if b == [] {
      assert a + b == a;
    } else {
      assert (a + b)[..|a + b| - 1] == a + b[..|b| - 1];
      CountConcat(a, b[..|b| - 1], p);
    }
  }

  lemma {:induction false} CountNone(s: seq<Event>, p: Event -> bool)
    requires forall e :: e in s ==> !p(e)
    ensures Count(s, p) == 0
  {
    if s != [] {
      CountNone(s[..|s| - 1], p);
    }
  }
}
