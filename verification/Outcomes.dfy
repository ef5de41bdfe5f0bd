/** How the handlers answer when nothing fails around them. */
module Outcomes {
  import opened Domain
  import opened FrameResults
  import opened Pipeline
  import opened HandlerRuns
  import opened Messaging
  import opened RunEffects
  import S = SegmentVideo
  import X = ExtractFrames

  /** A video is split unless it or its job is done, or segments that the job has counted are there. */
  lemma VideoOpens(d: Db)
    ensures S.Opens(d) <==>
      && d.segmentJob.Some? && d.video.status != Success && d.segmentJob.value.status != Success
      && (d.segments == map[] || d.segmentJob.value.expectedSegments <= 0)
  {
  }

  /** A segment is extracted unless it, its job or its video is done, or its video has failed. */
  lemma SegmentOpens(d: Db, s: nat)
    ensures X.Opens(d, s) <==>
      && d.frameJob.Some? && s in d.segments && d.segments[s] != Success
      && d.frameJob.value.status != Success && d.video.status != Failed
  {
  }

  /** A video is given up only without a job or for an unreadable file; it is retried only when cut off. */
  lemma SegmentVideoAnswers(d: Db, split: S.Split)
    ensures var r := S.HandleOutcome(d, split);
      && (r == NonRetryable <==> d.segmentJob.None? || (S.Opens(d) && split.Unreadable?))
      && (r == Retryable <==> S.Opens(d) && split.Interrupted?)
      && r != Unclassified
  {
  }

  /** A segment is given up only if it is unknown or unreadable; it is retried only when cut off. */
  lemma ExtractFramesAnswers(d: Db, s: nat, end: X.End)
    ensures var r := X.HandleOutcome(d, s, end);
      && (r == NonRetryable <==> d.frameJob.None? || s !in d.segments || (X.Opens(d, s) && end.Unreadable?))
      && (r == Retryable <==> X.Opens(d, s) && end.Interrupted?)
      && r != Unclassified
  {
  }

  /** What the table of OCR rows refuses: an unknown frame, or a frame named twice. */
  predicate IsRefused(d: Db, results: seq<OcrResult>) {
    || (exists i :: 0 <= i < |results| && results[i].frame !in d.frames)
    || (exists i, j :: 0 <= i < j < |results| && results[i].frame == results[j].frame)
  }

  lemma RefusedIs(d: Db, results: seq<OcrResult>)
    ensures IsRefused(d, results) <==> !Storable(d, results)
  {
    if !Storable(d, results) && forall i, j :: 0 <= i < j < |results| ==> results[i].frame != results[j].frame {
      var r :| r in results && r.frame !in d.frames;
    }
  }

  /** The OCR handler is done with this video. */
  predicate IsDone(j: Option<JobRow>, d: Db) {
    (j.Some? && j.value.status == Success) || d.video.status == Success
  }

  lemma StoringLeavesVideo(d: Db, results: seq<OcrResult>)
    ensures ResultsStored(d, results).video == d.video
  {
  }

  lemma OcrWorkKeepsFailure(d: Db, results: seq<OcrResult>)
    requires d.ocrJob.Some?
    ensures ResultsStored(OcrStarted(d), results).video.status == Failed ==> d.video.status == Failed
  {
    StoringLeavesVideo(OcrStarted(d), results);
  }

  /** An answer is given up without a frame job, or if it is refused on the last attempt. */
  lemma PersistFrameAnswers(d: Db, results: seq<OcrResult>, lastAttempt: bool)
    ensures var r := PersistFrameOutcome(d, results, lastAttempt);
      var refused := !IsDone(d.ocrJob, d) && IsRefused(d, results);
      && (r == NonRetryable <==> d.frameJob.None? || (refused && lastAttempt))
      && (d.frameJob.Some? && refused && !lastAttempt ==> r == Retryable)
      && (r == Retryable ==> (refused && !lastAttempt) || d.video.status == Failed)
      && r != Unclassified
  {
    RefusedIs(d, results);
    OcrWorkKeepsFailure(WithOcrJob(d), results);
  }

  /** The frame needs the classifier, and it has not answered. */
  predicate IsUnanswered(d: Db, f: FrameKey, answer: Option<seq<ClassifyItem>>) {
    && f in d.frames && !(f in d.classifications && d.classifications[f].IsFinal())
    && answer.None? && f in d.ocr && !Blank(d.ocr[f].text)
  }

  lemma FinalTestAnswers(d: Db)
    ensures var r := TryFinalizeOutcome(d);
      && r != NonRetryable && (r != Ok ==> d.video.status == Failed)
      && (r == Unclassified ==> d.frames == map[]) && (r == Retryable ==> d.frames != map[])
  {
  }

  lemma ClassifyWorkKeepsFailure(d: Db, f: FrameKey, raw: seq<ClassifyItem>)
    ensures var d' := RowStored(ClassifyStarted(d), f, raw);
      (d'.video.status == Failed ==> d.video.status == Failed) && d'.frames == d.frames
  {
  }

  lemma OpenFrameAnswers(d: Db, f: FrameKey, answer: Option<seq<ClassifyItem>>, lastAttempt: bool)
    ensures var r, unanswered := FrameOutcome(d, f, answer, lastAttempt), IsUnanswered(d, f, answer);
      && (r == NonRetryable <==> f !in d.frames || (unanswered && lastAttempt))
      && (unanswered && !lastAttempt ==> r == Retryable)
      && (r == Retryable ==> (unanswered && !lastAttempt) || d.video.status == Failed)
      && (r == Unclassified ==> d.video.status == Failed && d.frames == map[])
  {
    FateIs(f, d.ocr, {});
    var d1 := RowStored(ClassifyStarted(d), f, Raw(answer));
    ClassifyWorkKeepsFailure(d, f, Raw(answer));
    FinalTestAnswers(d);
    FinalTestAnswers(d1);
  }

  /** A frame is given up without a frame job, if it is unknown, or unanswered on the last attempt. */
  lemma HandleFrameAnswers(d: Db, f: FrameKey, answer: Option<seq<ClassifyItem>>, lastAttempt: bool)
    ensures var r := HandleFrameOutcome(d, f, answer, lastAttempt);
      var open := d.frameJob.Some? && !IsDone(d.classifyJob, d);
      var unanswered := open && IsUnanswered(d, f, answer);
      && (r == NonRetryable <==> d.frameJob.None? || (open && f !in d.frames) || (unanswered && lastAttempt))
      && (unanswered && !lastAttempt ==> r == Retryable)
      && (r == Retryable ==> (unanswered && !lastAttempt) || d.video.status == Failed)
      && (r == Unclassified ==> d.video.status == Failed && d.frames == map[])
  {
    OpenFrameAnswers(WithClassifyJob(d), f, answer, lastAttempt);
  }

  /** Only a failed video that is due to complete makes the final test fail. */
  lemma FinalizeAnswers(d: Db)
    ensures var r, open := FinalizeOutcome(d), d.frameJob.Some? && !IsDone(d.classifyJob, d);
      var refused := open && d.video.status == Failed && AllClassified(d);
      && (r == NonRetryable <==> d.frameJob.None?)
      && (r == Retryable <==> refused && d.frames != map[])
      && (r == Unclassified <==> refused && d.frames == map[])
  {
    FinalReadyIs(WithClassifyJob(d));
  }
}
