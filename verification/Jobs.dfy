/** The job entity, mutated in place and saved as a whole row. */
module Jobs {
  import opened Domain

  class Job {
    var status: Status
    var expectedFrameCount: int
    var ocrCompletedCount: int
    var expectedSegmentCount: int
    var completedSegmentCount: int
    var failureReason: string
    /** Whether the start and the finish time are set. */
    var started: bool
    var finished: bool

    function Row(): JobRow
      reads this
    {
      JobRow(status, expectedFrameCount, ocrCompletedCount, expectedSegmentCount, completedSegmentCount)
    }

    /** The loaded row decides; why it failed and when it ran is not part of `JobRow`. */
    constructor Load(row: JobRow)
      ensures Row() == row
    {
      status, expectedFrameCount, ocrCompletedCount := row.status, row.expectedFrames, row.ocrCompleted;
      expectedSegmentCount, completedSegmentCount := row.expectedSegments, row.completedSegments;
      failureReason, started, finished := *, *, *;
    }

    method MarkProcessing()
      modifies this`status, this`failureReason, this`started, this`finished
      ensures Row() == old(Row()).(status := Processing) && failureReason == "" && started && !finished
    {
      status, failureReason, finished := Processing, "", false;
      if !started {
        started := true;
      }
    }

    method MarkSuccess()
      modifies this`status, this`failureReason, this`started, this`finished
      ensures Row() == old(Row()).(status := Success) && failureReason == "" && started && finished
    {
      status, failureReason := Success, "";
      if !started {
        started := true;
      }
      finished := true;
    }

    method MarkFailed(reason: string)
      modifies this`status, this`failureReason, this`started, this`finished
      ensures Row() == old(Row()).(status := Failed) && failureReason == reason && started && finished
    {
      status, failureReason := Failed, reason;
      if !started {
        started := true;
      }
      finished := true;
    }

    method SetExpectedFrameCount(n: int)
      modifies this`expectedFrameCount
      ensures Row() == old(Row()).(expectedFrames := n)
    {
      expectedFrameCount := n;
    }

    method SetSegmentProgress(expected: int, completed: int)
      modifies this`expectedSegmentCount, this`completedSegmentCount
      ensures Row() == old(Row()).(expectedSegments := expected, completedSegments := completed)
    {
      expectedSegmentCount, completedSegmentCount := expected, completed;
    }

    /** A negative or zero count changes nothing. */
    method AddCompletedSegment(n: int)
      modifies this`completedSegmentCount
      ensures Row() == old(Row()).(completedSegments := old(completedSegmentCount) + if n > 0 then n else 0)
    {
      if n <= 0 {
        return;
      }
      completedSegmentCount := completedSegmentCount + n;
    }

    predicate SegmentsComplete()
      reads this
    {
      expectedSegmentCount > 0 && completedSegmentCount >= expectedSegmentCount
    }

    method SetOcrProgress(expected: int, alreadyCompleted: int)
      modifies this`expectedFrameCount, this`ocrCompletedCount
      ensures Row() == old(Row()).(expectedFrames := expected, ocrCompleted := alreadyCompleted)
    {
      expectedFrameCount, ocrCompletedCount := expected, alreadyCompleted;
    }

    method AddOcrCompleted(n: int)
      modifies this`ocrCompletedCount
      ensures Row() == old(Row()).(ocrCompleted := old(ocrCompletedCount) + if n > 0 then n else 0)
    {
      if n <= 0 {
        return;
      }
      ocrCompletedCount := ocrCompletedCount + n;
    }
  }
}
