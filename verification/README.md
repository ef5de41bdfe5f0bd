# Verified model of the video pipeline

A Dafny model of the service that turns an uploaded video into classified frames: segments are
cut, frames extracted, texts recognised and texts classified, each stage a worker driven by
events that are stored in an outbox and delivered with retries. The model follows the Go code
statement by statement where the code decides something, and proves what the stages promise
together.

`dafny verify dfyconfig.toml` checks everything.

## Structure

| part | files |
|---|---|
| entities changed in place | `VideoAggregate`, `Jobs` |
| rows of one video and the transactions on them | `Domain`, `FrameResults`, `Pipeline` |
| what holds after every transaction | `PipelineSafety` |
| the handlers, with reads and commits that may fail at any point | `Store`, `OcrFrames`, `ClassifyFrames`, `ExtractFrames`, `SegmentVideo`, `Uploads` |
| rows when handlers save stale copies | `StaleSaves`, `StaleHandlers` |
| what transactions and whole runs change, and how runs end | `Effects`, `HandlerRuns`, `RunEffects`, `Outcomes` |
| completion | `Quiescence`, `MissedCompletion` |
| segments announced and counted under interleaving | `SplitOnce`, `SegmentCounter`, `SharedSegments`, `LostIncrement` |
| delivery: outbox, relay, deduplication, retries | `Messaging`, `Outbox`, `Dedup`, `Consumer`, `DeliveryProtocol`, `RelayRefinement` |
| storing frames concurrently | `FramePool`, `FrameTable` |
| cutting and choosing | `SegmentPlan`, `Splitter`, `JpegStream`, `FrameSelection` |
| small algorithms | `LikeEscape`, `Luhn`, `StorageKeys`, `Filenames`, `Arith` |
| accesses that may fail | `Faults` |

Two granularities are used. In `Pipeline` a transaction is atomic and acts on current rows, but a
handler may stop after any of its transactions; this is where all pipeline-wide results live. In
`SegmentCounter`, `SharedSegments`, `SplitOnce`, `StaleSaves`, `StaleHandlers`, `FramePool` and
`DeliveryProtocol` the steps of concurrent workers interleave, most of them on stale copies.

Stores, tables and brokers may fail at any access, and count how often they did. The contracts of the
handlers say what is left when no access failed, and what may be left when a read or a commit did. Accesses
to the processed-events table, sending to the broker and marking events as published may also report an
error although they have taken effect; for a handler's own transaction that is excluded, see below. Where a
worker may be killed in the middle of a delivery, a flag `mayDie` says so.

## Where the code gives less than one might expect

* Nothing re-triggers completion when extraction finishes last. `CompletionIffWorkIsQueued` gives the
  exact condition, `CompletionCanBeMissed` a run.
* Handlers save the whole video row as they loaded it. A save of an older copy takes back what others
  did in between: an announced success is lost (`SuccessCanBeLost`), a confirmed upload expires
  (`ConfirmedUploadCanExpire`, `ConfirmationIsOverwritten`). `SuccessIsKeptIff` and
  `ConfirmedSurvivesIff` give the exact conditions, and as long as only current copies are saved
  everything proved about the aggregate holds (`CurrentSavesSerialize`).
* The same happens between the handlers of one frame: the OCR handler of the last frame may save its row
  of the video after classification has completed it (`ReadyOverwritesSuccess`). Success never comes too
  early by this (`StaleCompletionIsSafe`), but nothing repairs a lost one (`OutcomeIsFinal`, `LostIsFinal`).
* A failing extraction worker writes its whole job row back and can erase increments of others. Safety is
  not affected (`CounterIsSafe`), and completion is not either, because a failed segment is never
  announced again (`SegmentsAreAnnouncedOnce`, `RepublishIsDead`, `NoAnnouncementCompletes`): the branch
  that would do so needs a run of the split handler that finds segments, and the run that stored them has
  kept its mark. `CompletesIffLastFailureWasCurrent` and `AnIncrementCanBeLost` say what would happen.
* The comment on the deduplication wrapper promises at most one processing per event and handler, and
  that holds. But an error without a class keeps its mark, so does a worker that is killed between
  marking and the end of the handler, and so does an insertion that reports an error after it has taken
  effect: each time the next delivery acknowledges the event unhandled. `AcknowledgedMeansHandledIff` is
  the exact condition; `UnclassifiedErrorIsSwallowed`, `KilledRunIsSwallowed`, `FailedMarkIsSwallowed` and
  `AKilledWorkerCanLoseAnEvent` are the runs. Errors without a class escape
  from the two segment transactions (`SegmentVideo.Handle`). The other two places that can return one, in
  extraction recovery and in classification without frames, are proved unreachable in the histories
  of the pipeline (`ExtractFrames.RawErrorIsDead`, `ClassifyFrames.RawErrorIsDead`).
* Events are first sent in order of creation only as far as they were in the outbox when a batch was
  fetched: `SendsFollowCreation` and `AnEventCanBeOvertaken`; with one relay, as the worker has it, this is
  exact (`OneRelayFollowsCreation`).
* `failed` is not final: `FailedIsLeftExactlyBy`.

## Assumptions

* One video at a time; a frame, segment or job is known by its unique key within the video, and a
  frame id by the frame's key (`FrameTable` and `FramePool` show why an id never changes).
* A handler's transaction on the rows, or the storing of events, that reports an error has had no effect.
* One worker at a time holds a segment. Nothing locks a segment row, so this rests on one announcement for
  each segment (`SegmentsAreAnnouncedOnce`) and one run of a handler at a time for each event
  (`OneRunAtATime`); `SharedSegments` says what the counter would be otherwise.
* The uploaded event is stored at most once for a video: confirmations are serialised by a lock, and
  `HistoryOf` counts it.
* The database rejects OCR and classification rows of unknown frames and batches that name a frame
  twice; transactions are atomic.
* Publishing to the dead-letter queue succeeds. The broker counts rejections in the header as its
  dead-lettering rules say, and redelivers a copy whose worker was killed with its header unchanged.
  Releasing a mark may fail; that is one of the ways a mark is kept.
* `Consumer.Retire` follows the only copy of an event; `DeliveryProtocol` has duplicates. A worker killed
  between the publication to the dead-letter queue and its acknowledgement counts as killed; the second
  entry in that queue is not tracked.
* The handlers registered for one event type have different names, as in every container.
* A classification handler is only called for an event that was stored.
* The extractor reports success only after emitting a frame, and numbers frames from zero.
* In `Quiescence`, extraction is split into its transactions so that the stages overlap; the other
  handlers are atomic. An OCR request is answered one or more times, with any rows.
* In `Quiescence` and `Pipeline` the frames of a segment are persisted one after the other;
  `FramePool` treats the concurrency.
* Arithmetic on durations, rates and confidence is over the reals.

## Model

| member | source | states |
|---|---|---|
| `PipelineSafety.CompletionSafety` | internal/application/command/video/classify_frames.go:141-180 | in every state of every history of transactions, whatever stopped or was redelivered: video success ⇔ classify job success; success implies extraction complete, every segment successful, at least one frame, and an OCR row and a classification row for every frame; extraction and classification are announced exactly once each |
| `PipelineSafety.PipelinePrecedence` | internal/application/command/video/segment_video.go:253-297 | a frame job exists only behind a successful segment job with segments, an OCR job only behind a frame job, a classify job only behind an OCR job; the frame job is in success exactly when all segments are; OCR success means extraction is complete and every frame has an OCR row |
| `PipelineSafety.CompletionIsStable` | internal/application/command/video/ocr_frames.go:51-97 | from any state to any later one: once extraction is complete the frames and segments never change, video and OCR success are never left, a final classification row is never overwritten, and the outbox is only appended to; this is about transactions on current rows, StaleSaves has the others |
| `PipelineSafety.CountsDecideCoverage` | internal/application/command/video/classify_frames.go:148-172 | comparing row counts, as the completion test does, is the same as checking frame by frame that every frame has a row |
| `PipelineSafety.CompletionCounts` | internal/application/command/video/extract_frames.go:394-410 | the increment makes the job complete exactly when the committed segment was the last unsuccessful one |
| `PipelineSafety.FinalizeExtractionIsDead` | internal/application/command/video/extract_frames.go:449-486 | under the invariant the recovery branch for a segment found already done never has anything to finalise |
| `PipelineSafety.EveryStateIsSafe` | internal/application/command/video/extract_frames.go:361-447 | the invariant behind these results (jobs, counters, rows by frame, outbox) holds after every transaction of every history |
| `Quiescence.QuiescentCompletion` | internal/application/command/video/classify_frames.go:64-180 | in runs without failures, for every order of messages and every duplication of OCR requests and answers (duplicates of the other messages are swallowed by deduplication): when no message is left, extraction is complete and every frame has both rows, and the video is in success exactly when some OCR or classification message was handled after extraction had completed |
| `Quiescence.CompletionIffWorkIsQueued` | internal/application/command/video/classify_frames.go:141-150 | the exact condition at the moment extraction completes: the video ends in success if and only if an OCR or classification message of some frame is still queued then or an OCR request is sent again later |
| `Quiescence.RunIsHealthy` | internal/application/command/video/ocr_frames.go:82-96 | in every state of such a run every missing row is promised by a queued message and every queued message has the rows it needs |
| `MissedCompletion.CompletionCanBeMissed` | cmd/worker/di/container.go:142-146 | a concrete run without failures that ends with every row in place, no message left and the video still processing, because nothing re-triggers completion when extraction finishes last |
| `SegmentVideo.Handle` | internal/application/command/video/segment_video.go:61-105 | a run without an error leaves exactly the split (or the announced pending segments); without a failing access the outcome is determined, and a split that fails leaves the segment job and the video failed with the failure announced last; a failing read leaves the rows as they were, with a retry; a failing commit before the split leaves them too, one in the failure transaction leaves the split started, and one in the two transactions that announce segments is an error without a class; an error with a class means that no segment has been stored |
| `SplitOnce.SegmentsAreAnnouncedOnce` | internal/application/command/video/segment_video.go:61-105 | for every interleaving of duplicated, redelivered, killed and retried copies of the uploaded event with the transactions of all other handlers: every segment is announced exactly once |
| `SplitOnce.RepublishIsDead` | internal/application/command/video/segment_video.go:299-318 | in no such run is the branch that announces segments again taken |
| `SegmentVideo.MarkExtracting` | internal/application/command/video/segment_video.go:125-146 | commits the start of segmentation once; a job already processing is left alone |
| `SegmentVideo.CommitSegments` | internal/application/command/video/segment_video.go:253-297 | segments, both jobs and the announcements are committed together or not at all |
| `SegmentVideo.FrameJob` | internal/application/command/video/segment_video.go:273-291 | a frame job found pending starts processing, a new one stays pending, and counted segments are kept |
| `SegmentVideo.RecordPending` | internal/application/command/video/segment_video.go:305-311 | exactly the pending and failed segments are announced again, in listing order |
| `SegmentVideo.PendingsAre` | internal/application/command/video/segment_video.go:305-311 | a segment is announced again if and only if it is listed and pending or failed |
| `SegmentVideo.RepublishPending` | internal/application/command/video/segment_video.go:299-318 | nothing is committed when no segment is pending; otherwise all announcements or none |
| `SegmentVideo.MarkFailed` | internal/application/command/video/segment_video.go:320-341 | job and video fail in one transaction, or nothing changes, exactly if it reports an error |
| `ExtractFrames.Handle` | internal/application/command/video/extract_frames.go:78-117 | a run without an error leaves exactly the stored, requested and completed segment; without a failing access the outcome is determined, and an unreadable segment leaves segment, frame job and video failed with the failure announced last, one that was cut off leaves the segment processing with its frames; a failing access leaves the segment as it was or processing and brings it back, except in the failure transaction; only the recovery branch can return an error without a class |
| `ExtractFrames.PersistFrame` | internal/application/command/video/extract_frames.go:258-299 | a frame is stored, then the OCR job found or created, then its request committed; a failure after any step leaves a prefix that touches frames, OCR job and outbox only |
| `ExtractFrames.PersistFrames` | internal/application/command/video/extract_frames.go:158-198 | all frames of the segment are persisted in order, or a failure is reported with nothing but frames added; one after the other here, while FramePool proves the concurrent form |
| `ExtractFrames.CompleteSegment` | internal/application/command/video/extract_frames.go:361-447 | segment, counter, OCR job and, for the last segment, job completion and announcement change in one transaction |
| `ExtractFrames.FailSegment` | internal/application/command/video/extract_frames.go:488-514 | segment, job and video fail together; refused when the video is in success |
| `ExtractFrames.MaybeFinalize` | internal/application/command/video/extract_frames.go:449-486 | finalises exactly when the counter is complete; its transaction error is the only one without a class |
| `ExtractFrames.RawErrorIsDead` | internal/application/command/video/extract_frames.go:482-482 | in no state of any history can that unclassified error occur |
| `OcrFrames.PersistFrame` | internal/application/command/video/ocr_frames.go:51-97 | a run without an error leaves the row that is due for each answer (see IsRowOf: status, trimmed text, confidence and reason by the answer and the floor), changes no other row, and leaves exactly job start, counter, classification requests and, when it applies, completion; without a failing access the outcome is determined; whatever fails, every error has a class, other tables are left alone, and a run is given up only without a frame job or on the last attempt, which leaves job and video failed |
| `OcrFrames.PersistResults` | internal/application/command/video/ocr_frames.go:156-216 | success commits rows, counter and requests together; failure restores the counter, leaves at most a new classify job behind, and buffers only events the failure transaction may store |
| `OcrFrames.FramesToClassify` | internal/application/command/video/ocr_frames.go:166-173 | counts and asks for exactly the results whose frame has no final row yet, in order |
| `OcrFrames.KnownDecides` | internal/application/command/video/ocr_frames.go:64-69 | deciding from the rows of the listed frames is the same as deciding from the table, for every batch the table would accept |
| `OcrFrames.FailOrRetry` | internal/application/command/video/ocr_frames.go:218-256 | not retryable exactly on the last attempt, which leaves job and video failed with the failure announced last, unless that transaction fails; before it nothing changes |
| `OcrFrames.MarkProcessing` | internal/application/command/video/ocr_frames.go:129-154 | counters, status and announcement are committed together |
| `OcrFrames.CountFinal` | internal/application/command/video/ocr_frames.go:373-381 | the loop counts exactly the final rows |
| `OcrFrames.Complete` | internal/application/command/video/ocr_frames.go:82-96 | completes the OCR job exactly when extraction is done and every frame of a non-empty video has a row |
| `OcrFrames.LoadJob` | internal/application/command/video/ocr_frames.go:99-127 | without a frame job the error is not retryable; the OCR job is created at most once |
| `ClassifyFrames.HandleFrame` | internal/application/command/video/classify_frames.go:64-127 | a run without an error leaves a final row as it is and otherwise the row that is due: skipped without text, else with the flag, probability, categories and status of the last item for the frame, or failed when the classifier forgot it; no other row changes, and the video is completed when it applies; without a failing access the outcome is determined; a frame is given up only without a frame job, if it is unknown, or on the last attempt, which leaves job and video failed |
| `ClassifyFrames.Finalize` | internal/application/command/video/classify_frames.go:130-139 | a run without an error completes the video exactly when the counts allow it; without a failing access the outcome is determined |
| `ClassifyFrames.TryFinalize` | internal/application/command/video/classify_frames.go:141-180 | an error without a class needs a complete extraction without frames |
| `ClassifyFrames.RawErrorIsDead` | internal/application/command/video/classify_frames.go:152-158 | no state of any history has a complete extraction without frames |
| `ClassifyFrames.SplitOfOne` | internal/application/command/video/classify_frames.go:110-110 | a frame without a final row is either skipped or sent to the classifier, never dropped and never both |
| `ClassifyFrames.FailOrRetry` | internal/application/command/video/classify_frames.go:262-295 | not retryable exactly on the last attempt, which leaves job and video failed with the failure announced last, unless that transaction fails; before it nothing changes |
| `ClassifyFrames.MarkReady` | internal/application/command/video/classify_frames.go:297-318 | job and video succeed together; a failed video is refused |
| `Uploads.ConfirmUpload` | internal/application/command/video/confirm_upload.go:38-71 | too large exactly above a positive limit, before anything is read; a confirmation takes over content type and size where they make sense, moves a pending video on, announces it once and finds or creates the segment job; every error leaves the rows alone, and which error it is is determined |
| `Uploads.ConfirmAgain` | internal/application/command/video/confirm_upload.go:52-70 | a second confirmation changes no status and no job and announces nothing; without new metadata it changes nothing at all |
| `Uploads.ConfirmAndExpireExclude` | internal/domain/video/entity.go:116-146 | a video read as expired is not confirmed, and one read as confirmed does not expire |
| `Uploads.ExpireStaleUploads` | internal/application/command/video/expire_stale_uploads.go:29-51 | each listed row is saved over the current one as it was listed, but failed, or the video is left exactly as it was; a row is saved if and only if it was listed as pending and its own save does not fail, so one failure does not stop the sweep |
| `Uploads.SweepIsAStepIff` | internal/application/command/video/expire_stale_uploads.go:36-45 | saving a listed row is a transaction of the pipeline if and only if the row has not changed since it was listed |
| `Uploads.ConfirmationIsOverwritten` | internal/application/command/video/expire_stale_uploads.go:40-45 | a confirmation that commits between listing and saving is overwritten: the video has failed with its upload announced and its segment job waiting |
| `StaleSaves.CurrentSavesSerialize` | internal/infrastructure/persistence/write/video_repository.go:33-39 | for every interleaving of handlers that load, change and save whole video rows: while only current copies are saved, row and stored events are those of one sequence of calls on one aggregate |
| `StaleSaves.CurrentSavesKeepHistory` | internal/infrastructure/persistence/write/video_repository.go:33-35 | then every result about such sequences holds of the stored row: finish time exactly on success, one upload outcome, one announcement of success |
| `StaleSaves.EndsInSuccessIff` | internal/domain/video/entity.go:435-461 | a copy is saved in success if and only if it was loaded so or the handler classified a live video itself |
| `StaleSaves.SuccessIsKeptIff` | internal/application/command/video/ocr_frames.go:129-154 | success of a video is never lost if and only if no copy loaded before it is saved after it, except by a handler that classifies the video once more |
| `StaleSaves.SuccessCanBeLost` | internal/application/command/video/ocr_frames.go:140-147 | a concrete run: an OCR handler saves its copy after a classification handler finished the video, and the announced success is gone |
| `StaleSaves.ConfirmedSurvivesIff` | internal/infrastructure/persistence/write/video_repository.go:55-69 | for every interleaving of sweeps and confirmations: outcomes are announced once plus once for each sweep that saved a row no longer pending, and a confirmed upload stays confirmed if and only if there was no such sweep |
| `StaleSaves.ConfirmedUploadCanExpire` | internal/application/command/video/expire_stale_uploads.go:29-45 | a concrete run of a listing, a confirmation and the sweep's save that ends with a failed video, uploaded and expired |
| `StaleHandlers.StaleCompletionIsSafe` | internal/application/command/video/classify_frames.go:141-180 | for every interleaving of handlers that save stale rows of the video and of their own job, read by read and commit by commit: whenever the video or the classify job is in success, or success has been announced, extraction is done and every frame has both rows |
| `StaleHandlers.OutcomeIsFinal` | internal/application/command/video/classify_frames.go:64-71 | once the classify job is in success and the handlers at work have read the video as it is, whether the video is in success never changes again: a lost success never comes back, a kept one is never lost |
| `StaleHandlers.LostIsFinal` | internal/application/command/video/ocr_frames.go:51-58 | in particular no handler repairs a video with all rows and an announced success that is not in success |
| `StaleHandlers.ReadyOverwritesSuccess` | internal/application/command/video/ocr_frames.go:258-288 | a concrete run to such a state: the OCR handler of the last frame stores its row, the row is classified and completes the video, then the OCR handler saves the video as it had read it |
| `Effects.StartSegmentationDoes` | internal/application/command/video/segment_video.go:125-146 | job and video process, announced; field by field |
| `Effects.FailSegmentationDoes` | internal/application/command/video/segment_video.go:320-341 | job and video fail, announced while the video is live; field by field |
| `Effects.CommitSegmentsDoes` | internal/application/command/video/segment_video.go:253-297 | segments, both jobs with the number of segments, and the announcements in order; field by field |
| `Effects.RepublishSegmentsDoes` | internal/application/command/video/segment_video.go:299-318 | announcements only; field by field |
| `Effects.StartSegmentDoes` | internal/application/command/video/extract_frames.go:99-102 | this segment processes, nothing else changes; field by field |
| `Effects.StoreFrameDoes` | internal/application/command/video/extract_frames.go:258-270 | this frame with its time, nothing else; field by field |
| `Effects.RequestOcrDoes` | internal/application/command/video/extract_frames.go:271-299 | one request, nothing else; field by field |
| `Effects.CompleteSegmentDoes` | internal/application/command/video/extract_frames.go:361-447 | segment and counter, and when the counter has reached the expected number job, number of frames, video and announcement; field by field |
| `Effects.FailSegmentDoes` | internal/application/command/video/extract_frames.go:488-514 | segment, job and video fail, announced while the video is live; field by field |
| `Effects.FinalizeExtractionDoes` | internal/application/command/video/extract_frames.go:449-486 | job, number of frames, video and announcement; field by field |
| `Effects.CreateJobsDo` | internal/domain/job/entity.go:72-108 | a job that is created is new, and only if there was none; field by field |
| `Effects.StartOcrDoes` | internal/application/command/video/ocr_frames.go:129-154 | the numbers are those of the frames and of the frames with a final row; field by field |
| `Effects.PersistOcrDoes` | internal/application/command/video/ocr_frames.go:156-216 | the counter advances by the frames asked for; progress, then the requests in order; field by field |
| `Effects.CompleteOcrDoes` | internal/application/command/video/ocr_frames.go:258-288 | job and video, announced with the counters while the video is live; field by field |
| `Effects.FailOcrDoes` | internal/application/command/video/ocr_frames.go:232-256 | job and video fail, announced with the counters behind what was buffered; field by field |
| `Effects.StartClassifyDoes` | internal/application/command/video/classify_frames.go:220-244 | job and video process with the number of frames, announced; field by field |
| `Effects.PersistClassificationDoes` | internal/application/command/video/classify_frames.go:246-260 | this row, nothing else; field by field |
| `Effects.CompleteClassifyDoes` | internal/application/command/video/classify_frames.go:297-318 | job and video succeed, with the number of classified frames; field by field |
| `Effects.FailClassifyDoes` | internal/application/command/video/classify_frames.go:276-295 | job and video fail, announced with the number of frames; field by field |
| `RunEffects.SplitRunDoes` | internal/application/command/video/segment_video.go:61-105 | a run that splits the video: every segment stored once, pending, and announced in order |
| `RunEffects.FramesPersistedDo` | internal/application/command/video/extract_frames.go:158-198 | every emitted frame is stored with its time and requested, in order, and nothing else |
| `RunEffects.ExtractRunDoes` | internal/application/command/video/extract_frames.go:78-117 | a run that extracts a segment: it succeeds and counts once, its frames are stored and requested, and the last one completes the job |
| `RunEffects.DoneRunsDoNothing` | internal/application/command/video/extract_frames.go:90-97 | a done video is not split, and neither a done job nor a failed video is worked on |
| `RunEffects.DoneStagesDoNothing` | internal/application/command/video/ocr_frames.go:56-58 | a done OCR or classify job, or a successful video, is left alone |
| `RunEffects.RequestsFollow` | internal/application/command/video/ocr_frames.go:166-207 | classification is requested exactly for the frames named whose row was not final |
| `RunEffects.PersistRunCompletesIff` | internal/application/command/video/ocr_frames.go:82-96 | the OCR job is done after a run exactly when extraction is and no frame lacks a row |
| `RunEffects.FinalizingCompletesIff` | internal/application/command/video/classify_frames.go:141-180 | video and classify job are completed exactly when extraction is done and no frame lacks a row, and otherwise left alone |
| `Outcomes.SegmentVideoAnswers` | internal/application/command/video/segment_video.go:61-105 | given up exactly without a job or for an unreadable file, retried exactly when cut off |
| `Outcomes.ExtractFramesAnswers` | internal/application/command/video/extract_frames.go:78-117 | given up exactly for an unknown or unreadable segment, retried exactly when cut off |
| `Outcomes.PersistFrameAnswers` | internal/application/command/video/ocr_frames.go:51-97 | given up exactly without a frame job or when the rows are refused (an unknown frame, or one named twice) on the last attempt |
| `Outcomes.HandleFrameAnswers` | internal/application/command/video/classify_frames.go:64-127 | given up exactly without a frame job, for an unknown frame, or when the classifier does not answer on the last attempt |
| `Outcomes.FinalizeAnswers` | internal/application/command/video/classify_frames.go:130-180 | only a failed video that is due to complete makes the final test fail |
| `Outcomes.VideoOpens` | internal/application/command/video/segment_video.go:69-86 | a video is split unless it or its job is done, or counted segments are there |
| `Outcomes.SegmentOpens` | internal/application/command/video/extract_frames.go:90-97 | a segment is extracted unless it, its job or its video is done, or its video has failed |
| `FrameResults.SplitIsAPartition` | internal/application/command/video/classify_frames.go:360-402 | already final, skipped and pending frames together are the frames, each as often as it was given |
| `FrameResults.SplitFollowsFate` | internal/application/command/video/classify_frames.go:372-400 | every frame is in the part that its rows call for |
| `FrameResults.PendingClassifyFrames` | internal/application/command/video/classify_frames.go:360-402 | the loops over maps compute that split, in order |
| `FrameResults.NormalizeResults` | internal/application/command/video/classify_frames.go:320-358 | one row per pending frame, in order: the last item for the frame decides flag, probability, categories, status and reason; a frame that no item names gets the failed row with the missing-result reason |
| `FrameResults.OnlyOwnItemsMatter` | internal/application/command/video/classify_frames.go:324-327 | an item for another frame, inserted anywhere, never changes the row of this frame |
| `FrameResults.NormalizedRowIsConsistent` | internal/application/command/video/ocr_frames.go:302-332 | a stored OCR row has text exactly when it is a success, a reason exactly when it failed, never text below the confidence floor, and normalising it again changes nothing |
| `FrameResults.AnswersBecome` | internal/application/command/video/ocr_frames.go:302-332 | which answers become a success (with their trimmed text), which an empty row and which a failure |
| `PipelineSafety.BatchIsStored` | internal/application/command/video/ocr_frames.go:166-207 | a stored batch changes exactly the rows of its frames, and classification is asked for exactly the frames without a final row |
| `FrameResults.LastItemWins` | internal/application/command/video/classify_frames.go:324-337 | of several items for a frame the last one decides, and a frame counts as missing exactly when no item names it |
| `FrameResults.NormalizePayloads` | internal/application/command/video/ocr_frames.go:290-300 | one row for each payload whose id parses, in order, each with frame, status, trimmed text, confidence and reason as that payload and the floor say |
| `FrameResults.PayloadsBecomeRows` | internal/application/command/video/ocr_frames.go:290-332 | the same of the specification: the rows are, one for one, the parsing payloads |
| `FrameResults.FateIs` | internal/application/command/video/classify_frames.go:372-400 | a frame without a final row is skipped exactly if it has no OCR row or a blank one, and otherwise its trimmed text is classified |
| `FrameResults.TrimIs` | internal/application/command/video/ocr_frames.go:309-309 | trimming takes white space off both ends and nothing else |
| `FrameResults.SpacesAre` | internal/application/command/video/ocr_frames.go:309-309 | white space by code point |
| `FrameResults.TablesAre` | internal/application/command/video/classify_frames.go:365-378 | which frames are final, and that of several OCR rows for a frame the last one counts |
| `FrameResults.RowSaysAnswer` | internal/application/command/video/classify_frames.go:324-354 | the row of a frame says what the last item for it says, or that there is none |
| `FrameResults.TrimOfBlank` | internal/application/command/video/ocr_frames.go:309-309 | trimming leaves nothing exactly of a blank text |
| `VideoAggregate.PulledThenBufferedIsRecorded` | internal/domain/video/entity.go:87-95 | over every sequence of calls, pulled events followed by the buffer are all recorded events, in order |
| `VideoAggregate.HistoryOf` | internal/domain/video/entity.go:116-503 | over every history of a new video: the finish time is set exactly on success, uploaded and upload-expired together occur at most once, classification is announced exactly as often as the video is in success |
| `VideoAggregate.StatusOnlyMovesForward` | internal/domain/video/entity.go:116-503 | over every pair of histories, pending is never re-entered and success never left |
| `VideoAggregate.NewPresignedVideo` | internal/domain/video/entity.go:28-53 | refused exactly for a path without a name and for a type that neither extension nor content type vouches for; otherwise pending with its creation recorded |
| `VideoAggregate.NewVideoIs` | internal/domain/video/entity.go:28-78 | a new video is pending with the size the client gave, the content type it gave, or one found from the name, and no thumbnail |
| `VideoAggregate.NewWebhookVideo` | internal/domain/video/entity.go:55-85 | an empty path gets the name of the stored object; refused exactly for a type nothing vouches for; otherwise creation and ingest request are recorded in this order |
| `Filenames.BaseIsAName` | internal/domain/video/keys.go:104-106 | whatever a client sends, its base is never empty and is a single name, or a lone slash or dot |
| `Filenames.BaseIs` | internal/domain/video/keys.go:104-106 | the base is what stands between the last slash before it and the slashes at the end; a dot for no path, a slash for slashes only |
| `Filenames.ExtIs` | internal/domain/video/keys.go:81-83 | the extension starts at the last dot behind the last slash, and there is none without such a dot |
| `Filenames.VideoFilenameIs` | internal/domain/video/keys.go:81-88 | what follows the last dot decides, in lower case |
| `Filenames.ContentTypesAre` | internal/domain/video/keys.go:90-102 | a content type is that of a video exactly if it begins so; a stated one is kept, and one is always found |
| `VideoAggregate.FailedIsLeftExactlyBy` | internal/domain/video/entity.go:161-183 | failure is left by exactly three commands, and only to processing |
| `VideoAggregate.StatusAfter` | internal/domain/video/entity.go:116-503 | where every command leads from every status |
| `VideoAggregate.RefusedIff` | internal/domain/video/entity.go:116-503 | a failed video refuses exactly what would complete something, a successful one exactly what would fail it, and only a pending one expires |
| `VideoAggregate.RecordsTell` | internal/domain/video/entity.go:116-503 | which commands are heard in which status, and that the event carries the data of the command; a request records one event for each frame, in order |
| `VideoAggregate.FieldsAfter` | internal/domain/video/entity.go:116-146 | content type, size, thumbnail and finish time after every command |
| `VideoAggregate.Video.Pull` | internal/domain/video/entity.go:87-95 | returns the buffer and empties it; the whole new state is the one the history results are about |
| `VideoAggregate.Video.MarkUploaded` | internal/domain/video/entity.go:116-146 | metadata is taken over even when the transition is refused; only a pending video moves and records; the whole new state is the one the history results are about |
| `VideoAggregate.Video.MarkExtractionQueued` | internal/domain/video/entity.go:148-159 | only a pending video moves, and nothing is recorded; the whole new state is the one the history results are about |
| `VideoAggregate.Video.MarkExtracting` | internal/domain/video/entity.go:161-183 | every status but success goes to processing; the whole new state is the one the history results are about |
| `VideoAggregate.Video.RecordSegmentReady` | internal/domain/video/entity.go:185-203 | records without changing the row; the whole new state is the one the history results are about |
| `VideoAggregate.Video.MarkFramesReady` | internal/domain/video/entity.go:205-229 | refused for a failed video, silent for a successful one; the whole new state is the one the history results are about |
| `VideoAggregate.Video.MarkExtractionFailed` | internal/domain/video/entity.go:231-255 | refused for a successful video, silent for a failed one; the whole new state is the one the history results are about |
| `VideoAggregate.Video.SetThumbnailKey` | internal/domain/video/entity.go:257-263 | an empty key changes nothing; the whole new state is the one the history results are about |
| `VideoAggregate.Video.MarkOcrProcessing` | internal/domain/video/entity.go:265-290 | every status but success goes to processing; the whole new state is the one the history results are about |
| `VideoAggregate.Video.RequestOcrFrames` | internal/domain/video/entity.go:292-312 | one request per frame, in order; the whole new state is the one the history results are about |
| `VideoAggregate.Video.RequestClassifyFrames` | internal/domain/video/entity.go:314-330 | one request per frame, in order; the whole new state is the one the history results are about |
| `VideoAggregate.Video.RecordOcrProgress` | internal/domain/video/entity.go:332-352 | recorded only while processing; the whole new state is the one the history results are about |
| `VideoAggregate.Video.MarkOcrReady` | internal/domain/video/entity.go:354-380 | refused for a failed video, silent for a successful one; the whole new state is the one the history results are about |
| `VideoAggregate.Video.MarkOcrFailed` | internal/domain/video/entity.go:382-408 | refused for a successful video, silent for a failed one; the whole new state is the one the history results are about |
| `VideoAggregate.Video.MarkClassifying` | internal/domain/video/entity.go:410-433 | every status but success goes to processing; the whole new state is the one the history results are about |
| `VideoAggregate.Video.MarkClassified` | internal/domain/video/entity.go:435-461 | sets success, finish time and announcement together, once; the whole new state is the one the history results are about |
| `VideoAggregate.Video.MarkClassifyFailed` | internal/domain/video/entity.go:463-488 | refused for a successful video, silent for a failed one; the whole new state is the one the history results are about |
| `VideoAggregate.Video.MarkUploadExpired` | internal/domain/video/entity.go:490-503 | only a pending video expires; the whole new state is the one the history results are about |
| `Jobs.Job.MarkProcessing` | internal/domain/job/entity.go:110-118 | a job that starts again loses its reason and finish time; the counters stay |
| `Jobs.Job.MarkSuccess` | internal/domain/job/entity.go:120-128 | no reason and both times set; the counters stay |
| `Jobs.Job.MarkFailed` | internal/domain/job/entity.go:130-138 | the reason given and both times set; the counters stay |
| `Jobs.Job.SetExpectedFrameCount` | internal/domain/job/entity.go:140-142 | changes that count only |
| `Jobs.Job.SetSegmentProgress` | internal/domain/job/entity.go:144-147 | changes the segment counters only |
| `Jobs.Job.AddCompletedSegment` | internal/domain/job/entity.go:149-154 | a count that is not positive changes nothing |
| `Jobs.Job.SetOcrProgress` | internal/domain/job/entity.go:160-163 | changes the frame counters only |
| `Jobs.Job.AddOcrCompleted` | internal/domain/job/entity.go:165-170 | a count that is not positive changes nothing |
| `SegmentCounter.CounterIsSafe` | internal/application/command/video/extract_frames.go:375-431 | for every interleaving of workers with stale copies, failures and abandoned attempts: counted ≤ successful ≤ expected segments, the job is in success exactly when the counter has reached the expected number, and then every segment has succeeded |
| `SegmentCounter.UniqueFinalizer` | internal/application/command/video/extract_frames.go:416-431 | extraction is announced once when the job is in success and never before, and the announcement is a listing of all frames by timestamp, then and at every later point |
| `SegmentCounter.NoFailureCompletes` | internal/application/command/video/extract_frames.go:394-410 | without a failure transaction the job is in success exactly when every segment is |
| `SegmentCounter.CompletesIffLastFailureWasCurrent` | internal/application/command/video/extract_frames.go:488-514 | after failures, once every segment has succeeded, the job is in success if and only if the last failing worker's copy of the job counted every segment successful at that moment |
| `SegmentCounter.NoAnnouncementCompletes` | internal/application/command/video/segment_video.go:299-318 | whatever fails, as long as no failed segment is announced again (see SplitOnce) the job is in success exactly when every segment is |
| `LostIncrement.AnIncrementCanBeLost` | internal/infrastructure/persistence/write/job_repository.go:25-64 | what the stale whole-row write would do if a failed segment were announced again, which the code never does: a concrete run, with frames in every segment, after which all segments have succeeded, nothing is queued and the job is not complete |
| `SegmentCounter.MissingChange` | internal/infrastructure/persistence/write/job_repository.go:49-64 | only a failure transaction changes by how much the counter lags behind the successes, and to what |
| `SegmentCounter.WorkingIsNotDone` | internal/application/command/video/extract_frames.go:384-393 | with one worker per segment the branch for a segment completed meanwhile is never taken |
| `SegmentCounter.RecoveryNeverRuns` | internal/application/command/video/extract_frames.go:95-97 | nor is the recovery branch, for any interleaving of the loads |
| `SharedSegments.CounterCountsDoubles` | internal/application/command/video/extract_frames.go:375-393 | for any number of workers on any segments: the counter is the number of finished segments plus the times that a finished one was taken up or counted again |
| `SharedSegments.ExclusiveIsExact` | internal/application/command/video/extract_frames.go:95-102 | as long as no two workers hold the same segment the counter is exact |
| `SharedSegments.SharedSegmentCountsTwice` | internal/application/command/video/extract_frames.go:375-393 | a concrete run of two workers on one segment after which the counter is full although the other segment never ran |
| `Consumer.Registry.Register` | internal/application/registry/handler_registry.go:20-24 | appends to the handlers of one type and leaves the others alone |
| `Consumer.Registry.Dispatch` | internal/application/registry/handler_registry.go:26-41 | handlers before the first failure returned without error, the failing one is reported, later ones were not called and their runs and marks are untouched |
| `Consumer.HandleDelivery` | internal/infrastructure/messaging/rabbitmq/consumer.go:80-119 | acknowledged, retried or dead-lettered as class and attempt count say, redelivered if and only if the worker was killed; an undecodable envelope reaches no handler |
| `Consumer.RetriedWasNotLast` | internal/application/messaging/attempt.go:12-22 | a copy is retried if and only if the error may be retried and its handlers were not told that this was the last attempt |
| `Consumer.RetryCountIsRejections` | internal/infrastructure/messaging/rabbitmq/consumer.go:147-165 | after any number of passes through the retry queue the count read from the header is the number of rejections |
| `Consumer.Retire` | internal/infrastructure/messaging/rabbitmq/consumer.go:80-119 | the life of one copy, whose worker may be killed anywhere a bounded number of times: not counting killed deliveries it ends after at most maxRetries + 1, acknowledged or dead-lettered having come as far as handler f: earlier handlers succeeded exactly once unless a failed or interrupted run kept its mark, handler f did not succeed, later ones never ran; it is given up early only for an error that is not to be retried, and when the table can be reached a failing delivery is exactly one failed run, a killed one at most one |
| `Consumer.AcknowledgedMeansHandledIff` | internal/application/event/dedup/with_dedup.go:34-51 | an acknowledged copy means every handler succeeded once, if and only if no failed or interrupted run kept its mark; when the table can be reached and no worker was killed, if and only if every error had a class |
| `Consumer.UnclassifiedErrorIsSwallowed` | internal/application/event/dedup/with_dedup.go:42-49 | a concrete pair of deliveries: an error without a class is retried, and the retry acknowledges the event unhandled |
| `Consumer.KilledRunIsSwallowed` | internal/application/event/dedup/with_dedup.go:34-51 | a concrete pair of deliveries: the worker is killed between mark and return, and the redelivery acknowledges the event unhandled |
| `Consumer.FailedMarkIsSwallowed` | internal/application/event/dedup/with_dedup.go:34-40 | a concrete pair of deliveries: marking reports an error although the mark is inserted, and the retry acknowledges the event unhandled |
| `Dedup.Marks.With` | internal/application/event/dedup/with_dedup.go:24-53 | whatever the handler returns, whichever table access fails and wherever the worker is killed, a handler runs only when unmarked, a mark whose insertion reported an error counts as a run that never came to an end, the mark is gone afterwards only for a retryable error (always then, if the table can be reached and the call returns), and nothing else changes |
| `Dedup.Marks.MarkProcessed` | internal/infrastructure/persistence/processed/repository.go:24-44 | without an error, inserted exactly when the key was not there; with an error, inserted or not |
| `Dedup.Marks.UnmarkProcessed` | internal/infrastructure/persistence/processed/repository.go:46-54 | removes this key only; with an error, removed or not |
| `Dedup.MarkedMeansOnce` | internal/application/event/dedup/with_dedup.go:34-51 | a marked handler has succeeded exactly once, or never when a failed or interrupted run kept the mark |
| `Outbox.Table.StoreEvents` | internal/infrastructure/persistence/outbox/repository.go:26-53 | all events are inserted or none; an id that is taken is skipped |
| `Outbox.InsertedKeeps` | internal/infrastructure/persistence/outbox/repository.go:50-52 | existing rows are never changed, ids stay unique, every stored event has a row |
| `Outbox.StoringTwice` | internal/infrastructure/persistence/outbox/repository.go:50-52 | storing known events again changes nothing |
| `Outbox.Table.FetchUnpublished` | internal/infrastructure/persistence/outbox/repository.go:55-78 | the batch specified by the two results below |
| `Outbox.PendingIsSorted` | internal/infrastructure/persistence/outbox/repository.go:57-61 | every unpublished row once and no other, by creation time |
| `Outbox.BatchIsOldest` | internal/infrastructure/persistence/outbox/repository.go:57-61 | a batch holds unpublished rows, and an unpublished row that is not ahead of a batch row is not older than it |
| `Outbox.Table.MarkPublished` | internal/infrastructure/persistence/outbox/repository.go:80-89 | exactly the given ids are marked; with an error, all of them or none |
| `Outbox.PublishBatch` | internal/infrastructure/persistence/outbox/relay.go:54-84 | a prefix of the batch is sent in order up to the first failure, and what was sent without an error is marked, all of it, or with an error all or nothing; the event whose sending reported an error may have been sent too; when nothing fails the whole batch |
| `Outbox.OnlySentIsMarked` | internal/infrastructure/persistence/outbox/relay.go:62-83 | a row that is published after a poll was so before or was sent in it |
| `RelayRefinement.PollRefines` | internal/infrastructure/persistence/outbox/relay.go:54-84 | however a poll ends, its effect on table and broker is that of a run of the interleaved protocol: a fetch, the sends, and a mark of a prefix of them or none |
| `RelayRefinement.FetchRefines` | internal/infrastructure/persistence/outbox/repository.go:55-61 | what the table returns is a batch the protocol allows: no older unpublished row is left out or behind |
| `RelayRefinement.StoreRefines` | internal/infrastructure/persistence/outbox/repository.go:50-52 | storing an event is the protocol step, whether its id is taken or not |
| `RelayRefinement.MarkRefines` | internal/infrastructure/persistence/outbox/repository.go:80-89 | marking rows is the marking of the protocol |
| `Consumer.DeliveryFails` | internal/application/event/dedup/with_dedup.go:34-51 | when the table can be reached, a failing delivery adds exactly one failed run over all handlers of the event, a killed one at most one |
| `DeliveryProtocol.DeliveryIsSafe` | internal/application/event/dedup/with_dedup.go:34-51 | over every run of polls, publish and mark failures, duplicates, redeliveries and crashes: published events have been sent, a handler succeeds at most once for an event, and only for an event that was sent |
| `DeliveryProtocol.OneRunAtATime` | internal/application/event/dedup/with_dedup.go:34-51 | in every state of every run, no two copies of an event have the same handler at work |
| `DeliveryProtocol.SendsFollowCreation` | internal/infrastructure/persistence/outbox/relay.go:54-84 | for any number of relays, an older event that is not sent before a newer one was not in the outbox when the newer one's batch was fetched |
| `DeliveryProtocol.OneRelayFollowsCreation` | cmd/worker/di/container.go:50 | with one relay, an older event is sent before a newer one if and only if it was in the outbox when the newer one's batch was fetched |
| `DeliveryProtocol.AKilledWorkerCanLoseAnEvent` | internal/application/event/dedup/with_dedup.go:34-51 | a concrete run of nine actions that ends with the only copy acknowledged and no handler successful |
| `DeliveryProtocol.AnEventCanBeOvertaken` | internal/infrastructure/persistence/outbox/repository.go:57-61 | a concrete run in which an event stored after a fetch with an earlier creation time is overtaken |
| `FramePool.WaitWithoutError` | internal/application/command/video/extract_frames.go:237-345 | for every schedule of the goroutines: if waiting reports no error, each submitted frame is in storage and in the table, was requested exactly once and returned exactly once, and the result is the submissions sorted by time |
| `FramePool.ConcurrencyIsBounded` | internal/application/command/video/extract_frames.go:244-256 | at every moment at most the configured number of frames is between acquiring and releasing the semaphore |
| `FramePool.IdsAreStable` | internal/infrastructure/persistence/write/frame_repository.go:31-56 | a stored row keeps its id for the rest of the run, rows of an earlier attempt included |
| `FramePool.IdsStayUnique` | internal/infrastructure/persistence/write/frame_repository.go:31-56 | different frames keep different ids |
| `FrameTable.Table.UpsertAll` | internal/infrastructure/persistence/write/frame_repository.go:21-57 | rows and written-back ids after the statement; it fails as a whole, and always for a key given twice |
| `FrameTable.UpsertStores` | internal/infrastructure/persistence/write/frame_repository.go:31-41 | the row of a frame has the frame's data, its old id if there was one and the frame's id otherwise |
| `FrameTable.UpsertKeepsIds` | internal/infrastructure/persistence/write/frame_repository.go:31-41 | no existing row loses its id, every frame gets a row, and no other row appears |
| `FrameTable.RerunKeepsIds` | internal/infrastructure/persistence/write/frame_repository.go:43-55 | storing frames again with whatever new ids writes the old ids back |
| `FrameSelection.ExtractFrames` | internal/infrastructure/video/extractor.go:126-198 | whatever the decoder and the sink do, what is emitted is the selection up to the first frame the sink refuses, numbered from zero, with timestamps that are those of the candidates to the nearest millisecond; what went wrong first says how the loop ends, and a failing exit counts only when no frame was kept |
| `FrameSelection.SelectionIsExplained` | internal/infrastructure/video/extractor.go:142-179 | indices count from zero; the first candidate is kept; every later kept one has the distance or the elapsed time its reason names; every dropped one is within the threshold of the last kept one and less than the interval after it |
| `FrameSelection.SelectionInRealTime` | internal/infrastructure/video/extractor.go:138-165 | in terms of the parameters and of real time: a frame kept for time comes the interval (less a millisecond of rounding) after the last one and looks like it, one kept for its looks has the threshold distance, a dropped one is below the threshold and comes less than the interval after it |
| `FrameSelection.GapsAreBounded` | internal/infrastructure/video/extractor.go:142-179 | consecutive kept timestamps differ by less than the interval plus one candidate's spacing, rounded up |
| `FrameSelection.FixedKeepsAreBounded` | internal/infrastructure/video/extractor.go:156-165 | at most 1 + last timestamp / interval frames are kept for time alone |
| `JpegStream.ReadJpeg` | internal/infrastructure/video/extractor.go:200-228 | reads exactly the next frame of the stream and stops behind it; the end of the stream, also within a frame, gives none, and a read error in its place is reported |
| `JpegStream.ReadAll` | internal/infrastructure/video/extractor.go:126-136 | the loop reads exactly the frames of the stream, in order, to its end, and fails exactly if the stream is broken there |
| `JpegStream.SplitJoins` | internal/infrastructure/video/extractor.go:200-228 | a stream put together from skipped bytes and well-formed frames is read back as exactly those |
| `JpegStream.FramesRoundTrip` | internal/infrastructure/video/extractor.go:200-228 | frames written one after the other are read back as they were |
| `JpegStream.SplitConserves` | internal/infrastructure/video/extractor.go:200-228 | on every byte stream, skipped bytes, frames and tail make up the stream, frames are well formed and the tail holds none |
| `JpegStream.TruncatedYieldsNothing` | internal/infrastructure/video/extractor.go:205-211 | a cut frame yields no frame |
| `JpegStream.WellFormedIs` | internal/infrastructure/video/extractor.go:200-228 | what a frame is, byte by byte |
| `SegmentPlan.PlanCovers` | internal/domain/segment/plan.go:33-60 | for every duration and configuration: 1 ≤ count ≤ normalised maximum, count × effective duration ≥ duration, and splitting is skipped exactly for one segment |
| `SegmentPlan.PlanIsTight` | internal/domain/segment/plan.go:46-54 | only a capped plan lengthens its segments, and it does; in every other plan the last segment is not empty |
| `SegmentPlan.PlanOfDuration` | internal/domain/segment/plan.go:33-60 | for every positive duration: a short video is not split; a longer one gets just enough segments of the configured length, or the most that are allowed, of the least whole number of seconds that reaches the end |
| `SegmentPlan.PlanOfUnknown` | internal/domain/segment/plan.go:35-37 | an unknown duration is planned like one segment |
| `SegmentPlan.CountIsMonotone` | internal/domain/segment/plan.go:33-60 | a longer video never gets fewer segments |
| `SegmentPlan.Normalize` | internal/domain/segment/plan.go:13-24 | all values are positive and sensible ones are kept |
| `SegmentPlan.SlicesTile` | internal/infrastructure/video/splitter.go:86-105 | when a video is split, every millisecond of it lies in exactly one of the slices that start at index × step, and that is one of the first count |
| `Splitter.Split` | internal/infrastructure/video/splitter.go:81-112 | the loop keeps exactly the parsable segment files; none is an error |
| `Splitter.OffsetsFollowNames` | internal/infrastructure/video/splitter.go:91-104 | whatever order the directory is listed in, each segment file gets its own index, the start of its own slice and the probed duration, or one step when probing fails |
| `Splitter.OthersAreLeftOut` | internal/infrastructure/video/splitter.go:91-97 | a directory or a file whose name does not parse is left out, wherever it is listed |
| `LikeEscape.EscapeIsOnePass` | internal/infrastructure/persistence/read/video_query_repository.go:417-422 | three replacements one after the other equal escaping each special character once |
| `LikeEscape.SearchIsContains` | internal/infrastructure/persistence/read/video_query_repository.go:256-258 | for all texts and names and every notion of equal characters, the pattern matches exactly the names containing the text |
| `LikeEscape.ListedIsContains` | internal/infrastructure/persistence/read/video_query_repository.go:256-258 | a listing shows exactly the names containing the trimmed search text; a blank search shows all |
| `Luhn.LuhnValid` | internal/infrastructure/classify/local.go:309-327 | the backward loop equals the recursive sum from the right |
| `Luhn.SumFromTheRight` | internal/infrastructure/classify/local.go:309-327 | from the right, every other digit counts the digits of its double |
| `Luhn.ValidIs` | internal/infrastructure/classify/local.go:309-327 | the check digit counts once, and thirteen to nineteen digits are needed |
| `Luhn.SubstitutionIsDetected` | internal/infrastructure/classify/local.go:309-327 | every substitution of one digit in a valid number is rejected |
| `Luhn.TranspositionIsDetectedIff` | internal/infrastructure/classify/local.go:309-327 | a swap of neighbours in a valid number goes unnoticed exactly for equal digits and for 0 and 9 |
| `Luhn.CheckDigitIsUnique` | internal/infrastructure/classify/local.go:309-327 | each prefix of fitting length is completed by exactly one digit |
| `StorageKeys.StorageKeyRoundTrip` | internal/domain/video/keys.go:67-79 | the id is read back from the key of its video, with or without a leading slash |
| `StorageKeys.IdOfKeyIff` | internal/domain/video/keys.go:73-78 | an id is found in a decoded key exactly when the key is that of a video with a text that parses to the id |
| `StorageKeys.FrameKeysAreRejected` | internal/domain/video/keys.go:50-52 | no key recognised as a frame key, escaped in whatever way, is taken for a video |
| `StorageKeys.ThumbnailKeysAreRejected` | internal/domain/video/keys.go:54-57 | no key recognised as a thumbnail key, escaped in whatever way, is taken for a video |
| `StorageKeys.SegmentKeysAreRejected` | internal/domain/video/keys.go:42-44 | no segment key is taken for a video |
| `StorageKeys.KeysAreRecognized` | internal/domain/video/keys.go:46-57 | frame and thumbnail keys are recognised for what they are and not for each other |
| `StorageKeys.FrameKeysAreInjective` | internal/domain/video/keys.go:38-40 | different frames have different keys, also beyond the padding width |
| `StorageKeys.SegmentKeysAreInjective` | internal/domain/video/keys.go:42-44 | different segments have different keys |
| `StorageKeys.ParseInvertsSegmentName` | internal/infrastructure/video/splitter.go:114-118 | the index of a segment is read back from its file name, for every index |
| `StorageKeys.AtoiReads` | internal/infrastructure/video/splitter.go:114-118 | digits are read as their value, with a sign or without, and nothing but digits behind at most one sign is read |
| `StorageKeys.PrefixesAre` | internal/domain/video/keys.go:46-57 | testing for and cutting off a prefix or suffix undoes putting it there, and leaves other texts alone |

## Left out

- ExtractFrames.PersistFrames: frames are persisted one after the other; the concurrent form is proved in `FramePool`, which does not repeat the transactions.
- PipelineSafety.CompletionSafety: that the video is in success as soon as the classify job is presupposes current video rows, like every result on histories of transactions; `StaleHandlers.ReadyOverwritesSuccess` breaks that half, and `StaleHandlers.StaleCompletionIsSafe` keeps the other.
- PipelineSafety.CompletionIsStable: is about transactions on current rows; what stale saves do is in `StaleSaves` for the video row and in `StaleHandlers` for the video, OCR and classify rows.
- StaleHandlers.StaleCompletionIsSafe: of the rows only what completion reads is kept there; counters, events other than the announcement of success, and the segments are not.
- SegmentCounter.CounterIsSafe: stale copies of the extraction job are treated there alone.
- OCR progress counters as an exact count of frames: the expected number is fixed at the first answer while extraction goes on, so no such equality holds.
- Final OCR rows, unlike classification rows, can be overwritten by a later duplicate answer: `OcrFrames.PersistFrame` says what a run stores, and nothing says that it stays.
- Outbox.Table.FetchUnpublished: rows with equal creation time come in insertion order, where the database may return them in any order; `DeliveryProtocol` allows every order.
- FrameSelection.ExtractFrames: timestamps are rounded exactly, without floating-point error; hashing, decoding and the external process are parameters.
- StorageKeys.StorageKeyRoundTrip: parsing and formatting of ids are taken from the id library, as a function that inverts the text.
- StorageKeys.ParseInvertsSegmentName: numbers are unbounded, so overflow of a machine integer is not modelled.
- SegmentVideo.Handle: downloading, thumbnail, probing and upload of segment files appear as the result of splitting.
- Segment files and objects that are deleted after extraction.
- Failure reasons and times outside of the job entity, recognised lines and boxes, event payloads beyond what other steps read.
- The segment entity's own class: its three status changes appear in the transactions.
- The clock of the upload sweep: the listing of stale uploads is an input, and a failing listing ends the sweep before anything.
- VideoAggregate.NewPresignedVideo: ids, owner and the name kept for display are not part of the row; lower case and media types are parameters (the same holds for NewWebhookVideo).
- The regular-expression detectors, phone and coordinate heuristics and the remote classifier: the classifier's answer is an input.
- The OCR worker's inference: any rows may answer a request.
- HTTP handlers, authentication, users, listings other than the search filter, configuration, migrations and realtime publishing.
- Events without a pipeline handler: they are kept in the outbox of the model and in no queue.
