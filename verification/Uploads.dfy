/** Confirming an upload, and giving up on uploads that never arrived. */
module Uploads {
  import opened Domain
  import opened Pipeline
  import opened Repositories
  import V = VideoAggregate

  /** No limit applies when `maxSize` is not positive. */
  predicate TooLarge(maxSize: int, sizeBytes: int) {
    maxSize > 0 && sizeBytes > maxSize
  }

  /** Errors are returned to the caller as they are; `Fault` is a failed read or commit. */
  datatype Confirmation = Confirmed | VideoTooLarge | VideoNotFound | InvalidTransition | Fault

  /** How a confirmation ends when no read or commit fails; `found` is None if no video has the key. */
  function ConfirmationOf(found: Option<Db>, maxSize: int, sizeBytes: int): Confirmation {
    if TooLarge(maxSize, sizeBytes) then VideoTooLarge
    else if found.None? then VideoNotFound
    else if !CanConfirmUpload(found.value) then InvalidTransition
    else Confirmed
  }

  /** The confirmed row: what the client says is taken over where it makes sense, and a pending video moves on. */
  predicate IsConfirmed(d: Db, d': Db, contentType: string, sizeBytes: int) {
    && d'.video.contentType == (if contentType != "" then contentType else d.video.contentType)
    && d'.video.sizeBytes == (if sizeBytes > 0 then sizeBytes else d.video.sizeBytes)
    && d'.video.status == (if d.video.status == Pending then Processing else d.video.status)
    && d'.video.finished == d.video.finished && d'.video.thumbnailKey == d.video.thumbnailKey
    && d'.segmentJob.Some? && (d.segmentJob.Some? ==> d'.segmentJob == d.segmentJob)
    && (d.segmentJob.None? ==> d'.segmentJob.value.status == Pending)
    && d'.outbox == d.outbox + (if d.video.status == Pending then [Uploaded] else [])
    && d' == d.(video := d'.video, segmentJob := d'.segmentJob, outbox := d'.outbox)
  }

  lemma ConfirmingConfirms(d: Db, contentType: string, sizeBytes: int)
    ensures IsConfirmed(d, AfterConfirmUpload(d, contentType, sizeBytes), contentType, sizeBytes)
  {
  }

  /** The locked transaction of `ConfirmUpload` for a video that is there. */
  method Confirm(store: Store, contentType: string, sizeBytes: int) returns (r: Confirmation)
    requires store.Valid()
    modifies store
    ensures store.Follows(old(store.history), old(store.faults))
    ensures r.InvalidTransition? <==> old(store.db).video.status == Failed
    ensures r.Confirmed? || r.InvalidTransition? || r.Fault?
    ensures if r.Confirmed? then IsConfirmed(old(store.db), store.db, contentType, sizeBytes)
            else store.db == old(store.db)
    ensures store.faults != old(store.faults) <==> r == Fault
  {
    var d := store.db;
    var video := new V.Video.Load(d.video);
    var reply := video.MarkUploaded(contentType, sizeBytes);
    if reply.InvalidTransition? {
      return InvalidTransition;
    }
    var events := video.Pull();
    var next := d.(segmentJob := Some(JobOrNew(d.segmentJob)), video := video.Row(), outbox := d.outbox + events);
    assert next == AfterConfirmUpload(d, contentType, sizeBytes);
    ConfirmingConfirms(d, contentType, sizeBytes);
    var ok := store.Commit(next, Tx.ConfirmUpload(contentType, sizeBytes));
    r := if ok then Confirmed else Fault;
  }

  /**
   One locked transaction: the size is checked first, and an error leaves the rows alone; `found`
   says whether a video has the key.
   */
  method ConfirmUpload(store: Store, found: bool, maxSize: int, contentType: string, sizeBytes: int)
    returns (r: Confirmation)
    requires store.Valid()
    modifies store
    ensures store.Follows(old(store.history), old(store.faults))
    ensures r.VideoTooLarge? <==> maxSize > 0 && sizeBytes > maxSize
    ensures r.VideoNotFound? ==> !found
    ensures r.InvalidTransition? ==> found && old(store.db).video.status == Failed
    ensures r.Confirmed? ==> found && old(store.db).video.status != Failed
    ensures if r.Confirmed? then IsConfirmed(old(store.db), store.db, contentType, sizeBytes)
            else store.db == old(store.db)
    ensures store.faults == old(store.faults) ==>
      r == ConfirmationOf(if found then Some(old(store.db)) else None, maxSize, sizeBytes)
    ensures store.faults != old(store.faults) <==> r == Fault
  {
    if maxSize > 0 && sizeBytes > maxSize {
      return VideoTooLarge;
    }
    var ok := store.Reads();
    if !ok {
      return Fault;
    }
    if !found {
      return VideoNotFound;
    }
    r := Confirm(store, contentType, sizeBytes);
  }

  /** Confirming again changes neither a status nor a job, and announces nothing. */
  lemma ConfirmAgain(d: Db, c1: string, n1: int, c2: string, n2: int)
    requires CanConfirmUpload(d)
    ensures var once := AfterConfirmUpload(d, c1, n1); var twice := AfterConfirmUpload(once, c2, n2);
      && CanConfirmUpload(once)
      && twice.(video := once.video) == once
      && twice.video.status == once.video.status
      && (c2 == "" && n2 <= 0 ==> twice == once)
  {
  }

  /** A video read as expired is not confirmed, and one read as confirmed does not expire. */
  lemma ConfirmAndExpireExclude(d: Db, contentType: string, sizeBytes: int)
    ensures CanExpireUpload(d) ==> !CanConfirmUpload(AfterExpireUpload(d))
    ensures CanConfirmUpload(d) ==> !CanExpireUpload(AfterConfirmUpload(d, contentType, sizeBytes))
  {
  }

  /**
   The effect of the sweep on the current rows `d` of a video that was listed with the row
   `listed`: the whole row is saved as it was listed, but failed.
   */
  function Expired(d: Db, listed: VideoRow, saved: bool): Db {
    if saved && listed.status == Pending then
      d.(video := V.NextRow(listed, V.MarkUploadExpired), outbox := d.outbox + [UploadExpired])
    else d
  }

  /** The row is that of the listing, but failed, and the expiry is announced. */
  predicate IsExpired(d: Db, listed: VideoRow, d': Db) {
    && d'.video == listed.(status := Failed) && d'.outbox == d.outbox + [UploadExpired]
    && d' == d.(video := d'.video, outbox := d'.outbox)
  }

  /** The sweep's save is a transaction of the pipeline if and only if the row is still the listed one. */
  lemma SweepIsAStepIff(d: Db, listed: VideoRow)
    requires listed.status == Pending
    ensures Does(d, ExpireUpload, Expired(d, listed, true)) <==> d.video == listed
  {
    assert V.Records(Pending, V.MarkUploadExpired) == [UploadExpired];
  }

  /**
   A confirmation that commits between listing and saving is overwritten: the video has failed,
   although its upload is announced and its segment job waits.
   */
  lemma ConfirmationIsOverwritten(d: Db, contentType: string, sizeBytes: int)
    requires d.video.status == Pending
    ensures var d' := Expired(AfterConfirmUpload(d, contentType, sizeBytes), d.video, true);
      d'.video == d.video.(status := Failed) && d'.outbox == d.outbox + [Uploaded, UploadExpired] && d'.segmentJob.Some?
  {
  }

  /**
   The sweep over the listed videos, each saved over whatever its rows are by then: a video whose
   save fails is left as it is, and the sweep goes on with the next one.  `fails` says which saves fail.
   */
  method ExpireStaleUploads(listed: seq<VideoRow>, videos: array<Db>, fails: seq<bool>) returns (saved: seq<bool>)
    requires |listed| == |fails| == videos.Length
    modifies videos
    ensures |saved| == videos.Length
    ensures forall i :: 0 <= i < videos.Length ==> (saved[i] <==> listed[i].status == Pending && !fails[i])
    ensures forall i :: 0 <= i < videos.Length ==> videos[i] == Expired(old(videos[i]), listed[i], saved[i])
    ensures forall i :: 0 <= i < videos.Length ==>
      if saved[i] then IsExpired(old(videos[i]), listed[i], videos[i]) else videos[i] == old(videos[i])
  {
    saved := [];
    for i := 0 to videos.Length
      invariant |saved| == i
      invariant forall k :: 0 <= k < i ==> videos[k] == Expired(old(videos[k]), listed[k], saved[k])
      invariant forall k :: 0 <= k < i ==>
        if saved[k] then IsExpired(old(videos[k]), listed[k], videos[k]) else videos[k] == old(videos[k])
      invariant forall k :: 0 <= k < i ==> (saved[k] <==> listed[k].status == Pending && !fails[k])
      invariant forall k :: i <= k < videos.Length ==> videos[k] == old(videos[k])
    {
      var next, ok := ExpireOne(listed[i], videos[i], fails[i]);
      videos[i] := next;
      saved := saved + [ok];
    }
  }

  method ExpireOne(listed: VideoRow, d: Db, fails: bool) returns (next: Db, saved: bool)
    ensures next == Expired(d, listed, saved)
    ensures saved <==> listed.status == Pending && !fails
    ensures if saved then IsExpired(d, listed, next) else next == d
  {
    var video := new V.Video.Load(listed);
    var reply := video.MarkUploadExpired();
    if reply.InvalidTransition? {
      return d, false;
    }
    if fails {
      return d, false;
    }
    var events := video.Pull();
    next := d.(video := video.Row(), outbox := d.outbox + events);
    assert next == Expired(d, listed, true);
    saved := true;
  }
}
