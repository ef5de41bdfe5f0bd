/** The segment files a split leaves in its directory, and the offset each of them gets. */
module Splitter {
  import opened Domain
  import StorageKeys
  import SegmentPlan

  /** A directory entry; `durationMs` is None when probing the file fails. */
  datatype Entry = Entry(name: string, isDir: bool, durationMs: Option<int>)

  datatype SegmentFile = SegmentFile(index: int, offsetMs: int, durationMs: int)

  predicate IsSegment(e: Entry) {
    && !e.isDir && StorageKeys.HasPrefix(e.name, "segment_") && StorageKeys.HasSuffix(e.name, ".mp4")
    && StorageKeys.ParseSegmentIndex(e.name).Some?
  }

  function FileOf(e: Entry, stepMs: int): SegmentFile
    requires IsSegment(e)
  {
    var index := StorageKeys.ParseSegmentIndex(e.name).value;
    SegmentFile(index, index * stepMs, if e.durationMs.None? then stepMs else e.durationMs.value)
  }

  function Files(entries: seq<Entry>, stepMs: int): seq<SegmentFile> {
    if entries == [] then []
    else
      var init, e := entries[..|entries| - 1], entries[|entries| - 1];
      Files(init, stepMs) + if IsSegment(e) then [FileOf(e, stepMs)] else []
  }

  /** None when the duration makes no sense or the split left no segment. */
  method Split(entries: seq<Entry>, segmentSeconds: real) returns (files: Option<seq<SegmentFile>>)
    ensures var all := Files(entries, SegmentPlan.StepMs(segmentSeconds));
      files == if segmentSeconds <= 0.0 || all == [] then None else Some(all)
  {
    if segmentSeconds <= 0.0 {
      return None;
    }
    var found: seq<SegmentFile> := [];
    var stepMs := SegmentPlan.StepMs(segmentSeconds);
    for i := 0 to |entries|
      invariant found == Files(entries[..i], stepMs)
    {
      var entry := entries[i];
      assert entries[..i + 1][..i] == entries[..i];
      if entry.isDir || !StorageKeys.HasPrefix(entry.name, "segment_") || !StorageKeys.HasSuffix(entry.name, ".mp4") {
        continue;
      }
      var index := StorageKeys.ParseSegmentIndex(entry.name);
      if index.None? {
        continue;
      }
      var durationMs := stepMs;
      if entry.durationMs.Some? {
        durationMs := entry.durationMs.value;
      }
      found := found + [SegmentFile(index.value, index.value * stepMs, durationMs)];
    }
    assert entries[..|entries|] == entries;
    files := if found == [] then None else Some(found);
  }

  /** The entry `k` is the file written for segment `segments[k]`. */
  predicate Written(entries: seq<Entry>, segments: seq<nat>) {
    |entries| == |segments|
    && forall k :: 0 <= k < |entries| ==>
      !entries[k].isDir && entries[k].name == StorageKeys.SegmentFileName(segments[k])
  }

  lemma NameIsSegment(e: Entry, segment: nat)
    requires !e.isDir && e.name == StorageKeys.SegmentFileName(segment)
    ensures ParsesTo(e, segment)
  {
    StorageKeys.ParseInvertsSegmentName(segment);
    assert e.name == "segment_" + (StorageKeys.Padded(segment, 2) + ".mp4");
    assert e.name[|e.name| - 4..] == ".mp4";
  }

  /** The entry is a segment file of segment `g`. */
  predicate ParsesTo(e: Entry, g: nat) {
    IsSegment(e) && StorageKeys.ParseSegmentIndex(e.name) == Some(g)
  }

  predicate Parsed(entries: seq<Entry>, segments: seq<nat>) {
    |entries| == |segments| && forall k :: 0 <= k < |entries| ==> ParsesTo(entries[k], segments[k])
  }

  /** The file of entry `e` for segment `g`: its slice starts at `g` steps and lasts as probed, or one step. */
  predicate IsFileOf(f: SegmentFile, e: Entry, g: nat, stepMs: int) {
    && f.index == g && f.offsetMs == g * stepMs
    && match e.durationMs
       case None => f.durationMs == stepMs
       case Some(probed) => f.durationMs == probed
  }

  /** Each file is that of its entry and segment, in the order given. */
  predicate Placed(files: seq<SegmentFile>, entries: seq<Entry>, segments: seq<nat>, stepMs: int) {
    && |files| == |segments| == |entries|
    && forall k :: 0 <= k < |files| ==> IsFileOf(files[k], entries[k], segments[k], stepMs)
  }

  lemma FilesGrow(init: seq<Entry>, e: Entry, stepMs: int)
    ensures Files(init + [e], stepMs) == Files(init, stepMs) + if IsSegment(e) then [FileOf(e, stepMs)] else []
  {
    assert (init + [e])[..|init|] == init;
  }

  lemma NextIsPlaced(init: seq<Entry>, e: Entry, segments: seq<nat>, g: nat, stepMs: int)
    requires Placed(Files(init, stepMs), init, segments, stepMs) && ParsesTo(e, g)
    ensures Placed(Files(init + [e], stepMs), init + [e], segments + [g], stepMs)
  {
    FilesGrow(init, e, stepMs);
  }

  predicate PlacedUpTo(entries: seq<Entry>, segments: seq<nat>, stepMs: int, n: nat)
    requires n <= |entries| && n <= |segments|
  {
    Placed(Files(entries[..n], stepMs), entries[..n], segments[..n], stepMs)
  }

  lemma TakeNext<T>(s: seq<T>, n: nat)
    requires n < |s|
    ensures s[..n + 1] == s[..n] + [s[n]]
  {
  }

  lemma PlacedStep(entries: seq<Entry>, segments: seq<nat>, stepMs: int, n: nat)
    requires n < |entries| && n < |segments| && ParsesTo(entries[n], segments[n])
    requires PlacedUpTo(entries, segments, stepMs, n)
    ensures PlacedUpTo(entries, segments, stepMs, n + 1)
  {
    NextIsPlaced(entries[..n], entries[n], segments[..n], segments[n], stepMs);
    TakeNext(entries, n);
    TakeNext(segments, n);
  }

  /** Climbs from the first `n` entries to all. */
  lemma {:induction false} PlacedFrom(entries: seq<Entry>, segments: seq<nat>, stepMs: int, n: nat)
    requires Parsed(entries, segments) && n <= |entries| && PlacedUpTo(entries, segments, stepMs, n)
    ensures PlacedUpTo(entries, segments, stepMs, |entries|)
    decreases |entries| - n
  {
    if n < |entries| {
      PlacedStep(entries, segments, stepMs, n);
      PlacedFrom(entries, segments, stepMs, n + 1);
    }
  }

  lemma {:induction false} WrittenParses(entries: seq<Entry>, segments: seq<nat>)
    requires Written(entries, segments)
    ensures Parsed(entries, segments)
  {
    forall k | 0 <= k < |entries|
      ensures ParsesTo(entries[k], segments[k])
    {
      NameIsSegment(entries[k], segments[k]);
    }
  }

  /**
   Whatever order the directory is listed in (by name, 100 comes before 11), each segment file
   gets its own index, the start of its own slice and its own duration.
   */
  lemma {:induction false} OffsetsFollowNames(entries: seq<Entry>, segments: seq<nat>, stepMs: int)
    requires Written(entries, segments)
    ensures Placed(Files(entries, stepMs), entries, segments, stepMs)
  {
    WrittenParses(entries, segments);
    PlacedFrom(entries, segments, stepMs, 0);
    assert entries[..|entries|] == entries && segments[..|entries|] == segments;
  }

  /** An entry that is no segment file is left out, wherever it is listed. */
  lemma {:induction false} OthersAreLeftOut(before: seq<Entry>, other: Entry, after: seq<Entry>, stepMs: int)
    requires other.isDir || StorageKeys.ParseSegmentIndex(other.name).None?
    ensures Files(before + [other] + after, stepMs) == Files(before + after, stepMs)
  {
    if after == [] {
      FilesGrow(before, other, stepMs);
      assert before + [other] + after == before + [other] && before + after == before;
    } else {
      var init, last := after[..|after| - 1], after[|after| - 1];
      OthersAreLeftOut(before, other, init, stepMs);
      assert before + [other] + after == (before + [other] + init) + [last];
      assert before + after == (before + init) + [last];
      FilesGrow(before + [other] + init, last, stepMs);
      FilesGrow(before + init, last, stepMs);
    }
  }
}
