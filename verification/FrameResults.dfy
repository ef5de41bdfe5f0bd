/** How raw worker output becomes rows, and how frames are split. */
module FrameResults {
  import opened Domain

  // ----- Text -----

  predicate IsSpace(c: char) {
    || c in "\t\n\U{000B}\U{000C}\r \U{0085}\U{00A0}\U{1680}\U{2028}\U{2029}\U{202F}\U{205F}\U{3000}"
    || '\U{2000}' <= c <= '\U{200A}'
  }

  /** The text without leading and trailing white space. */
  function TrimSpace(s: string): string {
    if s == "" then ""
    else if IsSpace(s[0]) then TrimSpace(s[1..])
    else if IsSpace(s[|s| - 1]) then TrimSpace(s[..|s| - 1])
    else s
  }

  predicate Blank(s: string) {
    forall i :: 0 <= i < |s| ==> IsSpace(s[i])
  }

  /** Nothing is left exactly of a blank text. */
  lemma {:induction false} TrimOfBlank(s: string)
    ensures TrimSpace(s) == "" <==> Blank(s)
    decreases |s|
  {
    if s != "" && IsSpace(s[0]) {
      TrimOfBlank(s[1..]);
      assert s == [s[0]] + s[1..];
    } else if s != "" && IsSpace(s[|s| - 1]) {
      TrimOfBlank(s[..|s| - 1]);
      assert !Blank(s[..|s| - 1]) by {
        assert s[..|s| - 1][0] == s[0];
      }
    }
  }

  predicate HasTextAtEnds(s: string) {
    s != "" ==> !IsSpace(s[0]) && !IsSpace(s[|s| - 1])
  }

  /** What is left begins and ends with text. */
  lemma {:induction false} TrimEnds(s: string)
    ensures HasTextAtEnds(TrimSpace(s))
    decreases |s|
  {
    if s != "" && IsSpace(s[0]) {
      TrimEnds(s[1..]);
      assert TrimSpace(s) == TrimSpace(s[1..]);
    } else if s != "" && IsSpace(s[|s| - 1]) {
      TrimEnds(s[..|s| - 1]);
      assert TrimSpace(s) == TrimSpace(s[..|s| - 1]);
    }
  }

  lemma TrimIsIdempotent(s: string)
    ensures TrimSpace(TrimSpace(s)) == TrimSpace(s)
  {
    TrimEnds(s);
  }

  /** `t` is what stands between two ends of white space. */
  ghost predicate Between(s: string, m: nat, n: nat, t: string) {
    && m <= n <= |s| && t == s[m..n]
    && (forall i :: 0 <= i < m ==> IsSpace(s[i])) && (forall i :: n <= i < |s| ==> IsSpace(s[i]))
  }

  /** `t` is `s` without white space at its ends, and only that is missing. */
  ghost predicate IsTrimmed(s: string, t: string) {
    HasTextAtEnds(t) && exists m, n :: Between(s, m, n, t)
  }

  lemma OneMoreInFront(s: string, m: nat, n: nat, t: string)
    requires s != "" && IsSpace(s[0]) && Between(s[1..], m, n, t)
    ensures Between(s, m + 1, n + 1, t)
  {
    assert s[1..][m..n] == s[m + 1..n + 1];
    forall i: nat | i < m + 1 || n + 1 <= i < |s|
      ensures IsSpace(s[i])
    {
      assert i > 0 ==> s[i] == s[1..][i - 1];
    }
  }

  lemma OneMoreBehind(s: string, m: nat, n: nat, t: string)
    requires s != "" && IsSpace(s[|s| - 1]) && Between(s[..|s| - 1], m, n, t)
    ensures Between(s, m, n, t)
  {
    assert s[..|s| - 1][m..n] == s[m..n];
  }

  lemma {:induction false} TrimLeaves(s: string) returns (m: nat, n: nat)
    ensures Between(s, m, n, TrimSpace(s))
    decreases |s|
  {
    m, n := 0, |s|;
    if s != "" && IsSpace(s[0]) {
      m, n := TrimLeaves(s[1..]);
      OneMoreInFront(s, m, n, TrimSpace(s));
      m, n := m + 1, n + 1;
    } else if s != "" && IsSpace(s[|s| - 1]) {
      m, n := TrimLeaves(s[..|s| - 1]);
      OneMoreBehind(s, m, n, TrimSpace(s));
    }
  }

  lemma TrimIs(s: string)
    ensures IsTrimmed(s, TrimSpace(s))
  {
    TrimEnds(s);
    var m, n := TrimLeaves(s);
  }

  /** By code point: tab to carriage return, the blanks from 8192 to 8202, and nine more. */
  lemma SpacesAre(c: char)
    ensures IsSpace(c) <==>
      9 <= c as int <= 13 || 8192 <= c as int <= 8202
      || c as int in {32, 133, 160, 5760, 8232, 8233, 8239, 8287, 12288}
  {
  }

  // ----- OCR rows -----

  datatype OcrResult = OcrResult(frame: FrameKey, text: string, confidence: real, status: string, errorReason: string)
  {
    predicate IsFinal() {
      status == "success" || status == "empty"
    }
  }

  /** What the OCR worker sends for one frame; `frame` is None when its id does not parse. */
  datatype OcrPayload = OcrPayload(frame: Option<FrameKey>, text: string, confidence: real, status: string)

  function NormalizeResult(frame: FrameKey, rawText: string, confidence: real, rawStatus: string, minConfidence: real)
    : OcrResult
  {
    var text := TrimSpace(rawText);
    var status := if rawStatus != "" then rawStatus else if text == "" then "empty" else "success";
    if status == "failed" then OcrResult(frame, "", confidence, "failed", "ocr engine failed")
    else if status == "empty" || text == "" then OcrResult(frame, "", 0.0, "empty", "")
    else if minConfidence > 0.0 && confidence < minConfidence then
      OcrResult(frame, "", confidence, "failed", "low_confidence")
    else OcrResult(frame, text, confidence, "success", "")
  }

  /**
   A stored OCR row has text exactly when it is a success, never keeps text below the
   confidence floor, and normalising a row again changes nothing.
   */
  lemma NormalizedRowIsConsistent(frame: FrameKey, text: string, confidence: real, status: string, minConfidence: real)
    ensures var r := NormalizeResult(frame, text, confidence, status, minConfidence);
      && (r.status == "success" <==> r.text != "")
      && (r.status == "success" || r.status == "empty" || r.status == "failed")
      && (r.status == "failed" <==> r.errorReason != "")
      && (r.text != "" ==> minConfidence > 0.0 ==> minConfidence <= r.confidence)
      && NormalizeResult(frame, r.text, r.confidence, r.status, minConfidence).(errorReason := r.errorReason) == r
  {
    TrimIsIdempotent(text);
  }

  /** No answer is lost: which answers become a success, which an empty row and which a failure. */
  lemma AnswersBecome(frame: FrameKey, text: string, confidence: real, status: string, minConfidence: real)
    ensures var r := NormalizeResult(frame, text, confidence, status, minConfidence);
      && r.frame == frame
      && (r.status == "empty" <==> status != "failed" && (status == "empty" || Blank(text)))
      && (r.status == "success" <==>
            (status != "failed" && status != "empty" &&
              !Blank(text) && !(minConfidence > 0.0 && confidence < minConfidence)))
      && (r.status == "success" ==> r.text == TrimSpace(text))
      && (r.status != "empty" ==> r.confidence == confidence)
  {
    TrimOfBlank(text);
  }

  /** Specification of the loop that drops payloads whose frame id does not parse. */
  function NormalizedPayloads(items: seq<OcrPayload>, minConfidence: real): seq<OcrResult> {
    if items == [] then []
    else
      var init, last := items[..|items| - 1], items[|items| - 1];
      NormalizedPayloads(init, minConfidence) +
      (if last.frame.None? then [] else
        [NormalizeResult(last.frame.value, last.text, last.confidence, last.status, minConfidence)])
  }

  /** An answer that is neither refused nor blank, but below the floor. */
  predicate BelowFloor(p: OcrPayload, floor: real) {
    p.status != "failed" && p.status != "empty" && !Blank(p.text) && 0.0 < floor && p.confidence < floor
  }

  /** `r` is the row a payload is due: what is kept of the answer, and why the rest is not. */
  ghost predicate IsRowOf(r: OcrResult, p: OcrPayload, floor: real) {
    && p.frame == Some(r.frame)
    && (r.status == "success" || r.status == "empty" || r.status == "failed")
    && (r.status == "failed" <==> p.status == "failed" || BelowFloor(p, floor))
    && (r.status == "empty" <==> p.status != "failed" && (p.status == "empty" || Blank(p.text)))
    && (if r.status == "success" then r.text != "" && IsTrimmed(p.text, r.text) else r.text == "")
    && r.confidence == (if r.status == "empty" then 0.0 else p.confidence)
    && r.errorReason == (if p.status == "failed" then "ocr engine failed"
                         else if BelowFloor(p, floor) then "low_confidence" else "")
    && (r.IsFinal() <==> r.status != "failed")
  }

  lemma NormalizedIsRow(p: OcrPayload, floor: real)
    requires p.frame.Some?
    ensures IsRowOf(NormalizeResult(p.frame.value, p.text, p.confidence, p.status, floor), p, floor)
  {
    var text := TrimSpace(p.text);
    assert (text == "" <==> Blank(p.text)) && IsTrimmed(p.text, text) by {
      TrimOfBlank(p.text);
      TrimIs(p.text);
    }
  }

  /** `at` are the places of the payloads whose frame id parses, in order. */
  ghost predicate Parsing(items: seq<OcrPayload>, at: seq<nat>) {
    && (forall k :: 0 <= k < |at| ==> at[k] < |items| && items[at[k]].frame.Some?)
    && (forall j, k :: 0 <= j < k < |at| ==> at[j] < at[k])
    && (forall i {:trigger i in at} :: 0 <= i < |items| && items[i].frame.Some? ==> i in at)
  }

  ghost predicate AreRowsOf(rows: seq<OcrResult>, items: seq<OcrPayload>, at: seq<nat>, floor: real) {
    && |rows| == |at|
    && forall k :: 0 <= k < |at| ==> at[k] < |items| && IsRowOf(rows[k], items[at[k]], floor)
  }

  lemma ParsingGrows(init: seq<OcrPayload>, at: seq<nat>, p: OcrPayload)
    requires Parsing(init, at)
    ensures Parsing(init + [p], if p.frame.Some? then at + [|init|] else at)
  {
    var items, last := init + [p], |init|;
    assert items[last] == p;
    if p.frame.Some? {
      assert last in at + [last] && forall i :: i in at ==> i in at + [last];
    }
    forall i: nat | i < |items| && items[i].frame.Some? && i != last
      ensures i in at
    {
      assert items[i] == init[i];
    }
  }

  lemma RowsGrow(rows: seq<OcrResult>, init: seq<OcrPayload>, at: seq<nat>, floor: real, p: OcrPayload)
    requires AreRowsOf(rows, init, at, floor) && p.frame.Some?
    ensures AreRowsOf(rows + [NormalizeResult(p.frame.value, p.text, p.confidence, p.status, floor)],
      init + [p], at + [|init|], floor)
  {
    NormalizedIsRow(p, floor);
  }

  /** One row for each payload whose id parses, in order, each as that payload and the floor say. */
  lemma {:induction false} PayloadsBecomeRows(items: seq<OcrPayload>, floor: real) returns (at: seq<nat>)
    ensures Parsing(items, at) && AreRowsOf(NormalizedPayloads(items, floor), items, at, floor)
  {
    at := [];
    if items != [] {
      var init, p := items[..|items| - 1], items[|items| - 1];
      at := PayloadsBecomeRows(init, floor);
      assert items == init + [p];
      ParsingGrows(init, at, p);
      if p.frame.Some? {
        RowsGrow(NormalizedPayloads(init, floor), init, at, floor, p);
        at := at + [|init|];
      }
    }
  }

  method NormalizePayloads(items: seq<OcrPayload>, minConfidence: real) returns (out: seq<OcrResult>)
    ensures out == NormalizedPayloads(items, minConfidence)
    ensures exists at :: Parsing(items, at) && AreRowsOf(out, items, at, minConfidence)
  {
    out := [];
    for i := 0 to |items|
      invariant out == NormalizedPayloads(items[..i], minConfidence)
    {
      var item := items[i];
      assert items[..i + 1][..i] == items[..i];
      if item.frame.Some? {
        out := out + [NormalizeResult(item.frame.value, item.text, item.confidence, item.status, minConfidence)];
      }
    }
    assert items[..|items|] == items;
    ghost var at := PayloadsBecomeRows(items, minConfidence);
  }

  // ----- Classification rows -----

  datatype Category = Category(name: string, probability: real)

  datatype Classification = Classification(
    frame: FrameKey,
    confidential: bool,
    probability: real,
    categories: seq<Category>,
    status: string,
    errorReason: string)
  {
    predicate IsFinal() {
      status == "success" || status == "skipped"
    }
  }

  datatype ClassifyFrame = ClassifyFrame(frame: FrameKey, text: string)

  datatype ClassifyItem = ClassifyItem(
    frame: FrameKey,
    confidential: bool,
    probability: real,
    categories: seq<Category>,
    status: string)

  function SkippedRow(frame: FrameKey): Classification {
    Classification(frame, false, 0.0, [], "skipped", "")
  }

  /** The three fates of a frame before classification. */
  datatype Fate = AlreadyFinal | Skip | Classify(text: string)

  function FateOf(f: FrameKey, ocr: map<FrameKey, OcrResult>, final: set<FrameKey>): Fate {
    if f in final then AlreadyFinal
    else
      var text := if f in ocr then TrimSpace(ocr[f].text) else "";
      if text == "" then Skip else Classify(text)
  }

  /** A frame without a final row is skipped exactly without text; else its trimmed text is classified. */
  lemma FateIs(f: FrameKey, ocr: map<FrameKey, OcrResult>, final: set<FrameKey>)
    ensures var fate, hasText := FateOf(f, ocr, final), f in ocr && !Blank(ocr[f].text);
      && (fate.AlreadyFinal? <==> f in final)
      && (fate.Skip? <==> f !in final && !hasText)
      && (fate.Classify? <==> f !in final && hasText)
      && (fate.Classify? ==> IsTrimmed(ocr[f].text, fate.text))
  {
    if f in ocr {
      TrimOfBlank(ocr[f].text);
      TrimIs(ocr[f].text);
    }
  }

  /** The frames with a given fate, in order. */
  function Pendings(frames: seq<FrameKey>, ocr: map<FrameKey, OcrResult>, final: set<FrameKey>): seq<ClassifyFrame> {
    if frames == [] then []
    else
      var init, f := frames[..|frames| - 1], frames[|frames| - 1];
      Pendings(init, ocr, final) +
      match FateOf(f, ocr, final)
      case Classify(text) => [ClassifyFrame(f, text)]
      case _ => []
  }

  function Skippeds(frames: seq<FrameKey>, ocr: map<FrameKey, OcrResult>, final: set<FrameKey>): seq<Classification> {
    if frames == [] then []
    else
      var init, f := frames[..|frames| - 1], frames[|frames| - 1];
      Skippeds(init, ocr, final) + if FateOf(f, ocr, final).Skip? then [SkippedRow(f)] else []
  }

  function Finals(frames: seq<FrameKey>, ocr: map<FrameKey, OcrResult>, final: set<FrameKey>): seq<FrameKey> {
    if frames == [] then []
    else
      var init, f := frames[..|frames| - 1], frames[|frames| - 1];
      Finals(init, ocr, final) + if FateOf(f, ocr, final).AlreadyFinal? then [f] else []
  }

  function FinalFrames(items: seq<Classification>): set<FrameKey> {
    set i | 0 <= i < |items| && items[i].IsFinal() :: items[i].frame
  }

  /** Later rows win, as they do in the map the program fills. */
  function OcrByFrame(rows: seq<OcrResult>): map<FrameKey, OcrResult> {
    if rows == [] then map[]
    else OcrByFrame(rows[..|rows| - 1])[rows[|rows| - 1].frame := rows[|rows| - 1]]
  }

  /** Which frames are final, and that of several OCR rows for a frame the last one counts. */
  lemma {:induction false} TablesAre(items: seq<Classification>, rows: seq<OcrResult>, f: FrameKey)
    ensures f in FinalFrames(items) <==>
      exists i :: 0 <= i < |items| && items[i].frame == f &&
        (items[i].status == "success" || items[i].status == "skipped")
    ensures f in OcrByFrame(rows) <==> exists i :: 0 <= i < |rows| && rows[i].frame == f
    ensures forall i :: 0 <= i < |rows| && rows[i].frame == f && (forall j :: i < j < |rows| ==> rows[j].frame != f) ==>
      f in OcrByFrame(rows) && OcrByFrame(rows)[f] == rows[i]
  {
    if rows != [] {
      var init, last := rows[..|rows| - 1], rows[|rows| - 1];
      TablesAre(items, init, f);
      assert rows == init + [last];
      if last.frame == f {
        assert rows[|rows| - 1].frame == f;
      } else {
        assert forall i :: 0 <= i < |init| ==> rows[i] == init[i];
      }
    }
  }

  method PendingClassifyFrames(frames: seq<FrameKey>, ocrResults: seq<OcrResult>, items: seq<Classification>)
    returns (pending: seq<ClassifyFrame>, skipped: seq<Classification>)
    ensures pending == Pendings(frames, OcrByFrame(ocrResults), FinalFrames(items))
    ensures skipped == Skippeds(frames, OcrByFrame(ocrResults), FinalFrames(items))
  {
    var done: set<FrameKey> := {};
    for i := 0 to |items|
      invariant done == FinalFrames(items[..i])
    {
      if items[i].IsFinal() {
        done := done + {items[i].frame};
      }
    }
    assert items[..|items|] == items;

    var ocrByFrame: map<FrameKey, OcrResult> := map[];
    for i := 0 to |ocrResults|
      invariant ocrByFrame == OcrByFrame(ocrResults[..i])
    {
      assert ocrResults[..i + 1][..i] == ocrResults[..i];
      ocrByFrame := ocrByFrame[ocrResults[i].frame := ocrResults[i]];
    }
    assert ocrResults[..|ocrResults|] == ocrResults;

    pending, skipped := [], [];
    for i := 0 to |frames|
      invariant pending == Pendings(frames[..i], ocrByFrame, done)
      invariant skipped == Skippeds(frames[..i], ocrByFrame, done)
    {
      var frame := frames[i];
      assert frames[..i + 1][..i] == frames[..i];
      if frame in done {
        continue;
      }
      var text := "";
      if frame in ocrByFrame {
        text := TrimSpace(ocrByFrame[frame].text);
      }
      if text == "" {
        skipped := skipped + [SkippedRow(frame)];
        continue;
      }
      pending := pending + [ClassifyFrame(frame, text)];
    }
    assert frames[..|frames|] == frames;
  }

  function FramesOf(rows: seq<Classification>): seq<FrameKey> {
    seq(|rows|, i requires 0 <= i < |rows| => rows[i].frame)
  }

  function TargetsOf(pending: seq<ClassifyFrame>): seq<FrameKey> {
    seq(|pending|, i requires 0 <= i < |pending| => pending[i].frame)
  }

  /** Everything the split returns, as one bag of frames. */
  function Parts(frames: seq<FrameKey>, ocr: map<FrameKey, OcrResult>, final: set<FrameKey>): multiset<FrameKey> {
    multiset(Finals(frames, ocr, final))
    + multiset(FramesOf(Skippeds(frames, ocr, final)))
    + multiset(TargetsOf(Pendings(frames, ocr, final)))
  }

  function Only(f: FrameKey, present: bool): multiset<FrameKey> {
    if present then multiset{f} else multiset{}
  }

  lemma FinalsGrow(init: seq<FrameKey>, f: FrameKey, ocr: map<FrameKey, OcrResult>, final: set<FrameKey>)
    ensures multiset(Finals(init + [f], ocr, final))
         == multiset(Finals(init, ocr, final)) + Only(f, FateOf(f, ocr, final).AlreadyFinal?)
  {
  }

  lemma SkippedsGrow(init: seq<FrameKey>, f: FrameKey, ocr: map<FrameKey, OcrResult>, final: set<FrameKey>)
    ensures multiset(FramesOf(Skippeds(init + [f], ocr, final)))
         == multiset(FramesOf(Skippeds(init, ocr, final))) + Only(f, FateOf(f, ocr, final).Skip?)
  {
    assert (init + [f])[..|init|] == init;
    var s := Skippeds(init, ocr, final);
    if FateOf(f, ocr, final).Skip? {
      assert Skippeds(init + [f], ocr, final) == s + [SkippedRow(f)];
      assert FramesOf(s + [SkippedRow(f)]) == FramesOf(s) + [f];
    } else {
      assert Skippeds(init + [f], ocr, final) == s;
    }
  }

  lemma PendingsGrow(init: seq<FrameKey>, f: FrameKey, ocr: map<FrameKey, OcrResult>, final: set<FrameKey>)
    ensures multiset(TargetsOf(Pendings(init + [f], ocr, final)))
         == multiset(TargetsOf(Pendings(init, ocr, final))) + Only(f, FateOf(f, ocr, final).Classify?)
  {
    assert (init + [f])[..|init|] == init;
    var p, fate := Pendings(init, ocr, final), FateOf(f, ocr, final);
    if fate.Classify? {
      assert Pendings(init + [f], ocr, final) == p + [ClassifyFrame(f, fate.text)];
      assert TargetsOf(p + [ClassifyFrame(f, fate.text)]) == TargetsOf(p) + [f];
    } else {
      assert Pendings(init + [f], ocr, final) == p;
    }
  }

  lemma SumsRegroup(a: multiset<FrameKey>, b: multiset<FrameKey>, c: multiset<FrameKey>,
                    x: multiset<FrameKey>, y: multiset<FrameKey>, z: multiset<FrameKey>)
    ensures (a + x) + (b + y) + (c + z) == (a + b + c) + (x + y + z)
  {
  }

  lemma OneFate(f: FrameKey, fate: Fate)
    ensures Only(f, fate.AlreadyFinal?) + Only(f, fate.Skip?) + Only(f, fate.Classify?) == multiset{f}
  {
  }

  lemma PartsGrow(init: seq<FrameKey>, f: FrameKey, ocr: map<FrameKey, OcrResult>, final: set<FrameKey>)
    ensures Parts(init + [f], ocr, final) == Parts(init, ocr, final) + multiset{f}
  {
    var fate := FateOf(f, ocr, final);
    FinalsGrow(init, f, ocr, final);
    SkippedsGrow(init, f, ocr, final);
    PendingsGrow(init, f, ocr, final);
    OneFate(f, fate);
    SumsRegroup(multiset(Finals(init, ocr, final)), multiset(FramesOf(Skippeds(init, ocr, final))),
      multiset(TargetsOf(Pendings(init, ocr, final))),
      Only(f, fate.AlreadyFinal?), Only(f, fate.Skip?), Only(f, fate.Classify?));
  }

  /** No frame is lost or counted twice: the three parts together are the frames. */
  lemma {:induction false} SplitIsAPartition(frames: seq<FrameKey>, ocr: map<FrameKey, OcrResult>, final: set<FrameKey>)
    ensures multiset(frames) == Parts(frames, ocr, final)
  {
    PartsFrom(frames, 0, ocr, final);
    assert frames[..0] == [] && frames[..|frames|] == frames;
  }

  /** Adds the frames after the first `n` one by one. */
  lemma {:induction false} PartsFrom(frames: seq<FrameKey>, n: nat, ocr: map<FrameKey, OcrResult>, final: set<FrameKey>)
    requires n <= |frames| && multiset(frames[..n]) == Parts(frames[..n], ocr, final)
    ensures multiset(frames[..|frames|]) == Parts(frames[..|frames|], ocr, final)
    decreases |frames| - n
  {
    if n < |frames| {
      PartsGrow(frames[..n], frames[n], ocr, final);
      assert frames[..n + 1] == frames[..n] + [frames[n]];
      PartsFrom(frames, n + 1, ocr, final);
    }
  }

  /** Every frame is in the part its fate names. */
  lemma {:induction false} SplitFollowsFate(frames: seq<FrameKey>, ocr: map<FrameKey, OcrResult>, final: set<FrameKey>)
    ensures forall p :: p in Pendings(frames, ocr, final) ==> FateOf(p.frame, ocr, final) == Classify(p.text)
    ensures forall r :: r in Skippeds(frames, ocr, final) ==>
      r == SkippedRow(r.frame) && FateOf(r.frame, ocr, final) == Skip
    ensures forall f :: f in Finals(frames, ocr, final) ==> f in final
  {
    if frames != [] {
      SplitFollowsFate(frames[..|frames| - 1], ocr, final);
    }
  }

  /** The last raw item for a frame. */
  function LastItem(f: FrameKey, raw: seq<ClassifyItem>): Option<ClassifyItem> {
    if raw == [] then None
    else if raw[|raw| - 1].frame == f then Some(raw[|raw| - 1])
    else LastItem(f, raw[..|raw| - 1])
  }

  /** Item `i` names the frame and no later one does. */
  predicate IsLast(f: FrameKey, raw: seq<ClassifyItem>, i: nat) {
    i < |raw| && raw[i].frame == f && forall j :: i < j < |raw| ==> raw[j].frame != f
  }

  lemma OtherLastItem(f: FrameKey, init: seq<ClassifyItem>, other: ClassifyItem, i: nat)
    requires other.frame != f
    ensures IsLast(f, init + [other], i) <==> IsLast(f, init, i)
    ensures (forall k :: 0 <= k < |init + [other]| ==> (init + [other])[k].frame != f)
      <==> forall k :: 0 <= k < |init| ==> init[k].frame != f
  {
    assert forall k :: 0 <= k < |init| ==> (init + [other])[k] == init[k];
  }

  /** The last item wins, and there is none exactly when no item names the frame. */
  lemma {:induction false} LastItemWins(f: FrameKey, raw: seq<ClassifyItem>, i: nat)
    ensures IsLast(f, raw, i) ==> LastItem(f, raw) == Some(raw[i])
    ensures LastItem(f, raw).None? <==> forall k :: 0 <= k < |raw| ==> raw[k].frame != f
  {
    if raw != [] && raw[|raw| - 1].frame != f {
      var init := raw[..|raw| - 1];
      LastItemWins(f, init, i);
      OtherLastItem(f, init, raw[|raw| - 1], i);
      assert raw == init + [raw[|raw| - 1]];
    }
  }

  /** The row of one classified frame; a frame the classifier forgot becomes a failed row. */
  function RowFor(f: FrameKey, raw: seq<ClassifyItem>): Classification {
    match LastItem(f, raw)
    case None => Classification(f, false, 0.0, [], "failed", "missing classify result")
    case Some(item) =>
      var status := if item.status == "" then "success" else item.status;
      Classification(f, item.confidential, item.probability, item.categories, status,
        if status == "failed" then "classify engine failed" else "")
  }

  /** `r` says what the classifier said. */
  predicate IsAnswer(r: Classification, item: ClassifyItem) {
    && r.frame == item.frame && r.confidential == item.confidential && r.probability == item.probability
    && r.categories == item.categories
    && (if item.status == "" then r.status == "success" else r.status == item.status)
    && r.errorReason == (if r.status == "failed" then "classify engine failed" else "")
    && (item.status == "" ==> r.IsFinal()) && (item.status == "failed" ==> !r.IsFinal())
  }

  /** `r` says that the classifier forgot the frame. */
  predicate IsForgotten(r: Classification, f: FrameKey) {
    r == Classification(f, false, 0.0, [], "failed", "missing classify result") && !r.IsFinal()
  }

  predicate Forgets(raw: seq<ClassifyItem>, f: FrameKey) {
    forall k :: 0 <= k < |raw| ==> raw[k].frame != f
  }

  /** The last item for the frame decides its row; without one the frame is forgotten. */
  ghost predicate SaysAnswer(r: Classification, f: FrameKey, raw: seq<ClassifyItem>) {
    && (forall k: nat :: IsLast(f, raw, k) ==> IsAnswer(r, raw[k]))
    && (Forgets(raw, f) ==> IsForgotten(r, f))
  }

  lemma RowSaysAnswer(f: FrameKey, raw: seq<ClassifyItem>)
    ensures SaysAnswer(RowFor(f, raw), f, raw)
  {
    LastItemWins(f, raw, 0);
    forall k: nat | IsLast(f, raw, k)
      ensures IsAnswer(RowFor(f, raw), raw[k])
    {
      LastItemWins(f, raw, k);
    }
  }

  /**
   Exactly one row per pending frame, in order, whatever the classifier returned: the last item
   for the frame decides, repeated or unknown items do not, and a missing one is a failed row.
   */
  method NormalizeResults(frames: seq<ClassifyFrame>, raw: seq<ClassifyItem>) returns (out: seq<Classification>)
    ensures |out| == |frames|
    ensures forall i :: 0 <= i < |frames| ==> out[i] == RowFor(frames[i].frame, raw)
    ensures forall i :: 0 <= i < |frames| ==> SaysAnswer(out[i], frames[i].frame, raw)
  {
    var byFrame: map<FrameKey, ClassifyItem> := map[];
    for i := 0 to |raw|
      invariant forall f :: f in byFrame <==> LastItem(f, raw[..i]).Some?
      invariant forall f :: f in byFrame ==> LastItem(f, raw[..i]) == Some(byFrame[f])
    {
      assert raw[..i + 1][..i] == raw[..i];
      byFrame := byFrame[raw[i].frame := raw[i]];
    }
    assert raw[..|raw|] == raw;

    out := [];
    for i := 0 to |frames|
      invariant |out| == i
      invariant forall k :: 0 <= k < i ==> out[k] == RowFor(frames[k].frame, raw)
    {
      var frame := frames[i].frame;
      if frame !in byFrame {
        out := out + [Classification(frame, false, 0.0, [], "failed", "missing classify result")];
        continue;
      }
      var item := byFrame[frame];
      var status := item.status;
      if status == "" {
        status := "success";
      }
      var reason := "";
      if status == "failed" {
        reason := "classify engine failed";
      }
      out := out + [Classification(frame, item.confidential, item.probability, item.categories, status, reason)];
    }
    forall i | 0 <= i < |frames|
      ensures SaysAnswer(out[i], frames[i].frame, raw)
    {
      RowSaysAnswer(frames[i].frame, raw);
    }
  }

  /** A raw item that is the last for its frame decides that frame's row; no other item matters. */
  lemma {:induction false} OnlyOwnItemsMatter(f: FrameKey, raw: seq<ClassifyItem>, other: ClassifyItem)
    requires other.frame != f
    ensures forall k :: 0 <= k <= |raw| ==> RowFor(f, raw[..k] + [other] + raw[k..]) == RowFor(f, raw)
  {
    forall k | 0 <= k <= |raw|
      ensures LastItem(f, raw[..k] + [other] + raw[k..]) == LastItem(f, raw)
    {
      InsertionIsInvisible(f, raw[..k], other, raw[k..]);
      assert raw[..k] + raw[k..] == raw;
    }
  }

  lemma {:induction false} InsertionIsInvisible(f: FrameKey, before: seq<ClassifyItem>, other: ClassifyItem,
                                                after: seq<ClassifyItem>)
    requires other.frame != f
    ensures LastItem(f, before + [other] + after) == LastItem(f, before + after)
  {
    var long, short := before + [other] + after, before + after;
    if after == [] {
      assert long[..|long| - 1] == before == short;
    } else {
      var init := after[..|after| - 1];
      assert long[..|long| - 1] == before + [other] + init;
      assert short[..|short| - 1] == before + init;
      InsertionIsInvisible(f, before, other, init);
    }
  }
}
