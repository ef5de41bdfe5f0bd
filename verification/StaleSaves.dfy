/** The video row when handlers interleave and save stale copies. */
module StaleSaves {
  import opened Domain
  import opened VideoAggregate

  /**
   What a handler has loaded, and the commands it has given to its copy since.  Outside of a
   transaction a handler loads the whole row, works on its copy and later saves the copy as a whole;
   nothing notices that the row has moved on.  Only the confirmation of an upload loads and saves
   under one lock.
   */
  datatype Copy = Copy(loaded: VideoRow, done: seq<Command>)
  {
    function Row(): VideoRow {
      Run(Aggregate(loaded, []), done).0.row
    }

    function Buffer(): seq<Event> {
      Recorded(Aggregate(loaded, []), done)
    }
  }

  datatype State = State(row: VideoRow, stored: seq<Event>, copies: map<nat, Copy>)

  datatype Action =
    | Load(handler: nat)
    | Do(handler: nat, command: Command)
    | Save(handler: nat)
    | Drop(handler: nat)
    | Locked(command: Command)

  /** A command that is refused ends a handler without saving. */
  predicate Goes(row: VideoRow, c: Command) {
    !c.PullEvents? && ReplyTo(row.status, c) == Accepted
  }

  ghost predicate Acts(s: State, a: Action, s': State) {
    match a
    case Load(n) => s' == s.(copies := s.copies[n := Copy(s.row, [])])
    case Do(n, c) =>
      && n in s.copies && Goes(s.copies[n].Row(), c)
      && s' == s.(copies := s.copies[n := s.copies[n].(done := s.copies[n].done + [c])])
    case Save(n) =>
      && n in s.copies
      && (var k := s.copies[n];
          s' == State(k.Row(), s.stored + k.Buffer(), s.copies[n := Copy(k.Row(), [])]))
    case Drop(n) => s' == s.(copies := s.copies - {n})
    case Locked(c) =>
      Goes(s.row, c) && s' == s.(row := NextRow(s.row, c), stored := s.stored + Records(s.row.status, c))
  }

  ghost predicate ActsAt(h: seq<State>, actions: seq<Action>, i: nat)
    requires i + 1 < |h| && i < |actions|
  {
    Acts(h[i], actions[i], h[i + 1])
  }

  ghost predicate IsRun(h: seq<State>, actions: seq<Action>) {
    && |h| == |actions| + 1 && h[0].copies == map[] && h[0].stored == []
    && forall i {:trigger ActsAt(h, actions, i)} :: 0 <= i < |actions| ==> ActsAt(h, actions, i)
  }

  // ----- Rows and records of histories put together -----

  lemma {:induction false} RowIgnoresEvents(a: Aggregate, b: Aggregate, cs: seq<Command>)
    requires a.row == b.row
    ensures Run(a, cs).0.row == Run(b, cs).0.row
    ensures Recorded(a, cs) == Recorded(b, cs)
  {
    if cs != [] {
      RowIgnoresEvents(a, b, cs[..|cs| - 1]);
    }
  }

  lemma LateInit(early: seq<Command>, late: seq<Command>)
    requires late != []
    ensures (early + late)[..|early + late| - 1] == early + late[..|late| - 1]
    ensures (early + late)[|early + late| - 1] == late[|late| - 1]
  {
  }

  lemma {:induction false} RowsInARow(a: Aggregate, early: seq<Command>, late: seq<Command>)
    ensures Run(a, early + late).0.row == Run(Aggregate(Run(a, early).0.row, []), late).0.row
  {
    if late == [] {
      assert early + late == early;
    } else {
      LateInit(early, late);
      RowsInARow(a, early, late[..|late| - 1]);
    }
  }

  lemma RecordedStep(a: Aggregate, init: seq<Command>, c: Command)
    ensures Recorded(a, init + [c]) == Recorded(a, init) + Records(Run(a, init).0.row.status, c)
  {
    assert (init + [c])[..|init|] == init;
  }

  lemma Associates(x: seq<Event>, y: seq<Event>, z: seq<Event>)
    ensures (x + y) + z == x + (y + z)
  {
  }

  /** Late commands record on `b`, the aggregate after the early ones, what they record after those. */
  ghost predicate Follows(a: Aggregate, b: Aggregate, early: seq<Command>, late: seq<Command>) {
    Recorded(a, early + late) == Recorded(a, early) + Recorded(b, late)
  }

  lemma LastFollows(a: Aggregate, b: Aggregate, early: seq<Command>, init: seq<Command>, c: Command)
    requires Run(a, early + init).0.row == Run(b, init).0.row && Follows(a, b, early, init)
    ensures Follows(a, b, early, init + [c])
  {
    RecordedStep(a, early + init, c);
    RecordedStep(b, init, c);
    assert early + (init + [c]) == early + init + [c];
    Associates(Recorded(a, early), Recorded(b, init), Records(Run(b, init).0.row.status, c));
  }

  lemma NextFollows(a: Aggregate, b: Aggregate, early: seq<Command>, late: seq<Command>, n: nat)
    requires n < |late| && b == Aggregate(Run(a, early).0.row, []) && Follows(a, b, early, late[..n])
    ensures Follows(a, b, early, late[..n + 1])
  {
    RowsInARow(a, early, late[..n]);
    LastFollows(a, b, early, late[..n], late[n]);
    assert late[..n + 1] == late[..n] + [late[n]];
  }

  /** Climbs from the first `n` late commands to all. */
  lemma {:induction false} FollowsFrom(a: Aggregate, b: Aggregate, early: seq<Command>, late: seq<Command>, n: nat)
    requires n <= |late| && b == Aggregate(Run(a, early).0.row, []) && Follows(a, b, early, late[..n])
    ensures Follows(a, b, early, late[..|late|])
    decreases |late| - n
  {
    if n < |late| {
      NextFollows(a, b, early, late, n);
      FollowsFrom(a, b, early, late, n + 1);
    }
  }

  lemma RecordsInARow(a: Aggregate, early: seq<Command>, late: seq<Command>)
    ensures Follows(a, Aggregate(Run(a, early).0.row, []), early, late)
  {
    assert early + late[..0] == early && late[..|late|] == late;
    FollowsFrom(a, Aggregate(Run(a, early).0.row, []), early, late, 0);
  }

  lemma OneCommand(a: Aggregate, c: Command)
    ensures Run(a, [c]).0.row == NextRow(a.row, c) && Recorded(a, [c]) == Records(a.row.status, c)
  {
    assert [c][..0] == [];
  }

  // ----- Saves of current copies -----

  /** Whenever a copy is saved the row is still the one that was loaded. */
  ghost predicate AllCurrent(h: seq<State>, actions: seq<Action>, i: nat) {
    forall k :: 0 <= k < i && k < |actions| && k < |h| && actions[k].Save? && actions[k].handler in h[k].copies ==>
      h[k].copies[actions[k].handler].loaded == h[k].row
  }

  /**
   As long as only current copies are saved, the row and all stored events are those of one
   sequence of calls on one aggregate, so that everything proved about such histories holds.
   */
  lemma {:induction false} CurrentSavesSerialize(h: seq<State>, actions: seq<Action>, i: nat) returns (cs: seq<Command>)
    requires IsRun(h, actions) && i < |h| && AllCurrent(h, actions, i)
    ensures var a := Aggregate(h[0].row, []);
      h[i].row == Run(a, cs).0.row && h[i].stored == Recorded(a, cs)
  {
    var a := Aggregate(h[0].row, []);
    if i == 0 {
      cs := [];
    } else {
      cs := CurrentSavesSerialize(h, actions, i - 1);
      assert ActsAt(h, actions, i - 1);
      var s, b := h[i - 1], Aggregate(h[i - 1].row, []);
      match actions[i - 1]
      case Save(n) =>
        RowsInARow(a, cs, s.copies[n].done);
        RecordsInARow(a, cs, s.copies[n].done);
        cs := cs + s.copies[n].done;
      case Locked(c) =>
        OneCommand(b, c);
        RowsInARow(a, cs, [c]);
        RecordsInARow(a, cs, [c]);
        cs := cs + [c];
      case _ =>
    }
  }

  /**
   So with current saves only, the finish time is set exactly on success, upload and expiry together
   are announced at most once, and classification exactly as often as the video is in success.
   */
  lemma CurrentSavesKeepHistory(h: seq<State>, actions: seq<Action>, i: nat)
    requires IsRun(h, actions) && i < |h| && AllCurrent(h, actions, i)
    requires h[0].row.status == Pending && !h[0].row.finished
    ensures h[i].row.finished <==> h[i].row.status == Success
    ensures Count(h[i].stored, IsUploadOutcome) <= 1
    ensures Count(h[i].stored, IsClassified) == if h[i].row.status == Success then 1 else 0
  {
    var cs := CurrentSavesSerialize(h, actions, i);
    HistoryOf(Aggregate(h[0].row, []), cs);
  }

  // ----- Success -----

  predicate IsLive(row: VideoRow) {
    row.status == Pending || row.status == Processing
  }

  /** One of the commands classifies a copy that is still live. */
  predicate Classifies(a: Aggregate, cs: seq<Command>) {
    cs != [] &&
    var init := cs[..|cs| - 1];
    Classifies(a, init) || (cs[|cs| - 1].MarkClassified? && IsLive(Run(a, init).0.row))
  }

  /** A copy is saved in success only if it was loaded so or classifies the video itself. */
  lemma {:induction false} EndsInSuccessIff(a: Aggregate, cs: seq<Command>)
    ensures Run(a, cs).0.row.status == Success <==> a.row.status == Success || Classifies(a, cs)
  {
    if cs != [] {
      EndsInSuccessIff(a, cs[..|cs| - 1]);
    }
  }

  /** A save that keeps success: of a copy loaded in success, or that classifies the video itself. */
  predicate KeepsSuccess(s: State, a: Action) {
    a.Save? && a.handler in s.copies ==>
      var k := s.copies[a.handler];
      k.loaded.status == Success || Classifies(Aggregate(k.loaded, []), k.done)
  }

  lemma SuccessAfter(s: State, a: Action, s': State)
    requires Acts(s, a, s') && s.row.status == Success
    ensures s'.row.status == Success <==> KeepsSuccess(s, a)
  {
    if a.Save? {
      var k := s.copies[a.handler];
      EndsInSuccessIff(Aggregate(k.loaded, []), k.done);
    }
  }

  ghost predicate SuccessFrom(h: seq<State>, i: nat) {
    forall j :: i <= j < |h| ==> h[j].row.status == Success
  }

  lemma {:induction false} SuccessClimbs(h: seq<State>, actions: seq<Action>, i: nat, j: nat)
    requires IsRun(h, actions) && i <= j < |h| && h[i].row.status == Success
    requires forall k :: i <= k < |actions| ==> KeepsSuccess(h[k], actions[k])
    ensures h[j].row.status == Success
  {
    if i < j {
      SuccessClimbs(h, actions, i, j - 1);
      assert ActsAt(h, actions, j - 1);
      SuccessAfter(h[j - 1], actions[j - 1], h[j]);
    }
  }

  /**
   Success of a video is kept if and only if no copy that was loaded before it is saved after it,
   except by a handler that classifies the video once more.
   */
  lemma SuccessIsKeptIff(h: seq<State>, actions: seq<Action>, i: nat)
    requires IsRun(h, actions) && i < |h| && h[i].row.status == Success
    ensures SuccessFrom(h, i) <==> forall k :: i <= k < |actions| ==> KeepsSuccess(h[k], actions[k])
  {
    if SuccessFrom(h, i) {
      forall k | i <= k < |actions|
        ensures KeepsSuccess(h[k], actions[k])
      {
        assert ActsAt(h, actions, k) && h[k + 1].row.status == Success;
        SuccessAfter(h[k], actions[k], h[k + 1]);
      }
    }
    if forall k :: i <= k < |actions| ==> KeepsSuccess(h[k], actions[k]) {
      forall j | i <= j < |h|
        ensures h[j].row.status == Success
      {
        SuccessClimbs(h, actions, i, j);
      }
    }
  }

  // ----- Uploads -----

  /** A sweep loads a row in its listing, marks the copy and saves it; a confirmation is locked. */
  ghost predicate UploadStep(s: State, a: Action) {
    match a
    case Load(_) => true
    case Drop(_) => true
    case Do(_, c) => c == MarkUploadExpired
    case Save(n) => n in s.copies && s.copies[n].done != []
    case Locked(c) => c.MarkUploaded?
  }

  ghost predicate UploadRun(h: seq<State>, actions: seq<Action>) {
    && IsRun(h, actions) && h[0].row.status == Pending
    && forall i :: 0 <= i < |actions| ==> UploadStep(h[i], actions[i])
  }

  /** A sweep saves its copy although the row is no longer pending. */
  predicate IsStale(s: State, a: Action) {
    a.Save? && s.row.status != Pending
  }

  function StaleSweeps(h: seq<State>, actions: seq<Action>, i: nat): nat
    requires i <= |actions| <= |h|
  {
    if i == 0 then 0 else StaleSweeps(h, actions, i - 1) + if IsStale(h[i - 1], actions[i - 1]) then 1 else 0
  }

  ghost predicate SweepCopy(k: Copy) {
    k.done == [] || (k.done == [MarkUploadExpired] && k.loaded.status == Pending)
  }

  ghost predicate UploadInv(s: State, stale: nat) {
    && (forall n :: n in s.copies ==> SweepCopy(s.copies[n]))
    && s.row.status != Success
    && Count(s.stored, IsUploadOutcome) == (if s.row.status == Pending then 0 else 1) + stale
    && (s.row.status == Pending ==> stale == 0 && Uploaded !in s.stored)
    && (s.row.status == Processing ==> stale == 0 && Uploaded in s.stored)
    && (s.row.status == Failed && Uploaded in s.stored ==> stale > 0)
  }

  lemma SweepSaves(k: Copy)
    requires SweepCopy(k) && k.done != []
    ensures k.Row() == k.loaded.(status := Failed) && k.Buffer() == [UploadExpired]
  {
    OneCommand(Aggregate(k.loaded, []), MarkUploadExpired);
  }

  lemma SweepMarks(k: Copy)
    requires SweepCopy(k) && Goes(k.Row(), MarkUploadExpired)
    ensures SweepCopy(k.(done := k.done + [MarkUploadExpired]))
  {
    if k.done != [] {
      SweepSaves(k);
    }
  }

  lemma OneOutcome(stored: seq<Event>, e: Event)
    requires IsUploadOutcome(e)
    ensures Count(stored + [e], IsUploadOutcome) == Count(stored, IsUploadOutcome) + 1
  {
    assert (stored + [e])[..|stored|] == stored;
  }

  lemma SweepSaveKeeps(s: State, n: nat, s': State, stale: nat)
    requires UploadInv(s, stale) && Acts(s, Save(n), s') && UploadStep(s, Save(n))
    ensures UploadInv(s', stale + if s.row.status == Pending then 0 else 1)
  {
    SweepSaves(s.copies[n]);
    OneOutcome(s.stored, UploadExpired);
  }

  lemma ConfirmKeeps(s: State, c: Command, s': State, stale: nat)
    requires UploadInv(s, stale) && Acts(s, Locked(c), s') && c.MarkUploaded?
    ensures UploadInv(s', stale)
  {
    if s.row.status == Pending {
      assert Records(s.row.status, c) == [Uploaded];
      OneOutcome(s.stored, Uploaded);
    } else {
      assert s'.stored == s.stored;
    }
  }

  lemma UploadKeeps(s: State, a: Action, s': State, stale: nat)
    requires UploadInv(s, stale) && Acts(s, a, s') && UploadStep(s, a)
    ensures UploadInv(s', stale + if IsStale(s, a) then 1 else 0)
  {
    match a
    case Do(n, c) => SweepMarks(s.copies[n]);
    case Save(n) => SweepSaveKeeps(s, n, s', stale);
    case Locked(c) => ConfirmKeeps(s, c, s', stale);
    case _ =>
  }

  lemma {:induction false} UploadRunInv(h: seq<State>, actions: seq<Action>, i: nat)
    requires UploadRun(h, actions) && i < |h|
    ensures UploadInv(h[i], StaleSweeps(h, actions, i))
  {
    if i > 0 {
      UploadRunInv(h, actions, i - 1);
      assert ActsAt(h, actions, i - 1) && UploadStep(h[i - 1], actions[i - 1]);
      UploadKeeps(h[i - 1], actions[i - 1], h[i], StaleSweeps(h, actions, i - 1));
    }
  }

  /**
   Sweeps and confirmations in any interleaving: outcomes are announced once when the video leaves
   pending and once more for every sweep that saves a row confirmed or expired since its listing.
   A confirmed upload survives if and only if there was no such sweep.
   */
  lemma ConfirmedSurvivesIff(h: seq<State>, actions: seq<Action>, i: nat)
    requires UploadRun(h, actions) && i < |h|
    ensures Count(h[i].stored, IsUploadOutcome)
         == (if h[i].row.status == Pending then 0 else 1) + StaleSweeps(h, actions, i)
    ensures Uploaded in h[i].stored ==> (h[i].row.status == Processing <==> StaleSweeps(h, actions, i) == 0)
  {
    UploadRunInv(h, actions, i);
  }

  // ----- Two runs -----

  ghost predicate RunTo(h: seq<State>, actions: seq<Action>, s: State) {
    IsRun(h, actions) && h[|h| - 1] == s
  }

  lemma Then(h: seq<State>, actions: seq<Action>, s: State, a: Action, s': State)
    returns (h': seq<State>, actions': seq<Action>)
    requires RunTo(h, actions, s) && Acts(s, a, s')
    ensures RunTo(h', actions', s')
  {
    h', actions' := h + [s'], actions + [a];
    forall i | 0 <= i < |actions'|
      ensures ActsAt(h', actions', i)
    {
      if i < |actions| {
        assert ActsAt(h, actions, i);
      }
    }
  }

  const PENDING_ROW := VideoRow(Pending, false, "", 0, "")
  const PROCESSING_ROW := PENDING_ROW.(status := Processing)

  lemma OneStep(row: VideoRow, c: Command)
    ensures Copy(row, [c]).Row() == NextRow(row, c) && Copy(row, [c]).Buffer() == Records(row.status, c)
  {
    OneCommand(Aggregate(row, []), c);
  }

  /** A handler loads the row `row`, gives one command and saves, while the row has become `now`. */
  lemma LateSave(h: seq<State>, actions: seq<Action>, s: State, n: nat, row: VideoRow, c: Command)
    returns (h': seq<State>, actions': seq<Action>, s': State)
    requires RunTo(h, actions, s) && n in s.copies && s.copies[n] == Copy(row, []) && Goes(row, c)
    ensures RunTo(h', actions', s')
    ensures s' == State(NextRow(row, c), s.stored + Records(row.status, c), s.copies[n := Copy(NextRow(row, c), [])])
  {
    OneStep(row, c);
    var t := s.(copies := s.copies[n := Copy(row, [c])]);
    assert Copy(row, []).done + [c] == [c];
    h', actions' := Then(h, actions, s, Do(n, c), t);
    s' := State(NextRow(row, c), s.stored + Records(row.status, c), s.copies[n := Copy(NextRow(row, c), [])]);
    assert t.copies[n := Copy(NextRow(row, c), [])] == s'.copies;
    h', actions' := Then(h', actions', t, Save(n), s');
  }

  const BOTH_LOADED := State(PROCESSING_ROW, [], map[0 := Copy(PROCESSING_ROW, []), 1 := Copy(PROCESSING_ROW, [])])

  lemma BothLoad() returns (h: seq<State>, actions: seq<Action>)
    ensures RunTo(h, actions, BOTH_LOADED)
  {
    var s0 := State(PROCESSING_ROW, [], map[]);
    var s1 := s0.(copies := map[0 := Copy(PROCESSING_ROW, [])]);
    assert RunTo([s0], [], s0);
    h, actions := Then([s0], [], s0, Load(0), s1);
    assert s1.copies[1 := Copy(PROCESSING_ROW, [])] == BOTH_LOADED.copies;
    h, actions := Then(h, actions, s1, Load(1), BOTH_LOADED);
  }

  /**
   An OCR handler that loaded the video before a classification handler finished it saves its copy
   afterwards: the announced success is gone.
   */
  lemma SuccessCanBeLost()
    ensures exists h: seq<State>, actions: seq<Action> ::
      IsRun(h, actions) && h[|h| - 1].row.status == Processing && FramesClassified(1) in h[|h| - 1].stored
  {
    var h, actions := BothLoad();
    var s;
    h, actions, s := LateSave(h, actions, BOTH_LOADED, 1, PROCESSING_ROW, MarkClassified(1));
    h, actions, s := LateSave(h, actions, s, 0, PROCESSING_ROW, MarkOcrProcessing(1, 0));
    assert s.stored == [FramesClassified(1), OcrProcessing(1, 0)];
    assert IsRun(h, actions) && h[|h| - 1] == s;
  }

  /** A sweep that listed the video before its upload was confirmed saves its copy afterwards. */
  lemma ConfirmedUploadCanExpire()
    ensures exists h: seq<State>, actions: seq<Action> ::
      IsRun(h, actions) && h[|h| - 1].row.status == Failed && h[|h| - 1].stored == [Uploaded, UploadExpired]
  {
    var s0 := State(PENDING_ROW, [], map[]);
    var s1 := s0.(copies := map[0 := Copy(PENDING_ROW, [])]);
    var s2 := s1.(row := PROCESSING_ROW, stored := [Uploaded]);
    assert RunTo([s0], [], s0);
    var h, actions := Then([s0], [], s0, Load(0), s1);
    h, actions := Then(h, actions, s1, Locked(MarkUploaded("", 0)), s2);
    var s;
    h, actions, s := LateSave(h, actions, s2, 0, PENDING_ROW, MarkUploadExpired);
    assert IsRun(h, actions) && h[|h| - 1] == s;
  }
}
