/**
 What a stale job row would do if a failed segment were announced again, which `SplitOnce` excludes:
 it erases an increment.  Two segments, each with its own worker; both workers load the job row before
 any segment is counted.  Worker 1 stores a frame and completes, so the row counts one segment; then
 worker 0 fails and writes its older row back, which counts none.  The failed segment is announced
 again, and another stage puts the video back to processing.  The segment's worker loads the rows,
 stores a frame and completes.  All segments have succeeded, but the row counts only one of them.
 */
module LostIncrement {
  import opened Domain
  import opened Pipeline
  import opened SegmentCounter

  ghost predicate RunTo(h: seq<State>, actions: seq<Action>, s: State) {
    Run(h, actions) && h[|h| - 1] == s
  }

  lemma Then(h: seq<State>, actions: seq<Action>, s: State, a: Action, s': State)
    returns (h': seq<State>, actions': seq<Action>)
    requires RunTo(h, actions, s) && Acts(s, a, s')
    ensures RunTo(h', actions', s')
  {
    h', actions' := h + [s'], actions + [a];
    forall i | 0 <= i < |actions'|
      ensures ActsAt(h', actions', i)
    {
      if i < |actions| {
        assert ActsAt(h, actions, i);
      }
    }
  }

  /** A worker reads everything and starts on its segment. */
  lemma Load(h: seq<State>, actions: seq<Action>, s: State, g: nat)
    returns (h': seq<State>, actions': seq<Action>, s': State)
    requires RunTo(h, actions, s) && g in s.segments && g in s.queued && At(s, g).Idle? && s.segments[g] != Success
    requires s.job.status != Success && s.video != Failed
    ensures RunTo(h', actions', s')
    ensures s' == With(s, g, Working(s.video, s.job)).(segments := s.segments[g := Processing])
  {
    var s1, s2 := With(s, g, SawVideo(s.video)), With(s, g, SawJob(s.video, s.job));
    h', actions' := Then(h, actions, s, ReadVideo(g), s1);
    assert s2 == With(s1, g, SawJob(s.video, s.job));
    h', actions' := Then(h', actions', s1, ReadJob(g), s2);
    s' := AfterReadSegment(s2, g);
    h', actions' := Then(h', actions', s2, ReadSegment(g), s');
    assert s' == With(s, g, Working(s.video, s.job)).(segments := s.segments[g := Processing]);
  }

  /** Every segment has succeeded, no worker or announcement is left, yet the job never completes. */
  ghost predicate Stuck(s: State) {
    && Succeeded(s.segments) == s.segments.Keys
    && (forall g :: g in s.segments ==> At(s, g).Idle?) && s.queued == {}
    && s.job.status != Success
  }

  const NEW_ROW := JobRow(Processing, 0, 0, 2, 0)
  const FRAME := FrameKey(1, 0)
  const OTHER := FrameKey(0, 0)
  const TWO_SEGMENTS := State(Processing, NEW_ROW, map[0 := Pending, 1 := Pending], map[], {0, 1}, map[], [])
  const BOTH_LOADED := TWO_SEGMENTS.(
    segments := map[0 := Processing, 1 := Processing],
    workers := map[0 := Working(Processing, NEW_ROW), 1 := Working(Processing, NEW_ROW)])
  const ONE_STORED := BOTH_LOADED.(frames := map[FRAME := 0])
  /** Segment 1 has succeeded and is counted. */
  const ONE_COUNTED := ONE_STORED.(
    job := NEW_ROW.(completedSegments := 1),
    segments := map[0 := Processing, 1 := Success],
    queued := {0},
    workers := map[0 := Working(Processing, NEW_ROW), 1 := Idle])
  /** Segment 1 has succeeded, segment 0 has failed, and the counter is back at zero. */
  const OVERWRITTEN := ONE_COUNTED.(
    video := Failed,
    job := NEW_ROW.(status := Failed),
    segments := map[0 := Failed, 1 := Success],
    queued := {},
    workers := map[0 := Idle, 1 := Idle])
  const ANNOUNCED := OVERWRITTEN.(queued := {0})
  const AGAIN := ANNOUNCED.(video := Processing)
  const RETRIED := AGAIN.(
    segments := map[0 := Processing, 1 := Success],
    workers := map[0 := Working(Processing, NEW_ROW.(status := Failed)), 1 := Idle])
  const RETRIED_STORED := RETRIED.(frames := map[FRAME := 0, OTHER := 0])
  const STUCK := RETRIED_STORED.(
    job := NEW_ROW.(status := Failed, completedSegments := 1),
    segments := map[0 := Success, 1 := Success],
    queued := {},
    workers := map[0 := Idle, 1 := Idle])

  lemma BothLoad() returns (h: seq<State>, actions: seq<Action>)
    ensures RunTo(h, actions, BOTH_LOADED)
  {
    assert TWO_SEGMENTS.segments.Keys == {0, 1};
    assert RunTo([TWO_SEGMENTS], [], TWO_SEGMENTS);
    var s;
    h, actions, s := Load([TWO_SEGMENTS], [], TWO_SEGMENTS, 0);
    h, actions, s := Load(h, actions, s, 1);
    assert s == BOTH_LOADED;
  }

  lemma OneIsCounted()
    ensures Acts(BOTH_LOADED, Action.StoreFrame(1, 0, 0), ONE_STORED)
    ensures Acts(ONE_STORED, Complete(1, [FRAME]), ONE_COUNTED)
  {
    assert FRAME in ONE_STORED.frames && ONE_STORED.frames.Keys == {FRAME};
    assert AfterComplete(ONE_STORED, 1, [FRAME]) == ONE_COUNTED;
  }

  lemma FailureOverwrites()
    ensures Acts(ONE_COUNTED, Fail(0), OVERWRITTEN)
  {
    assert AfterFail(ONE_COUNTED, 0) == OVERWRITTEN;
  }

  lemma OneIsOverwritten(h: seq<State>, actions: seq<Action>) returns (h': seq<State>, actions': seq<Action>)
    requires RunTo(h, actions, BOTH_LOADED)
    ensures RunTo(h', actions', OVERWRITTEN)
  {
    OneIsCounted();
    h', actions' := Then(h, actions, BOTH_LOADED, Action.StoreFrame(1, 0, 0), ONE_STORED);
    h', actions' := Then(h', actions', ONE_STORED, Complete(1, [FRAME]), ONE_COUNTED);
    FailureOverwrites();
    h', actions' := Then(h', actions', ONE_COUNTED, Fail(0), OVERWRITTEN);
  }

  lemma TakenUpAgain()
    ensures Acts(OVERWRITTEN, Announce(0), ANNOUNCED)
    ensures Acts(ANNOUNCED, Elsewhere(Processing), AGAIN)
  {
  }

  lemma AnnouncedAgain(h: seq<State>, actions: seq<Action>) returns (h': seq<State>, actions': seq<Action>)
    requires RunTo(h, actions, OVERWRITTEN)
    ensures RunTo(h', actions', RETRIED)
  {
    TakenUpAgain();
    h', actions' := Then(h, actions, OVERWRITTEN, Announce(0), ANNOUNCED);
    h', actions' := Then(h', actions', ANNOUNCED, Elsewhere(Processing), AGAIN);
    var s;
    h', actions', s := Load(h', actions', AGAIN, 0);
    assert s == RETRIED;
  }

  lemma LastFrameIsStored()
    ensures Acts(RETRIED, Action.StoreFrame(0, 0, 0), RETRIED_STORED)
  {
  }

  lemma LastIsCounted()
    ensures Acts(RETRIED_STORED, Complete(0, [FRAME, OTHER]), STUCK)
  {
    assert OTHER in RETRIED_STORED.frames && RETRIED_STORED.frames.Keys == {FRAME, OTHER};
    assert multiset([FRAME, OTHER]) == multiset(RETRIED_STORED.frames.Keys);
    assert AfterComplete(RETRIED_STORED, 0, [FRAME, OTHER]) == STUCK;
  }

  /**
   Worker 0 fails with a job row read before worker 1 counted its segment; were the failed segment
   announced again, it would succeed without completing the job.
   */
  lemma AnIncrementCanBeLost()
    ensures exists h, actions :: Run(h, actions) && Stuck(h[|h| - 1])
  {
    var h, actions := BothLoad();
    h, actions := OneIsOverwritten(h, actions);
    h, actions := AnnouncedAgain(h, actions);
    LastFrameIsStored();
    LastIsCounted();
    h, actions := Then(h, actions, RETRIED, Action.StoreFrame(0, 0, 0), RETRIED_STORED);
    h, actions := Then(h, actions, RETRIED_STORED, Complete(0, [FRAME, OTHER]), STUCK);
    assert Succeeded(STUCK.segments) == STUCK.segments.Keys;
    assert Run(h, actions) && Stuck(h[|h| - 1]);
  }
}
