/** The segment counter with several workers on one segment. */
module SharedSegments {
  /**
   A worker has read its segment, has saved it as processing, or has read it once more in its
   completion transaction and found it done or not.
   */
  datatype Worker =
    | Seen(segment: nat)
    | Holding(segment: nat)
    | Checked(segment: nat, wasDone: bool)

  /** `done` are the successful ones of the segments below `expected`; nothing locks a segment row. */
  datatype State = State(expected: nat, counter: nat, done: set<nat>, workers: map<nat, Worker>)

  datatype Action =
    | Read(worker: nat, segment: nat)
    | Mark(worker: nat)
    | Check(worker: nat)
    | Commit(worker: nat)
    | Leave(worker: nat)

  ghost predicate Acts(s: State, a: Action, s': State) {
    match a
    case Read(w, g) =>
      w !in s.workers && g < s.expected && g !in s.done && s' == s.(workers := s.workers[w := Seen(g)])
    case Mark(w) =>
      && w in s.workers && s.workers[w].Seen?
      && (var g := s.workers[w].segment;
          s' == s.(done := s.done - {g}, workers := s.workers[w := Holding(g)]))
    case Check(w) =>
      && w in s.workers && s.workers[w].Holding?
      && (var g := s.workers[w].segment; s' == s.(workers := s.workers[w := Checked(g, g in s.done)]))
    case Commit(w) =>
      && w in s.workers && s.workers[w].Checked?
      && (var t := s.(workers := s.workers - {w});
          s' == if s.workers[w].wasDone then t
                else t.(done := s.done + {s.workers[w].segment}, counter := s.counter + 1))
    case Leave(w) => s' == s.(workers := s.workers - {w})
  }

  ghost predicate ActsAt(h: seq<State>, actions: seq<Action>, i: nat)
    requires i + 1 < |h| && i < |actions|
  {
    Acts(h[i], actions[i], h[i + 1])
  }

  ghost predicate Run(h: seq<State>, actions: seq<Action>) {
    && |h| == |actions| + 1 && h[0].counter == 0 && h[0].done == {} && h[0].workers == map[]
    && forall i {:trigger ActsAt(h, actions, i)} :: 0 <= i < |actions| ==> ActsAt(h, actions, i)
  }

  /** A finished segment is saved as processing again, or is counted again by a worker that saw it unfinished. */
  predicate IsDouble(s: State, a: Action) {
    match a
    case Mark(w) => w in s.workers && s.workers[w].segment in s.done
    case Commit(w) =>
      w in s.workers && s.workers[w].Checked? && !s.workers[w].wasDone && s.workers[w].segment in s.done
    case _ => false
  }

  function Doubles(h: seq<State>, actions: seq<Action>, i: nat): nat
    requires i <= |actions| <= |h|
  {
    if i == 0 then 0 else Doubles(h, actions, i - 1) + if IsDouble(h[i - 1], actions[i - 1]) then 1 else 0
  }

  lemma ActCounts(s: State, a: Action, s': State)
    requires Acts(s, a, s')
    ensures s'.counter - |s'.done| == s.counter - |s.done| + if IsDouble(s, a) then 1 else 0
  {
  }

  /**
   However many workers share segments, the counter is the number of finished segments plus the
   times that a finished one was taken up or counted again.
   */
  lemma {:induction false} CounterCountsDoubles(h: seq<State>, actions: seq<Action>, i: nat)
    requires Run(h, actions) && i < |h|
    ensures h[i].counter == |h[i].done| + Doubles(h, actions, i)
  {
    if i > 0 {
      CounterCountsDoubles(h, actions, i - 1);
      assert ActsAt(h, actions, i - 1);
      ActCounts(h[i - 1], actions[i - 1], h[i]);
    }
  }

  // ----- One worker for each segment -----

  ghost predicate Exclusive(s: State) {
    forall v, w :: v in s.workers && w in s.workers && v != w ==> s.workers[v].segment != s.workers[w].segment
  }

  ghost predicate Unfinished(s: State) {
    forall w :: w in s.workers ==>
      s.workers[w].segment !in s.done && (s.workers[w].Checked? ==> !s.workers[w].wasDone)
  }

  lemma ExclusiveAct(s: State, a: Action, s': State)
    requires Acts(s, a, s') && Exclusive(s) && Unfinished(s)
    ensures Unfinished(s') && !IsDouble(s, a)
  {
  }

  /** As long as no two workers hold the same segment, the counter is exact. */
  lemma {:induction false} ExclusiveIsExact(h: seq<State>, actions: seq<Action>, i: nat)
    requires Run(h, actions) && i < |h| && forall k :: 0 <= k < i ==> Exclusive(h[k])
    ensures Unfinished(h[i]) && Doubles(h, actions, i) == 0 && h[i].counter == |h[i].done|
  {
    if i > 0 {
      ExclusiveIsExact(h, actions, i - 1);
      assert ActsAt(h, actions, i - 1);
      ExclusiveAct(h[i - 1], actions[i - 1], h[i]);
    }
    CounterCountsDoubles(h, actions, i);
  }

  // ----- Two workers on one segment -----

  ghost predicate RunTo(h: seq<State>, actions: seq<Action>, s: State) {
    Run(h, actions) && h[|h| - 1] == s
  }

  lemma Then(h: seq<State>, actions: seq<Action>, s: State, a: Action, s': State)
    returns (h': seq<State>, actions': seq<Action>)
    requires RunTo(h, actions, s) && Acts(s, a, s')
    ensures RunTo(h', actions', s')
  {
    h', actions' := h + [s'], actions + [a];
    forall i | 0 <= i < |actions'|
      ensures ActsAt(h', actions', i)
    {
      if i < |actions| {
        assert ActsAt(h, actions, i);
      }
    }
  }

  function Two(counter: nat, done: set<nat>, workers: map<nat, Worker>): State {
    State(2, counter, done, workers)
  }

  lemma BothHold() returns (h: seq<State>, actions: seq<Action>)
    ensures RunTo(h, actions, Two(0, {}, map[0 := Holding(0), 1 := Holding(0)]))
  {
    var s0 := Two(0, {}, map[]);
    assert RunTo([s0], [], s0);
    h, actions := Then([s0], [], s0, Read(0, 0), Two(0, {}, map[0 := Seen(0)]));
    h, actions := Then(h, actions, Two(0, {}, map[0 := Seen(0)]), Read(1, 0),
      Two(0, {}, map[0 := Seen(0), 1 := Seen(0)]));
    h, actions := Then(h, actions, Two(0, {}, map[0 := Seen(0), 1 := Seen(0)]), Mark(0),
      Two(0, {}, map[0 := Holding(0), 1 := Seen(0)]));
    h, actions := Then(h, actions, Two(0, {}, map[0 := Holding(0), 1 := Seen(0)]), Mark(1),
      Two(0, {}, map[0 := Holding(0), 1 := Holding(0)]));
  }

  /** Both find the segment unfinished and count it: the counter is full although segment 1 never ran. */
  lemma SharedSegmentCountsTwice()
    ensures exists h: seq<State>, actions: seq<Action> :: RunTo(h, actions, Two(2, {0}, map[]))
  {
    var h, actions := BothHold();
    var s1, s2 := Two(0, {}, map[0 := Checked(0, false), 1 := Holding(0)]),
                  Two(0, {}, map[0 := Checked(0, false), 1 := Checked(0, false)]);
    h, actions := Then(h, actions, Two(0, {}, map[0 := Holding(0), 1 := Holding(0)]), Check(0), s1);
    h, actions := Then(h, actions, s1, Check(1), s2);
    var s3 := Two(1, {0}, map[1 := Checked(0, false)]);
    assert s2.workers - {0} == s3.workers;
    h, actions := Then(h, actions, s2, Commit(0), s3);
    assert s3.workers - {1} == map[];
    h, actions := Then(h, actions, s3, Commit(1), Two(2, {0}, map[]));
  }
}
