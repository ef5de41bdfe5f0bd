/** The pool that stores extracted frames, over every schedule. */
module FramePool {
  import opened Domain

  /** A frame row with the id under which OCR and classification refer to it. */
  datatype Row = Row(id: nat, timestampMs: int)

  datatype Phase =
    | Spawned
    | Guarded
    | Cleared
    | InStorage
    | Persisted(id: nat)
    | JobReady(id: nat)
    | Publishing(id: nat)
    | Published(id: nat)
    | Appended(id: nat)
    | Abandoned
    | Finished(id: nat)
    | GivenUp

  datatype Task = Task(timestampMs: int, phase: Phase)

  /**
   One goroutine per submitted frame, at most `limit` of them between acquiring and releasing the
   semaphore.  Every step of every goroutine is a separate action, so the results hold for every
   schedule.  The extractor numbers frames from zero, so the `t`-th submission has index `t`.
   `slots` are the goroutines holding the semaphore, `buffer` the requests the shared video has
   recorded but not stored, `outbox` the stored ones and `frames` the result list; goroutines
   and frames are known by submission number.
   */
  datatype State = State(
    limit: nat,
    segment: nat,
    offsetMs: int,
    tasks: seq<Task>,
    slots: set<nat>,
    err: bool,
    ocrJob: Option<bool>,
    publisher: Option<nat>,
    buffer: multiset<nat>,
    objects: set<FrameKey>,
    table: map<FrameKey, Row>,
    outbox: multiset<nat>,
    frames: seq<nat>)

  datatype Action =
    | Submit(timestampMs: int)
    | Acquire(task: nat)
    | Cancel(task: nat)
    | Check(task: nat)
    | Put(task: nat)
    | Upsert(task: nat, newId: nat)
    | EnsureJob(task: nat, found: bool)
    | Lock(task: nat)
    | Commit(task: nat)
    | CommitFails(task: nat, pulled: bool)
    | Append(task: nat)
    | Fail(task: nat)
    | Release(task: nat)

  function Key(s: State, t: nat): FrameKey {
    FrameKey(s.segment, t)
  }

  function Goto(s: State, t: nat, p: Phase): State
    requires t < |s.tasks|
  {
    s.(tasks := s.tasks[t := s.tasks[t].(phase := p)])
  }

  /** A row is inserted with a new id, or updated under the id it has. */
  function UpsertRow(table: map<FrameKey, Row>, k: FrameKey, newId: nat, timestampMs: int): map<FrameKey, Row> {
    table[k := Row(if k in table then table[k].id else newId, timestampMs)]
  }

  ghost predicate TaskActs(s: State, a: Action, s': State)
    requires !a.Submit? && a.task < |s.tasks|
  {
    var t := a.task;
    var p := s.tasks[t].phase;
    match a
    case Submit(_) => false
    case Acquire(_) => p.Spawned? && |s.slots| < s.limit && s' == Goto(s, t, Guarded).(slots := s.slots + {t})
    case Cancel(_) => p.Spawned? && s' == Goto(s, t, GivenUp).(err := true)
    case Check(_) => p.Guarded? && s' == Goto(s, t, if s.err then Abandoned else Cleared)
    case Put(_) => p.Cleared? && s' == Goto(s, t, InStorage).(objects := s.objects + {Key(s, t)})
    case Upsert(_, newId) =>
      && p.InStorage? && (forall k :: k in s.table ==> s.table[k].id != newId)
      && (var table := UpsertRow(s.table, Key(s, t), newId, s.offsetMs + s.tasks[t].timestampMs);
          s' == Goto(s, t, Persisted(table[Key(s, t)].id)).(table := table))
    case EnsureJob(_, found) =>
      && p.Persisted?
      && (var job := if s.ocrJob.Some? then s.ocrJob.value else found;
          s' == (if job then Goto(s, t, JobReady(p.id)) else Goto(s, t, Abandoned).(err := true)).(ocrJob := Some(job)))
    case Lock(_) =>
      && p.JobReady? && s.publisher.None?
      && s' == Goto(s, t, Publishing(p.id)).(publisher := Some(t), buffer := s.buffer + multiset{t})
    case Commit(_) =>
      && p.Publishing?
      && s' == Goto(s, t, Published(p.id)).(publisher := None, outbox := s.outbox + s.buffer, buffer := multiset{})
    case CommitFails(_, pulled) =>
      && p.Publishing?
      && s' == Goto(s, t, Abandoned).(publisher := None, err := true, buffer := if pulled then multiset{} else s.buffer)
    case Append(_) => p.Published? && s' == Goto(s, t, Appended(p.id)).(frames := s.frames + [t])
    case Fail(_) => (p.Cleared? || p.InStorage?) && s' == Goto(s, t, Abandoned).(err := true)
    case Release(_) =>
      && (p.Appended? || p.Abandoned?)
      && s' == Goto(s, t, if p.Appended? then Finished(p.id) else GivenUp).(slots := s.slots - {t})
  }

  ghost predicate Acts(s: State, a: Action, s': State) {
    if a.Submit? then !s.err && s' == s.(tasks := s.tasks + [Task(a.timestampMs, Spawned)])
    else a.task < |s.tasks| && TaskActs(s, a, s')
  }

  /** A new pool; rows of an earlier attempt may be there. */
  ghost predicate Start(s: State) {
    && s.tasks == [] && s.slots == {} && !s.err && s.ocrJob.None? && s.publisher.None?
    && s.buffer == multiset{} && s.outbox == multiset{} && s.frames == [] && s.limit > 0
  }

  ghost predicate ActsAt(h: seq<State>, actions: seq<Action>, i: nat)
    requires i + 1 < |h| && i < |actions|
  {
    Acts(h[i], actions[i], h[i + 1])
  }

  ghost predicate Run(h: seq<State>, actions: seq<Action>) {
    && |h| == |actions| + 1 && Start(h[0])
    && forall i {:trigger ActsAt(h, actions, i)} :: 0 <= i < |actions| ==> ActsAt(h, actions, i)
  }

  // ----- Invariant -----

  predicate Holds(p: Phase) {
    !(p.Spawned? || p.Finished? || p.GivenUp?)
  }

  /** How often the request of a goroutine in phase `p` has been buffered or stored. */
  predicate RequestsOk(p: Phase, buffered: nat, stored: nat) {
    match p
    case Publishing(_) => buffered == 1 && stored == 0
    case Published(_) => buffered == 0 && stored == 1
    case Appended(_) => buffered == 0 && stored == 1
    case Finished(_) => buffered == 0 && stored == 1
    case Abandoned => buffered + stored <= 1
    case GivenUp => buffered + stored <= 1
    case _ => buffered == 0 && stored == 0
  }

  predicate IsListed(p: Phase) {
    p.Appended? || p.Finished?
  }

  function IdOf(p: Phase): Option<nat> {
    match p
    case Persisted(id) => Some(id)
    case JobReady(id) => Some(id)
    case Publishing(id) => Some(id)
    case Published(id) => Some(id)
    case Appended(id) => Some(id)
    case Finished(id) => Some(id)
    case _ => None
  }

  predicate RowIs(s: State, t: nat, id: nat)
    requires t < |s.tasks|
  {
    Key(s, t) in s.table && s.table[Key(s, t)] == Row(id, s.offsetMs + s.tasks[t].timestampMs)
  }

  ghost predicate TaskOk(s: State, t: nat)
    requires t < |s.tasks|
  {
    var p := s.tasks[t].phase;
    && (t in s.slots <==> Holds(p))
    && (p.Publishing? <==> s.publisher == Some(t))
    && RequestsOk(p, s.buffer[t], s.outbox[t])
    && multiset(s.frames)[t] == (if IsListed(p) then 1 else 0)
    && (p.Abandoned? || p.GivenUp? ==> s.err)
    && (p.InStorage? || IdOf(p).Some? ==> Key(s, t) in s.objects)
    && (IdOf(p).Some? ==> RowIs(s, t, IdOf(p).value))
  }

  /** Nothing refers to a goroutine that does not exist. */
  ghost predicate NoStrangers(s: State) {
    forall t :: t >= |s.tasks| ==>
      t !in s.slots && s.buffer[t] == 0 && s.outbox[t] == 0 && multiset(s.frames)[t] == 0 && s.publisher != Some(t)
  }

  ghost predicate Inv(s: State) {
    && |s.slots| <= s.limit
    && NoStrangers(s)
    && forall t :: 0 <= t < |s.tasks| ==> TaskOk(s, t)
  }

  /** What a step of goroutine `c` leaves as it was for goroutine `t`. */
  ghost predicate Undisturbed(s: State, s': State, t: nat) {
    && (t in s'.slots <==> t in s.slots)
    && s'.outbox[t] + s'.buffer[t] <= s.outbox[t] + s.buffer[t]
    && multiset(s'.frames)[t] == multiset(s.frames)[t]
    && (s'.publisher == Some(t) <==> s.publisher == Some(t))
    && (s.buffer[t] == 0 ==> s'.buffer[t] == 0 && s'.outbox[t] == s.outbox[t])
    && (Key(s, t) in s.objects ==> Key(s, t) in s'.objects)
    && (Key(s, t) in s.table ==> Key(s, t) in s'.table && s'.table[Key(s, t)] == s.table[Key(s, t)])
  }

  lemma StepKeeps(s: State, s': State, c: nat)
    requires Inv(s) && c < |s.tasks| && |s'.tasks| == |s.tasks| && |s'.slots| <= s'.limit
    requires s'.segment == s.segment && s'.offsetMs == s.offsetMs && (s.err ==> s'.err)
    requires forall t :: 0 <= t < |s.tasks| && t != c ==> s'.tasks[t] == s.tasks[t]
    requires forall t: nat :: t != c ==> Undisturbed(s, s', t)
    requires forall t :: 0 <= t < |s.tasks| && t != c && s.tasks[t].phase.Publishing? ==> s'.buffer[t] == s.buffer[t]
    requires TaskOk(s', c)
    ensures Inv(s')
  {
    forall t | 0 <= t < |s'.tasks|
      ensures TaskOk(s', t)
    {
      if t != c {
        assert TaskOk(s, t) && Undisturbed(s, s', t);
      }
    }
    forall t: nat | t >= |s'.tasks|
      ensures t !in s'.slots && s'.buffer[t] == 0 && s'.outbox[t] == 0
      ensures multiset(s'.frames)[t] == 0 && s'.publisher != Some(t)
    {
      assert Undisturbed(s, s', t);
    }
  }

  lemma SubmitKeeps(s: State, timestampMs: int)
    requires Inv(s) && !s.err
    ensures Inv(s.(tasks := s.tasks + [Task(timestampMs, Spawned)]))
  {
    var s' := s.(tasks := s.tasks + [Task(timestampMs, Spawned)]);
    forall t | 0 <= t < |s'.tasks|
      ensures TaskOk(s', t)
    {
      if t < |s.tasks| {
        assert TaskOk(s, t);
      }
    }
  }

  lemma AcquireKeeps(s: State, a: Action, s': State)
    requires Inv(s) && a.Acquire? && Acts(s, a, s')
    ensures Inv(s')
  {
    assert TaskOk(s, a.task);
    StepKeeps(s, s', a.task);
  }

  lemma ReleaseKeeps(s: State, a: Action, s': State)
    requires Inv(s) && a.Release? && Acts(s, a, s')
    ensures Inv(s')
  {
    assert TaskOk(s, a.task);
    StepKeeps(s, s', a.task);
  }

  lemma StoreKeeps(s: State, a: Action, s': State)
    requires Inv(s) && (a.Upsert? || a.Put?) && Acts(s, a, s')
    ensures Inv(s')
  {
    assert TaskOk(s, a.task);
    StepKeeps(s, s', a.task);
  }

  lemma LockKeeps(s: State, a: Action, s': State)
    requires Inv(s) && a.Lock? && Acts(s, a, s')
    ensures Inv(s')
  {
    assert TaskOk(s, a.task);
    StepKeeps(s, s', a.task);
  }

  lemma CommitKeeps(s: State, a: Action, s': State)
    requires Inv(s) && a.Commit? && Acts(s, a, s')
    ensures Inv(s')
  {
    assert TaskOk(s, a.task);
    assert forall t :: 0 <= t < |s.tasks| && t != a.task && s.tasks[t].phase.Publishing? ==> TaskOk(s, t);
    StepKeeps(s, s', a.task);
  }

  lemma CommitFailsKeeps(s: State, a: Action, s': State)
    requires Inv(s) && a.CommitFails? && Acts(s, a, s')
    ensures Inv(s')
  {
    assert TaskOk(s, a.task);
    assert forall t :: 0 <= t < |s.tasks| && t != a.task && s.tasks[t].phase.Publishing? ==> TaskOk(s, t);
    StepKeeps(s, s', a.task);
  }

  lemma AppendKeeps(s: State, a: Action, s': State)
    requires Inv(s) && a.Append? && Acts(s, a, s')
    ensures Inv(s')
  {
    assert TaskOk(s, a.task);
    assert multiset(s'.frames) == multiset(s.frames) + multiset{a.task};
    StepKeeps(s, s', a.task);
  }

  lemma FailKeeps(s: State, a: Action, s': State)
    requires Inv(s) && (a.Cancel? || a.Fail?) && Acts(s, a, s')
    ensures Inv(s')
  {
    assert TaskOk(s, a.task);
    StepKeeps(s, s', a.task);
  }

  lemma CheckKeeps(s: State, a: Action, s': State)
    requires Inv(s) && a.Check? && Acts(s, a, s')
    ensures Inv(s')
  {
    assert TaskOk(s, a.task);
    StepKeeps(s, s', a.task);
  }

  lemma EnsureJobKeeps(s: State, a: Action, s': State)
    requires Inv(s) && a.EnsureJob? && Acts(s, a, s')
    ensures Inv(s')
  {
    assert TaskOk(s, a.task);
    StepKeeps(s, s', a.task);
  }

  lemma ActKeeps(s: State, a: Action, s': State)
    requires Inv(s) && Acts(s, a, s')
    ensures Inv(s')
  {
    match a
    case Submit(timestampMs) => SubmitKeeps(s, timestampMs);
    case Acquire(_) => AcquireKeeps(s, a, s');
    case Release(_) => ReleaseKeeps(s, a, s');
    case Put(_) => StoreKeeps(s, a, s');
    case Upsert(_, _) => StoreKeeps(s, a, s');
    case Lock(_) => LockKeeps(s, a, s');
    case Commit(_) => CommitKeeps(s, a, s');
    case CommitFails(_, _) => CommitFailsKeeps(s, a, s');
    case Append(_) => AppendKeeps(s, a, s');
    case Cancel(_) => FailKeeps(s, a, s');
    case Fail(_) => FailKeeps(s, a, s');
    case Check(_) => CheckKeeps(s, a, s');
    case EnsureJob(_, _) => EnsureJobKeeps(s, a, s');
  }

  lemma {:induction false} RunInv(h: seq<State>, actions: seq<Action>, i: nat)
    requires Run(h, actions) && i < |h|
    ensures Inv(h[i])
  {
    if i > 0 {
      RunInv(h, actions, i - 1);
      assert ActsAt(h, actions, i - 1);
      ActKeeps(h[i - 1], actions[i - 1], h[i]);
    }
  }

  // ----- Main results over every schedule -----

  function InRegion(s: State): set<nat> {
    set t | 0 <= t < |s.tasks| && Holds(s.tasks[t].phase)
  }

  /** The semaphore works: never more than `limit` frames are between acquiring and releasing it. */
  lemma ConcurrencyIsBounded(h: seq<State>, actions: seq<Action>, i: nat)
    requires Run(h, actions) && i < |h|
    ensures |InRegion(h[i])| <= h[i].limit
  {
    RunInv(h, actions, i);
    var s := h[i];
    forall t: nat
      ensures t in InRegion(s) <==> t in s.slots
    {
      if t < |s.tasks| {
        assert TaskOk(s, t);
      }
    }
    assert InRegion(s) == s.slots;
  }

  ghost predicate AllDone(s: State) {
    forall t :: 0 <= t < |s.tasks| ==> s.tasks[t].phase.Finished? || s.tasks[t].phase.GivenUp?
  }

  /** What `Wait` returns: the result list sorted by time, in any order among equal times. */
  ghost predicate Waits(s: State, result: seq<nat>) {
    && AllDone(s) && multiset(result) == multiset(s.frames)
    && forall i, j :: 0 <= i < j < |result| && result[i] < |s.tasks| && result[j] < |s.tasks| ==>
         s.tasks[result[i]].timestampMs <= s.tasks[result[j]].timestampMs
  }

  /** A submitted frame is in storage, in the table, requested once and returned once. */
  ghost predicate Delivered(s: State, result: seq<nat>, t: nat)
    requires t < |s.tasks|
  {
    && s.tasks[t].phase.Finished? && RowIs(s, t, s.tasks[t].phase.id)
    && Key(s, t) in s.objects
    && s.outbox[t] == 1 && s.buffer[t] == 0 && multiset(result)[t] == 1
  }

  /**
   If `Wait` reports no error, then for every schedule each submitted frame was stored and
   requested exactly once, and the result is a permutation of the submissions sorted by time.
   */
  lemma WaitWithoutError(h: seq<State>, actions: seq<Action>, i: nat, result: seq<nat>)
    requires Run(h, actions) && i < |h| && Waits(h[i], result) && !h[i].err
    ensures forall t :: 0 <= t < |h[i].tasks| ==> Delivered(h[i], result, t)
    ensures forall t :: t in result ==> t < |h[i].tasks|
    ensures forall t :: t in h[i].outbox ==> t < |h[i].tasks|
  {
    RunInv(h, actions, i);
    var s := h[i];
    forall t | 0 <= t < |s.tasks|
      ensures Delivered(s, result, t)
    {
      assert TaskOk(s, t);
    }
    forall t | t in result
      ensures t < |s.tasks|
    {
      assert multiset(result)[t] > 0;
    }
  }

  ghost predicate IdsKept(a: map<FrameKey, Row>, b: map<FrameKey, Row>) {
    forall k :: k in a ==> k in b && b[k].id == a[k].id
  }

  /** Whatever is stored again keeps its id: also the rows of an earlier attempt. */
  lemma {:induction false} IdsAreStable(h: seq<State>, actions: seq<Action>, i: nat, j: nat)
    requires Run(h, actions) && i <= j < |h|
    ensures IdsKept(h[i].table, h[j].table)
  {
    if i < j {
      IdsAreStable(h, actions, i, j - 1);
      assert ActsAt(h, actions, j - 1);
      assert IdsKept(h[j - 1].table, h[j].table);
    }
  }

  ghost predicate UniqueIds(table: map<FrameKey, Row>) {
    forall k, l :: k in table && l in table && k != l ==> table[k].id != table[l].id
  }

  lemma UpsertKeepsUnique(table: map<FrameKey, Row>, k: FrameKey, newId: nat, timestampMs: int)
    requires UniqueIds(table) && forall l :: l in table ==> table[l].id != newId
    ensures UniqueIds(UpsertRow(table, k, newId, timestampMs))
  {
  }

  /** Different frames keep different ids. */
  lemma {:induction false} IdsStayUnique(h: seq<State>, actions: seq<Action>, i: nat)
    requires Run(h, actions) && i < |h| && UniqueIds(h[0].table)
    ensures UniqueIds(h[i].table)
  {
    if i > 0 {
      IdsStayUnique(h, actions, i - 1);
      assert ActsAt(h, actions, i - 1);
      var s, a := h[i - 1], actions[i - 1];
      if a.Upsert? {
        UpsertKeepsUnique(s.table, Key(s, a.task), a.newId, s.offsetMs + s.tasks[a.task].timestampMs);
      } else {
        assert h[i].table == s.table;
      }
    }
  }
}
