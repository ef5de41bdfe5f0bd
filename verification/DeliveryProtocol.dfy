/** From the outbox to the handlers as one concurrent protocol. */
module DeliveryProtocol {
  import opened Domain

  // ----- Sending side -----

  datatype Row = Row(createdAt: int, published: bool)

  /** A fetched batch, how much of it has been sent, and the rows that were there at the fetch. */
  datatype Batch = Batch(items: seq<nat>, next: nat, seen: set<nat>)

  /** An event sent, with the rows that were there when its batch was fetched. */
  datatype Send = Send(event: nat, seen: set<nat>)

  datatype Sender = Sender(rows: map<nat, Row>, relays: map<nat, Batch>, sends: seq<Send>)

  datatype SendAction =
    | Store(event: nat, createdAt: int)
    | Fetch(relay: nat, items: seq<nat>)
    | SendNext(relay: nat)
    | MarkSent(relay: nat, count: nat)
    | Drop(relay: nat)

  ghost predicate SentBefore(sends: seq<Send>, n: nat, e: nat)
    requires n <= |sends|
  {
    exists i :: 0 <= i < n && sends[i].event == e
  }

  ghost predicate Sent(s: Sender, e: nat) {
    SentBefore(s.sends, |s.sends|, e)
  }

  /** `e` waits in the outbox and was created before `f`. */
  predicate Older(s: Sender, e: nat, f: nat) {
    e in s.rows && f in s.rows && s.rows[e].createdAt < s.rows[f].createdAt
  }

  /** What a fetch may return: unpublished rows such that no older unpublished row is left out or behind. */
  ghost predicate IsBatch(s: Sender, items: seq<nat>) {
    && (forall k :: 0 <= k < |items| ==> items[k] in s.rows && !s.rows[items[k]].published)
    && (forall k, e :: 0 <= k < |items| && Older(s, e, items[k]) && !s.rows[e].published ==> e in items[..k])
  }

  function Published(rows: map<nat, Row>, ids: set<nat>): map<nat, Row> {
    map e | e in rows :: if e in ids then rows[e].(published := true) else rows[e]
  }

  ghost predicate SenderActs(s: Sender, a: SendAction, s': Sender) {
    match a
    case Store(e, t) => s' == if e in s.rows then s else s.(rows := s.rows[e := Row(t, false)])
    case Fetch(r, items) =>
      r !in s.relays && IsBatch(s, items) && s' == s.(relays := s.relays[r := Batch(items, 0, s.rows.Keys)])
    case SendNext(r) =>
      && r in s.relays && s.relays[r].next < |s.relays[r].items|
      && (var b := s.relays[r];
          s' == s.(relays := s.relays[r := b.(next := b.next + 1)], sends := s.sends + [Send(b.items[b.next], b.seen)]))
    case MarkSent(r, n) =>
      && r in s.relays && n <= s.relays[r].next <= |s.relays[r].items|
      && s' == s.(relays := s.relays - {r},
                  rows := Published(s.rows, set k | 0 <= k < n :: s.relays[r].items[k]))
    case Drop(r) => s' == s.(relays := s.relays - {r})
  }

  // ----- Handling side -----

  datatype Phase =
    | Queued
    | AtHandler(h: nat)
    | Running(h: nat)
    | Releasing(h: nat)
    | GivingUp
    | Acked
    | Dead

  datatype Copy = Copy(event: nat, phase: Phase)

  datatype Mark = Mark(event: nat, handler: nat)

  /** `handlers` are registered; `successes` counts the runs that returned without error. */
  datatype Receiver = Receiver(handlers: nat, copies: seq<Copy>, marks: set<Mark>, successes: multiset<Mark>)

  datatype HandleAction =
    | Arrive(event: nat)
    | Duplicate(copy: nat)
    | Take(copy: nat)
    | TryMark(copy: nat)
    | MarkError(copy: nat, inserted: bool)
    | Succeed(copy: nat)
    | FailRetryable(copy: nat)
    | FailOther(copy: nat)
    | Release(copy: nat)
    | ReleaseError(copy: nat)
    | Ack(copy: nat)
    | Requeue(copy: nat)
    | Bury(copy: nat)
    | Crash(copy: nat)

  function Goto(s: Receiver, c: nat, p: Phase): Receiver
    requires c < |s.copies|
  {
    s.(copies := s.copies[c := s.copies[c].(phase := p)])
  }

  ghost predicate ReceiverActs(s: Receiver, a: HandleAction, s': Receiver) {
    if a.Arrive? then s' == s.(copies := s.copies + [Copy(a.event, Queued)])
    else
      && a.copy < |s.copies|
      && (var c, copy := a.copy, s.copies[a.copy];
          match a
          case Arrive(_) => false
          case Duplicate(_) => s' == s.(copies := s.copies + [Copy(copy.event, Queued)])
          case Take(_) => copy.phase.Queued? && s' == Goto(s, c, AtHandler(0))
          case TryMark(_) =>
            && copy.phase.AtHandler? && copy.phase.h < s.handlers
            && (var m := Mark(copy.event, copy.phase.h);
                s' == if m in s.marks then Goto(s, c, AtHandler(m.handler + 1))
                      else Goto(s, c, Running(m.handler)).(marks := s.marks + {m}))
          case MarkError(_, inserted) =>
            && copy.phase.AtHandler? && copy.phase.h < s.handlers
            && s' == Goto(s, c, GivingUp).(
              marks := if inserted then s.marks + {Mark(copy.event, copy.phase.h)} else s.marks)
          case Succeed(_) =>
            && copy.phase.Running?
            && (var m := Mark(copy.event, copy.phase.h);
                s' == Goto(s, c, AtHandler(m.handler + 1)).(successes := s.successes + multiset{m}))
          case FailRetryable(_) => copy.phase.Running? && s' == Goto(s, c, Releasing(copy.phase.h))
          case FailOther(_) => copy.phase.Running? && s' == Goto(s, c, GivingUp)
          case Release(_) =>
            && copy.phase.Releasing?
            && s' == Goto(s, c, GivingUp).(marks := s.marks - {Mark(copy.event, copy.phase.h)})
          case ReleaseError(_) => copy.phase.Releasing? && s' == Goto(s, c, GivingUp)
          case Ack(_) => copy.phase == AtHandler(s.handlers) && s' == Goto(s, c, Acked)
          case Requeue(_) => copy.phase.GivingUp? && s' == Goto(s, c, Queued)
          case Bury(_) => copy.phase.GivingUp? && s' == Goto(s, c, Dead)
          case Crash(_) => !copy.phase.Dead? && s' == Goto(s, c, Queued))
  }

  // ----- The whole -----

  /**
   Relays fetch, send and mark in separate steps; copies of a message are handled concurrently,
   duplicated, redelivered and abandoned at any point.
   */
  datatype State = State(sender: Sender, receiver: Receiver)

  datatype Action = Sending(send: SendAction) | Handling(handle: HandleAction)

  /** A send puts a copy into the queue; what is not sent never arrives. */
  ghost predicate Acts(s: State, a: Action, s': State) {
    match a
    case Sending(x) =>
      && SenderActs(s.sender, x, s'.sender)
      && (if x.SendNext? then
            x.relay in s.sender.relays && s.sender.relays[x.relay].next < |s.sender.relays[x.relay].items|
            && ReceiverActs(s.receiver,
              Arrive(s.sender.relays[x.relay].items[s.sender.relays[x.relay].next]), s'.receiver)
          else s'.receiver == s.receiver)
    case Handling(x) => !x.Arrive? && ReceiverActs(s.receiver, x, s'.receiver) && s'.sender == s.sender
  }

  ghost predicate Start(s: State) {
    && s.sender == Sender(map[], map[], [])
    && s.receiver.copies == [] && s.receiver.marks == {} && s.receiver.successes == multiset{}
  }

  ghost predicate ActsAt(h: seq<State>, actions: seq<Action>, i: nat)
    requires i + 1 < |h| && i < |actions|
  {
    Acts(h[i], actions[i], h[i + 1])
  }

  ghost predicate Run(h: seq<State>, actions: seq<Action>) {
    && |h| == |actions| + 1 && Start(h[0])
    && forall i {:trigger ActsAt(h, actions, i)} :: 0 <= i < |actions| ==> ActsAt(h, actions, i)
  }

  // ----- Sending: invariant -----

  /** Whatever is older than the `k`-th item and was there at the fetch has gone before it. */
  ghost predicate ItemOk(s: Sender, b: Batch, k: nat)
    requires k < |b.items|
  {
    && b.items[k] in s.rows
    && (k < b.next ==> Sent(s, b.items[k]))
    && forall e :: e in b.seen && Older(s, e, b.items[k]) ==> e in b.items[..k] || Sent(s, e)
  }

  ghost predicate BatchOk(s: Sender, b: Batch) {
    b.next <= |b.items| && b.seen <= s.rows.Keys && forall k :: 0 <= k < |b.items| ==> ItemOk(s, b, k)
  }

  ghost predicate SendOk(s: Sender, j: nat)
    requires j < |s.sends|
  {
    && s.sends[j].event in s.rows && s.sends[j].seen <= s.rows.Keys
    && forall e :: e in s.sends[j].seen && Older(s, e, s.sends[j].event) ==> SentBefore(s.sends, j, e)
  }

  ghost predicate SenderInv(s: Sender) {
    && (forall r :: r in s.relays ==> BatchOk(s, s.relays[r]))
    && (forall j :: 0 <= j < |s.sends| ==> SendOk(s, j))
    && (forall e :: e in s.rows && s.rows[e].published ==> Sent(s, e))
  }

  /** Rows are only added, creation times never change, and sends are only appended. */
  ghost predicate Extends(s: Sender, s': Sender) {
    && s.sends <= s'.sends
    && forall e :: e in s.rows ==> e in s'.rows && s'.rows[e].createdAt == s.rows[e].createdAt
  }

  lemma BatchStaysOk(s: Sender, s': Sender, b: Batch)
    requires BatchOk(s, b) && Extends(s, s')
    ensures BatchOk(s', b)
  {
    forall k | 0 <= k < |b.items|
      ensures ItemOk(s', b, k)
    {
      assert ItemOk(s, b, k);
      forall e | e in b.seen && Older(s', e, b.items[k])
        ensures e in b.items[..k] || Sent(s', e)
      {
        assert Older(s, e, b.items[k]);
      }
    }
  }

  lemma SendStaysOk(s: Sender, s': Sender, j: nat)
    requires j < |s.sends| && SendOk(s, j) && Extends(s, s')
    ensures SendOk(s', j)
  {
  }

  /** Everything but the last send and the acting relay is as before. */
  lemma SenderKept(s: Sender, s': Sender)
    requires SenderInv(s) && Extends(s, s')
    requires forall r :: r in s'.relays && !(r in s.relays && s'.relays[r] == s.relays[r]) ==> BatchOk(s', s'.relays[r])
    requires forall j :: |s.sends| <= j < |s'.sends| ==> SendOk(s', j)
    requires forall e :: e in s'.rows && s'.rows[e].published && !(e in s.rows && s.rows[e].published) ==> Sent(s', e)
    ensures SenderInv(s')
  {
    forall r | r in s'.relays
      ensures BatchOk(s', s'.relays[r])
    {
      if r in s.relays && s'.relays[r] == s.relays[r] {
        BatchStaysOk(s, s', s.relays[r]);
      }
    }
    forall j | 0 <= j < |s'.sends|
      ensures SendOk(s', j)
    {
      if j < |s.sends| {
        SendStaysOk(s, s', j);
      }
    }
    forall e | e in s'.rows && s'.rows[e].published
      ensures Sent(s', e)
    {
      if e in s.rows && s.rows[e].published {
        var i :| 0 <= i < |s.sends| && s.sends[i].event == e;
        assert s'.sends[i].event == e;
      }
    }
  }

  lemma FetchKeeps(s: Sender, r: nat, items: seq<nat>)
    requires SenderInv(s) && r !in s.relays && IsBatch(s, items)
    ensures SenderInv(s.(relays := s.relays[r := Batch(items, 0, s.rows.Keys)]))
  {
    var b := Batch(items, 0, s.rows.Keys);
    var s' := s.(relays := s.relays[r := b]);
    forall k | 0 <= k < |items|
      ensures ItemOk(s', b, k)
    {
      forall e | e in b.seen && Older(s', e, items[k])
        ensures e in items[..k] || Sent(s', e)
      {
        assert Older(s, e, items[k]);
        if s.rows[e].published {
          assert Sent(s, e);
        }
      }
    }
    SenderKept(s, s');
  }

  lemma SendKeeps(s: Sender, r: nat, s': Sender)
    requires SenderInv(s) && SenderActs(s, SendNext(r), s')
    ensures SenderInv(s')
  {
    var b, b' := s.relays[r], s'.relays[r];
    var n, e0 := |s.sends|, b.items[b.next];
    assert BatchOk(s, b) && ItemOk(s, b, b.next);
    assert Extends(s, s');
    forall e | e in b.seen && Older(s', e, e0)
      ensures SentBefore(s'.sends, n, e)
    {
      assert Older(s, e, e0);
      if e in b.items[..b.next] {
        var k :| 0 <= k < b.next && b.items[k] == e;
        assert ItemOk(s, b, k);
      }
      var i :| 0 <= i < n && s.sends[i].event == e;
      assert s'.sends[i].event == e;
    }
    assert SendOk(s', n);
    BatchStaysOk(s, s', b);
    forall k | 0 <= k < |b'.items|
      ensures ItemOk(s', b', k)
    {
      assert ItemOk(s', b, k);
      if k == b.next {
        assert s'.sends[n].event == e0;
      }
    }
    SenderKept(s, s');
  }

  lemma MarkSentKeeps(s: Sender, r: nat, n: nat, s': Sender)
    requires SenderInv(s) && SenderActs(s, MarkSent(r, n), s')
    ensures SenderInv(s')
  {
    var b := s.relays[r];
    assert BatchOk(s, b);
    forall e | e in s'.rows && s'.rows[e].published && !(e in s.rows && s.rows[e].published)
      ensures Sent(s', e)
    {
      var k :| 0 <= k < n && b.items[k] == e;
      assert ItemOk(s, b, k);
    }
    SenderKept(s, s');
  }

  lemma SenderKeeps(s: Sender, a: SendAction, s': Sender)
    requires SenderInv(s) && SenderActs(s, a, s')
    ensures SenderInv(s') && Extends(s, s')
  {
    match a
    case Store(e, t) => SenderKept(s, s');
    case Fetch(r, items) => FetchKeeps(s, r, items);
    case SendNext(r) => SendKeeps(s, r, s');
    case MarkSent(r, n) => MarkSentKeeps(s, r, n, s');
    case Drop(r) => SenderKept(s, s');
  }

  // ----- Handling: invariant -----

  /** The mark a copy has inserted and may still release. */
  function Held(c: Copy): Option<Mark> {
    match c.phase
    case Running(h) => Some(Mark(c.event, h))
    case Releasing(h) => Some(Mark(c.event, h))
    case _ => None
  }

  ghost predicate CopyOk(s: Receiver, c: Copy) {
    match Held(c)
    case None => true
    case Some(m) => m in s.marks && s.successes[m] == 0
  }

  ghost predicate ReceiverInv(s: Receiver) {
    && (forall m :: s.successes[m] <= 1)
    && (forall m :: s.successes[m] > 0 ==> m in s.marks)
    && (forall i :: 0 <= i < |s.copies| ==> CopyOk(s, s.copies[i]))
    && (forall i, j :: 0 <= i < j < |s.copies| && Held(s.copies[i]).Some? ==> Held(s.copies[i]) != Held(s.copies[j]))
  }

  lemma QueuedCopyKeeps(s: Receiver, event: nat)
    requires ReceiverInv(s)
    ensures ReceiverInv(s.(copies := s.copies + [Copy(event, Queued)]))
  {
  }

  /** A copy that moves on without marks changing, letting go of what it holds or not. */
  lemma MovingKeeps(s: Receiver, c: nat, p: Phase)
    requires ReceiverInv(s) && c < |s.copies|
    requires var held := Held(s.copies[c].(phase := p)); held == None || held == Held(s.copies[c])
    ensures ReceiverInv(Goto(s, c, p))
  {
  }

  lemma MarkErrorKeeps(s: Receiver, c: nat, inserted: bool, s': Receiver)
    requires ReceiverInv(s) && ReceiverActs(s, MarkError(c, inserted), s')
    ensures ReceiverInv(s')
  {
    MovingKeeps(s, c, GivingUp);
  }

  lemma TryMarkKeeps(s: Receiver, c: nat, s': Receiver)
    requires ReceiverInv(s) && ReceiverActs(s, TryMark(c), s')
    ensures ReceiverInv(s')
  {
  }

  lemma SucceedKeeps(s: Receiver, c: nat, s': Receiver)
    requires ReceiverInv(s) && ReceiverActs(s, Succeed(c), s')
    ensures ReceiverInv(s')
  {
  }

  lemma ReleaseKeeps(s: Receiver, c: nat, s': Receiver)
    requires ReceiverInv(s) && ReceiverActs(s, Release(c), s')
    ensures ReceiverInv(s')
  {
  }

  lemma ReceiverKeeps(s: Receiver, a: HandleAction, s': Receiver)
    requires ReceiverInv(s) && ReceiverActs(s, a, s')
    ensures ReceiverInv(s')
  {
    match a
    case Arrive(e) => QueuedCopyKeeps(s, e);
    case Duplicate(c) => QueuedCopyKeeps(s, s.copies[c].event);
    case TryMark(c) => TryMarkKeeps(s, c, s');
    case MarkError(c, inserted) => MarkErrorKeeps(s, c, inserted, s');
    case Succeed(c) => SucceedKeeps(s, c, s');
    case Release(c) => ReleaseKeeps(s, c, s');
    case _ => MovingKeeps(s, a.copy, s'.copies[a.copy].phase);
  }

  // ----- Main results over every run -----

  ghost predicate Inv(s: State) {
    && SenderInv(s.sender) && ReceiverInv(s.receiver)
    && (forall i :: 0 <= i < |s.receiver.copies| ==> Sent(s.sender, s.receiver.copies[i].event))
    && (forall m :: s.receiver.successes[m] > 0 ==> Sent(s.sender, m.event))
  }

  lemma SendingKeeps(s: State, x: SendAction, s': State)
    requires Inv(s) && Acts(s, Sending(x), s')
    ensures Inv(s')
  {
    SenderKeeps(s.sender, x, s'.sender);
    forall e | Sent(s.sender, e)
      ensures Sent(s'.sender, e)
    {
    }
    if x.SendNext? {
      var b := s.sender.relays[x.relay];
      ReceiverKeeps(s.receiver, Arrive(b.items[b.next]), s'.receiver);
      assert s'.sender.sends[|s.sender.sends|].event == b.items[b.next];
    }
  }

  lemma HandlingKeeps(s: State, x: HandleAction, s': State)
    requires Inv(s) && Acts(s, Handling(x), s')
    ensures Inv(s')
  {
    ReceiverKeeps(s.receiver, x, s'.receiver);
    assert Sent(s.sender, s.receiver.copies[x.copy].event);
  }

  lemma {:induction false} RunInv(h: seq<State>, actions: seq<Action>, i: nat)
    requires Run(h, actions) && i < |h|
    ensures Inv(h[i])
  {
    if i > 0 {
      RunInv(h, actions, i - 1);
      assert ActsAt(h, actions, i - 1);
      match actions[i - 1]
      case Sending(x) => SendingKeeps(h[i - 1], x, h[i]);
      case Handling(x) => HandlingKeeps(h[i - 1], x, h[i]);
    }
  }

  /**
   However polls, publish and mark failures, duplicates, redeliveries and crashes interleave:
   an event marked published has been sent, a handler succeeds at most once for an event, and
   only for an event that was sent.
   */
  lemma DeliveryIsSafe(h: seq<State>, actions: seq<Action>, i: nat)
    requires Run(h, actions) && i < |h|
    ensures forall e :: e in h[i].sender.rows && h[i].sender.rows[e].published ==> Sent(h[i].sender, e)
    ensures forall m :: h[i].receiver.successes[m] <= 1
    ensures forall m :: h[i].receiver.successes[m] == 1 ==> m in h[i].receiver.marks && Sent(h[i].sender, m.event)
  {
    RunInv(h, actions, i);
  }

  /** At no moment do two copies of an event have the same handler at work. */
  lemma OneRunAtATime(h: seq<State>, actions: seq<Action>, i: nat, a: nat, b: nat)
    requires Run(h, actions) && i < |h| && a < b < |h[i].receiver.copies|
    ensures Held(h[i].receiver.copies[a]).Some? ==>
      Held(h[i].receiver.copies[a]) != Held(h[i].receiver.copies[b])
  {
    RunInv(h, actions, i);
  }

  /**
   Events are first sent in order of creation, except that one may be overtaken by a batch
   fetched before it was stored: every older event that was in the outbox when a batch was
   fetched has been sent before the events of that batch.
   */
  lemma SendsFollowCreation(h: seq<State>, actions: seq<Action>, i: nat, j: nat, e: nat)
    requires Run(h, actions) && i < |h| && j < |h[i].sender.sends|
    requires Older(h[i].sender, e, h[i].sender.sends[j].event) && !SentBefore(h[i].sender.sends, j, e)
    ensures e !in h[i].sender.sends[j].seen
  {
    RunInv(h, actions, i);
    assert SendOk(h[i].sender, j);
  }

  /** All polls are those of one relay, as in the program's containers. */
  predicate ByOneRelay(a: Action) {
    a.Sending? ==> match a.send
      case Store(_, _) => true
      case Fetch(r, _) => r == 0
      case SendNext(r) => r == 0
      case MarkSent(r, _) => r == 0
      case Drop(r) => r == 0
  }

  predicate OneRelay(actions: seq<Action>) {
    forall i :: 0 <= i < |actions| ==> ByOneRelay(actions[i])
  }

  /** Rows seen at a fetch hold what its batch holds and all that was sent before. */
  ghost predicate SeenInv(s: Sender) {
    && s.relays.Keys <= {0}
    && (forall i :: 0 <= i < |s.sends| ==> s.sends[i].event in s.rows)
    && (forall i, j :: 0 <= i <= j < |s.sends| ==> s.sends[i].event in s.sends[j].seen)
    && (0 in s.relays ==>
          && (forall k :: 0 <= k < |s.relays[0].items| ==>
            s.relays[0].items[k] in s.rows && s.relays[0].items[k] in s.relays[0].seen)
          && (forall i :: 0 <= i < |s.sends| ==> s.sends[i].event in s.relays[0].seen))
  }

  lemma {:induction false} RunSees(h: seq<State>, actions: seq<Action>, i: nat)
    requires Run(h, actions) && OneRelay(actions) && i < |h|
    ensures SeenInv(h[i].sender)
  {
    if i > 0 {
      RunSees(h, actions, i - 1);
      assert ActsAt(h, actions, i - 1) && ByOneRelay(actions[i - 1]);
    }
  }

  /**
   With one relay the condition is exact: an older event is sent before a newer one if and only
   if it was in the outbox when the newer one's batch was fetched.
   */
  lemma OneRelayFollowsCreation(h: seq<State>, actions: seq<Action>, i: nat, j: nat, e: nat)
    requires Run(h, actions) && OneRelay(actions) && i < |h| && j < |h[i].sender.sends|
    requires Older(h[i].sender, e, h[i].sender.sends[j].event)
    ensures SentBefore(h[i].sender.sends, j, e) <==> e in h[i].sender.sends[j].seen
  {
    RunInv(h, actions, i);
    RunSees(h, actions, i);
    assert SendOk(h[i].sender, j);
  }

  /** An older event waits while a newer one has been sent. */
  ghost predicate Overtaken(s: Sender) {
    |s.sends| == 1 && Older(s, 2, s.sends[0].event)
  }

  const NOBODY := Receiver(1, [], {}, multiset{})
  const EMPTY := State(Sender(map[], map[], []), NOBODY)
  const ONE_STORED := State(Sender(map[1 := Row(10, false)], map[], []), NOBODY)
  const ONE_FETCHED := State(Sender(map[1 := Row(10, false)], map[0 := Batch([1], 0, {1})], []), NOBODY)
  const TWO_STORED := State(
    Sender(map[1 := Row(10, false), 2 := Row(5, false)], map[0 := Batch([1], 0, {1})], []), NOBODY)
  const ONE_OF_TWO_SENT := State(
    Sender(map[1 := Row(10, false), 2 := Row(5, false)], map[0 := Batch([1], 1, {1})], [Send(1, {1})]),
    NOBODY.(copies := [Copy(1, Queued)]))

  ghost predicate RunTo(h: seq<State>, actions: seq<Action>, s: State) {
    Run(h, actions) && h[|h| - 1] == s
  }

  lemma Then(h: seq<State>, actions: seq<Action>, s: State, a: Action, s': State)
    returns (h': seq<State>, actions': seq<Action>)
    requires RunTo(h, actions, s) && Acts(s, a, s')
    ensures RunTo(h', actions', s')
  {
    h', actions' := h + [s'], actions + [a];
    forall i | 0 <= i < |actions'|
      ensures ActsAt(h', actions', i)
    {
      if i < |actions| {
        assert ActsAt(h, actions, i);
      }
    }
  }

  lemma FetchOne() returns (h: seq<State>, actions: seq<Action>)
    ensures RunTo(h, actions, ONE_FETCHED)
  {
    assert RunTo([EMPTY], [], EMPTY);
    h, actions := Then([EMPTY], [], EMPTY, Sending(Store(1, 10)), ONE_STORED);
    assert ONE_STORED.sender.rows.Keys == {1};
    h, actions := Then(h, actions, ONE_STORED, Sending(Fetch(0, [1])), ONE_FETCHED);
  }

  /** Overtaking does happen: event 2 is stored after the fetch with an earlier creation time. */
  lemma AnEventCanBeOvertaken()
    ensures exists h: seq<State>, actions: seq<Action> :: Run(h, actions) && Overtaken(h[|h| - 1].sender)
  {
    var h, actions := FetchOne();
    h, actions := Then(h, actions, ONE_FETCHED, Sending(Store(2, 5)), TWO_STORED);
    h, actions := Then(h, actions, TWO_STORED, Sending(SendNext(0)), ONE_OF_TWO_SENT);
    assert Run(h, actions) && Overtaken(h[|h| - 1].sender);
  }

  // ----- A killed worker -----

  const ONE_SENT := Sender(map[1 := Row(10, false)], map[0 := Batch([1], 1, {1})], [Send(1, {1})])

  /** The only copy of event 1 in a phase, with or without the mark of its only handler. */
  function OneCopy(p: Phase, marked: bool): State {
    State(ONE_SENT, Receiver(1, [Copy(1, p)], if marked then {Mark(1, 0)} else {}, multiset{}))
  }

  lemma KilledAfterMarking(h: seq<State>, actions: seq<Action>) returns (h': seq<State>, actions': seq<Action>)
    requires RunTo(h, actions, OneCopy(Queued, false))
    ensures RunTo(h', actions', OneCopy(Queued, true))
  {
    h', actions' := Then(h, actions, OneCopy(Queued, false), Handling(Take(0)), OneCopy(AtHandler(0), false));
    h', actions' := Then(h', actions', OneCopy(AtHandler(0), false), Handling(TryMark(0)), OneCopy(Running(0), true));
    h', actions' := Then(h', actions', OneCopy(Running(0), true), Handling(Crash(0)), OneCopy(Queued, true));
  }

  lemma AcknowledgedUnhandled(h: seq<State>, actions: seq<Action>) returns (h': seq<State>, actions': seq<Action>)
    requires RunTo(h, actions, OneCopy(Queued, true))
    ensures RunTo(h', actions', OneCopy(Acked, true))
  {
    h', actions' := Then(h, actions, OneCopy(Queued, true), Handling(Take(0)), OneCopy(AtHandler(0), true));
    h', actions' := Then(h', actions', OneCopy(AtHandler(0), true), Handling(TryMark(0)), OneCopy(AtHandler(1), true));
    h', actions' := Then(h', actions', OneCopy(AtHandler(1), true), Handling(Ack(0)), OneCopy(Acked, true));
  }

  /** A worker killed between its mark and the end of its handler: the redelivery acknowledges the event unhandled. */
  lemma AKilledWorkerCanLoseAnEvent()
    ensures exists h: seq<State>, actions: seq<Action> :: Run(h, actions) && h[|h| - 1] == OneCopy(Acked, true)
  {
    var h, actions := FetchOne();
    h, actions := Then(h, actions, ONE_FETCHED, Sending(SendNext(0)), OneCopy(Queued, false));
    h, actions := KilledAfterMarking(h, actions);
    h, actions := AcknowledgedUnhandled(h, actions);
    assert Run(h, actions) && h[|h| - 1] == OneCopy(Acked, true);
  }
}
