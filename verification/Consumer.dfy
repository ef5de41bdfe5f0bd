/** Dispatch to handlers, and the life of a delivery. */
module Consumer {
  import opened Domain
  import opened Faults
  import opened Messaging
  import opened Dedup

  // ----- Retry count -----

  datatype Queue = Main | Retry

  datatype Reason = Rejected | Expired

  /** An entry of the `x-death` header; the broker keeps the newest first. */
  datatype Death = Death(queue: Queue, reason: Reason, count: nat)

  /** What the broker does to the header when it dead-letters a message. */
  function DeadLettered(h: seq<Death>, queue: Queue, reason: Reason): seq<Death> {
    [Death(queue, reason, Deaths(h, queue, reason) + 1)] + Others(h, queue, reason)
  }

  function Deaths(h: seq<Death>, queue: Queue, reason: Reason): nat {
    if h == [] then 0
    else if h[0].queue == queue && h[0].reason == reason then h[0].count
    else Deaths(h[1..], queue, reason)
  }

  function Others(h: seq<Death>, queue: Queue, reason: Reason): seq<Death> {
    if h == [] then []
    else (if h[0].queue == queue && h[0].reason == reason then [] else [h[0]]) + Others(h[1..], queue, reason)
  }

  /** The count of the newest entry, zero for a message that was never dead-lettered. */
  function RetryCount(h: seq<Death>): nat {
    if h == [] then 0 else h[0].count
  }

  /** The way of a rejected message through the retry queue and back. */
  function Returned(h: seq<Death>): seq<Death> {
    DeadLettered(DeadLettered(h, Main, Rejected), Retry, Expired)
  }

  /** The header after `n` rejections. */
  function Rejections(n: nat): seq<Death> {
    if n == 0 then [] else Returned(Rejections(n - 1))
  }

  /** On a header of two different entries the older one is counted and moves to the front. */
  lemma OlderIsCounted(a: Death, b: Death)
    requires a.queue != b.queue
    ensures DeadLettered([a, b], b.queue, b.reason) == [b.(count := b.count + 1), a]
  {
    var h := [a, b];
    assert h[1..] == [b] && [b][1..] == [];
    assert Others([b], b.queue, b.reason) == [];
    assert Others(h, b.queue, b.reason) == [a];
    assert Deaths([b], b.queue, b.reason) == b.count;
  }

  lemma {:induction false} RejectionsAre(n: nat)
    ensures Rejections(n) == if n == 0 then [] else [Death(Retry, Expired, n), Death(Main, Rejected, n)]
  {
    if n == 1 {
      var once := DeadLettered([], Main, Rejected);
      assert once == [Death(Main, Rejected, 1)] && once[1..] == [];
    } else if n > 1 {
      RejectionsAre(n - 1);
      OlderIsCounted(Death(Retry, Expired, n - 1), Death(Main, Rejected, n - 1));
      OlderIsCounted(Death(Main, Rejected, n), Death(Retry, Expired, n - 1));
    }
  }

  /** The header counts the deliveries that failed, although each return adds two entries. */
  lemma RetryCountIsRejections(n: nat)
    ensures RetryCount(Rejections(n)) == n
  {
    RejectionsAre(n);
  }

  // ----- Registry -----

  class Registry {
    var handlers: map<string, seq<string>>

    constructor ()
      ensures handlers == map[]
    {
      handlers := map[];
    }

    function For(eventType: string): seq<string>
      reads this
    {
      if eventType in handlers then handlers[eventType] else []
    }

    method Register(eventType: string, handler: string)
      modifies this
      ensures For(eventType) == old(For(eventType)) + [handler]
      ensures forall t :: t != eventType ==> For(t) == old(For(t))
    {
      handlers := handlers[eventType := For(eventType) + [handler]];
    }

    /**
     Runs the handlers of a type in order up to the first failure, at index `at`: earlier
     ones have returned without error, later ones were not called.  When the worker is killed
     (r is None) `at` is how far it came.
     */
    method Dispatch(marks: Marks, eventType: string, ref: EventRef, mayDie: bool) returns (r: Option<Outcome>, at: nat)
      requires Distinct(For(eventType))
      modifies marks
      ensures r.None? ==> mayDie
      ensures Reaches(|For(eventType)|, r, at)
      ensures !ref.Event? ==> marks.State() == old(marks.State()) && Refused(|For(eventType)|, ref, r, at)
      ensures ref.Event? ==> Dispatched(For(eventType), ref.id, old(marks.State()), r, at, marks.State())
      ensures For(eventType) == [] ==> r.None? || r == Some(Ok)
    {
      var list := For(eventType);
      at := 0;
      while at < |list|
        invariant at <= |list|
        invariant !ref.Event? ==> marks.State() == old(marks.State()) && at == 0
        invariant ref.Event? ==> Dispatched(list, ref.id, old(marks.State()), Some(Ok), at, marks.State())
      {
        ghost var before := marks.State();
        var answer: Outcome := *;
        r := marks.With(ref, list[at], answer, mayDie);
        if ref.Event? {
          OneMoreDispatched(list, ref.id, old(marks.State()), before, r, at, marks.State());
        }
        if r != Some(Ok) {
          return;
        }
        at := at + 1;
      }
      var dead := Dies(mayDie);
      r := if dead then None else Some(Ok);
    }
  }

  /** All handlers are done exactly when no error is returned; a killed worker may be anywhere. */
  predicate Reaches(n: nat, r: Option<Outcome>, at: nat) {
    at <= n && (r.Some? ==> (r == Some(Ok) <==> at == n))
  }

  /** Without an event id the first handler refuses. */
  predicate Refused(n: nat, ref: EventRef, r: Option<Outcome>, at: nat) {
    at == 0 && (r.Some? ==> r.value == if n == 0 then Ok else Refusal(ref))
  }

  predicate Distinct(list: seq<string>) {
    forall i, j :: 0 <= i < j < |list| ==> list[i] != list[j]
  }

  /** Handlers before `at` returned without error, the one at `at` (if any) returned `r`. */
  ghost predicate Dispatched(list: seq<string>, event: nat, a: Ledger, r: Option<Outcome>, at: nat, b: Ledger) {
    && (forall k :: 0 <= k < at && k < |list| ==> Did(a, Mark(event, list[k]), Some(Ok), b))
    && (r != Some(Ok) && at < |list| ==> Did(a, Mark(event, list[at]), r, b))
    && (forall k :: at <= k < |list| && (r == Some(Ok) || k > at) ==> Same(a, Mark(event, list[k]), b))
  }

  lemma OneMoreDispatched(list: seq<string>, event: nat, a: Ledger, b: Ledger, r: Option<Outcome>, at: nat, c: Ledger)
    requires Distinct(list) && at < |list| && Dispatched(list, event, a, Some(Ok), at, b)
    requires a.reliable == b.reliable && Did(b, Mark(event, list[at]), r, c)
    requires forall m :: m != Mark(event, list[at]) ==> Same(b, m, c)
    ensures Dispatched(list, event, a, r, if r == Some(Ok) then at + 1 else at, c)
  {
    forall k | 0 <= k < |list| && k != at
      ensures Same(b, Mark(event, list[k]), c)
    {
    }
    assert Same(a, Mark(event, list[at]), b);
    assert Did(a, Mark(event, list[at]), r, c);
    forall k | 0 <= k < at
      ensures Did(a, Mark(event, list[k]), Some(Ok), c)
    {
      assert Did(a, Mark(event, list[k]), Some(Ok), b);
    }
    forall k | at < k < |list|
      ensures Same(a, Mark(event, list[k]), c)
    {
      assert Same(a, Mark(event, list[k]), b);
    }
  }

  // ----- One delivery -----

  datatype Envelope = Envelope(eventType: string, ref: EventRef)

  /** `body` is None when the envelope cannot be decoded. */
  datatype Delivery = Delivery(body: Option<Envelope>, headers: seq<Death>)

  /** A copy whose worker was killed is delivered again, with the header it had. */
  datatype Disposition = Acked | ToRetryQueue | ToDlq | Redelivered

  function Decide(r: Outcome, attempts: int, maxRetries: int): Disposition {
    if r == Ok then Acked
    else if r == NonRetryable || attempts >= maxRetries then ToDlq
    else ToRetryQueue
  }

  /** A copy is only retried when its handlers were not told that this was the last attempt. */
  lemma RetriedWasNotLast(r: Outcome, attempts: int, maxRetries: int)
    ensures Decide(r, attempts, maxRetries) == ToRetryQueue <==>
      r != Ok && r != NonRetryable && !LastAttempt(Some(Attempt(attempts, maxRetries)))
  {
  }

  /** The worker may be killed at any point, also after its handlers have returned. */
  method HandleDelivery(registry: Registry, marks: Marks, d: Delivery, maxRetries: int, mayDie: bool)
    returns (disposition: Disposition, r: Option<Outcome>, at: nat)
    requires d.body.Some? ==> Distinct(registry.For(d.body.value.eventType))
    modifies marks
    ensures disposition.Redelivered? ==> mayDie
    ensures r.None? ==> disposition.Redelivered? || d.body.None?
    ensures d.body.None? ==> disposition != Acked && disposition != ToRetryQueue && marks.State() == old(marks.State())
    ensures d.body.Some? ==> var list, ref := registry.For(d.body.value.eventType), d.body.value.ref;
      && (!disposition.Redelivered? ==> r.Some? && disposition == Decide(r.value, RetryCount(d.headers), maxRetries))
      && (disposition.Acked? ==> r == Some(Ok)) && (disposition.ToRetryQueue? ==> RetryCount(d.headers) < maxRetries)
      && (disposition.ToDlq? && r != Some(NonRetryable) ==> RetryCount(d.headers) >= maxRetries)
      && Reaches(|list|, r, at)
      && (if ref.Event? then Dispatched(list, ref.id, old(marks.State()), r, at, marks.State())
          else marks.State() == old(marks.State()) && Refused(|list|, ref, r, at))
  {
    var dead;
    if d.body.None? {
      dead := Dies(mayDie);
      return if dead then Redelivered else ToDlq, None, 0;
    }
    var attempts := RetryCount(d.headers);
    r, at := registry.Dispatch(marks, d.body.value.eventType, d.body.value.ref, mayDie);
    dead := Dies(mayDie);
    if r.None? || dead {
      disposition := Redelivered;
    } else if r.value == Ok {
      disposition := Acked;
    } else if r.value == NonRetryable || attempts >= maxRetries {
      disposition := ToDlq;
    } else {
      disposition := ToRetryQueue;
    }
  }

  // ----- The life of one copy -----

  /**
   Where handler `k` stands when a copy has come as far as handler `f`: earlier ones are
   marked, later ones never ran.
   */
  ghost predicate Stands(list: seq<string>, event: nat, l: Ledger, f: nat, k: nat, ended: bool, smooth: bool)
    requires k < |list|
  {
    var m := Mark(event, list[k]);
    var t := l.Trace(m);
    && Settled(smooth, t, m in l.marks)
    && (k < f ==> m in l.marks)
    && (k > f ==> t == [])
    && (k == f ==> !Returns(t, Ok))
    && (smooth && (k != f || !ended) ==> !Returns(t, NonRetryable))
  }

  ghost predicate Progress(list: seq<string>, event: nat, l: Ledger, f: nat, ended: bool, smooth: bool) {
    && f <= |list| && (smooth ==> l.reliable)
    && forall k :: 0 <= k < |list| ==> Stands(list, event, l, f, k, ended, smooth)
  }

  function Max(a: nat, b: nat): nat { if a >= b then a else b }

  lemma HandlerPassed(list: seq<string>, event: nat, a: Ledger, f: nat, b: Ledger, k: nat, g: nat, smooth: bool)
    requires k < |list| && k < g && Stands(list, event, a, f, k, false, smooth)
    requires Did(a, Mark(event, list[k]), Some(Ok), b) && (smooth ==> a.reliable)
    ensures Stands(list, event, b, g, k, false, smooth)
  {
    var m := Mark(event, list[k]);
    HandledSettles(smooth, a.reliable, a.Trace(m), m in a.marks, Some(Ok), b.Trace(m), m in b.marks);
  }

  lemma HandlerFailed(list: seq<string>, event: nat, a: Ledger, f: nat, r: Option<Outcome>, b: Ledger, k: nat,
                      smooth: bool)
    requires k < |list| && f <= k && r != Some(Ok) && Stands(list, event, a, f, k, false, smooth)
    requires Did(a, Mark(event, list[k]), r, b) && (smooth ==> a.reliable)
    ensures Stands(list, event, b, k, k, r == Some(NonRetryable), smooth && r.Some?)
  {
    var m := Mark(event, list[k]);
    HandledSettles(smooth, a.reliable, a.Trace(m), m in a.marks, r, b.Trace(m), m in b.marks);
  }

  /** A handler that is marked already does not run again; the call can only fail or be killed. */
  lemma MarkedHandlerKept(list: seq<string>, event: nat, a: Ledger, f: nat, r: Option<Outcome>, b: Ledger, k: nat,
                          smooth: bool)
    requires k < |list| && k < f && r != Some(Ok) && Stands(list, event, a, f, k, false, smooth)
    requires Did(a, Mark(event, list[k]), r, b)
    ensures Stands(list, event, b, f, k, r == Some(NonRetryable), smooth && r.Some?)
  {
  }

  lemma HandlerProgress(list: seq<string>, event: nat, a: Ledger, f: nat, r: Option<Outcome>, at: nat, b: Ledger,
                        k: nat, smooth: bool)
    requires k < |list| && Stands(list, event, a, f, k, false, smooth)
    requires Reaches(|list|, r, at) && Dispatched(list, event, a, r, at, b)
    requires a.reliable == b.reliable && (smooth ==> a.reliable)
    requires at < f && at < |list| ==> Mark(event, list[at]) in a.marks
    ensures Stands(list, event, b, Max(f, at), k, r == Some(NonRetryable), smooth && r.Some?)
  {
    if k < at {
      assert Did(a, Mark(event, list[k]), Some(Ok), b);
      HandlerPassed(list, event, a, f, b, k, Max(f, at), smooth);
    } else if k > at || r == Some(Ok) {
      assert Same(a, Mark(event, list[k]), b);
    } else if f <= k {
      HandlerFailed(list, event, a, f, r, b, k, smooth);
    } else {
      MarkedHandlerKept(list, event, a, f, r, b, k, smooth);
    }
  }

  lemma DeliveryProgress(list: seq<string>, event: nat, a: Ledger, f: nat, r: Option<Outcome>, at: nat, b: Ledger,
                         smooth: bool)
    requires Progress(list, event, a, f, false, smooth) && Dispatched(list, event, a, r, at, b)
    requires a.reliable == b.reliable && Reaches(|list|, r, at)
    ensures Progress(list, event, b, Max(f, at), r == Some(NonRetryable), smooth && r.Some?)
    ensures r == Some(NonRetryable) ==> at >= f && Returns(b.Trace(Mark(event, list[at])), NonRetryable)
  {
    if at < f {
      assert Stands(list, event, a, f, at, false, smooth);
    }
    var f', ended, smooth' := Max(f, at), r == Some(NonRetryable), smooth && r.Some?;
    if ended {
      var t := b.Trace(Mark(event, list[at]));
      assert Did(a, Mark(event, list[at]), r, b) && t[|t| - 1].outcome == Some(NonRetryable);
    }
    forall k | 0 <= k < |list|
      ensures Stands(list, event, b, f', k, ended, smooth')
    {
      assert Stands(list, event, a, f, k, false, smooth);
      HandlerProgress(list, event, a, f, r, at, b, k, smooth);
    }
  }

  /** A killed worker's copy goes on as if nothing had been returned; its life is no longer smooth. */
  lemma RoughProgress(list: seq<string>, event: nat, l: Ledger, f: nat, ended: bool, smooth: bool)
    requires Progress(list, event, l, f, ended, smooth)
    ensures Progress(list, event, l, f, false, false)
  {
    forall k | 0 <= k < |list|
      ensures Stands(list, event, l, f, k, false, false)
    {
      assert Stands(list, event, l, f, k, ended, smooth);
    }
  }

  /** The runs of an event's handlers that failed or never returned. */
  ghost function AllFailures(list: seq<string>, event: nat, l: Ledger): int {
    if list == [] then 0
    else AllFailures(list[..|list| - 1], event, l) + Failures(l.Trace(Mark(event, list[|list| - 1])))
  }

  /** What a delivery adds to the failed runs of handler `k`. */
  lemma HandlerFails(list: seq<string>, event: nat, a: Ledger, r: Option<Outcome>, at: nat, b: Ledger, k: nat)
    requires k < |list| && Dispatched(list, event, a, r, at, b) && a.reliable && at <= |list|
    ensures var m := Mark(event, list[k]); var more := Failures(b.Trace(m)) - Failures(a.Trace(m));
      if k != at || r == Some(Ok) then more == 0 else if r.None? then 0 <= more <= 1 else more == 1
  {
    var m := Mark(event, list[k]);
    if k < at {
      assert Did(a, m, Some(Ok), b);
      HandledCounts(a.Trace(m), m in a.marks, Some(Ok), b.Trace(m), m in b.marks);
    } else if k == at && r != Some(Ok) {
      HandledCounts(a.Trace(m), m in a.marks, r, b.Trace(m), m in b.marks);
    } else {
      assert Same(a, m, b);
    }
  }

  /** With a table that can be reached, a failing delivery is exactly one failed run, a killed one at most one. */
  lemma {:induction false} DeliveryFails(list: seq<string>, event: nat, a: Ledger, r: Option<Outcome>, at: nat,
                                         b: Ledger, n: nat)
    requires n <= |list| && Dispatched(list, event, a, r, at, b) && a.reliable && at <= |list|
    ensures var more := AllFailures(list[..n], event, b) - AllFailures(list[..n], event, a);
      if r.None? && at < n then 0 <= more <= 1 else more == if r.Some? && r != Some(Ok) && at < n then 1 else 0
  {
    if n > 0 {
      DeliveryFails(list, event, a, r, at, b, n - 1);
      assert list[..n][..n - 1] == list[..n - 1];
      HandlerFails(list, event, a, r, at, b, n - 1);
    }
  }

  lemma {:induction false} UntouchedNeverFailed(list: seq<string>, event: nat, l: Ledger, n: nat)
    requires n <= |list| && Untouched(list, event, l)
    ensures AllFailures(list[..n], event, l) == 0
  {
    if n > 0 {
      UntouchedNeverFailed(list, event, l, n - 1);
      assert list[..n][..n - 1] == list[..n - 1];
    }
  }

  /** What has become of handler `k` of a retired copy that came as far as handler `f`. */
  ghost predicate Retired(list: seq<string>, event: nat, l: Ledger, f: nat, k: nat, smooth: bool)
    requires k < |list|
  {
    var t := l.Trace(Mark(event, list[k]));
    if k < f then
      && Successes(t) == (if Lost(t) then 0 else 1)
      && (smooth ==> (Lost(t) <==> Returns(t, Unclassified)))
    else if k == f then Successes(t) == 0
    else t == []
  }

  lemma ProgressRetires(list: seq<string>, event: nat, l: Ledger, f: nat, ended: bool, smooth: bool)
    requires Progress(list, event, l, f, ended, smooth)
    ensures forall k :: 0 <= k < |list| ==> Retired(list, event, l, f, k, smooth)
  {
    forall k | 0 <= k < |list|
      ensures Retired(list, event, l, f, k, smooth)
    {
      assert Stands(list, event, l, f, k, ended, smooth);
      var t := l.Trace(Mark(event, list[k]));
      if k < f {
        MarkedMeansOnce(smooth, t);
      } else if k == f {
        ReleasedNeverSucceeded(t);
      }
    }
  }

  /** No handler has ever seen the event. */
  ghost predicate Untouched(list: seq<string>, event: nat, l: Ledger) {
    forall k :: 0 <= k < |list| ==> l.Trace(Mark(event, list[k])) == [] && Mark(event, list[k]) !in l.marks
  }

  /** How a copy's deliveries have ended so far: with an error, or with the worker killed. */
  datatype Tally = Tally(failed: nat, killed: nat)

  predicate Smooth(l: Ledger, n: Tally) {
    l.reliable && n.killed == 0
  }

  /** Every failed delivery is one failed run, every killed worker at most one unfinished run. */
  ghost predicate Counted(list: seq<string>, event: nat, l: Ledger, n: Tally) {
    l.reliable ==> n.failed <= AllFailures(list, event, l) <= n.failed + n.killed
  }

  ghost predicate Underway(list: seq<string>, ref: EventRef, start: Ledger, l: Ledger, f: nat, n: Tally) {
    && f <= |list| && (f == |list| ==> list == [] || n.killed > 0) && l.reliable == start.reliable
    && (if ref.Event? then Progress(list, ref.id, l, f, false, Smooth(l, n)) && Counted(list, ref.id, l, n)
        else l == start && f == 0)
  }

  lemma NotBegun(list: seq<string>, ref: EventRef, l: Ledger)
    requires ref.Event? ==> Untouched(list, ref.id, l)
    ensures Underway(list, ref, l, l, 0, Tally(0, 0))
  {
    assert list[..|list|] == list;
    if ref.Event? {
      UntouchedNeverFailed(list, ref.id, l, |list|);
    }
  }

  /** What is left of a copy that was acknowledged or given up. */
  ghost predicate Ended(list: seq<string>, ref: EventRef, start: Ledger, l: Ledger, f: nat, n: Tally) {
    if ref.Event? then
      && (forall k :: 0 <= k < |list| ==> Retired(list, ref.id, l, f, k, Smooth(l, n)))
      && Counted(list, ref.id, l, n)
    else l == start && f == 0
  }

  /** Why a copy is given up: a refusal, or no attempt left. */
  ghost predicate GivenUp(list: seq<string>, ref: EventRef, l: Ledger, f: nat, exhausted: bool, n: Tally) {
    && f <= |list| && (f == |list| ==> exhausted && n.killed > 0)
    && (exhausted || if ref.Event? then f < |list| && Returns(l.Trace(Mark(ref.id, list[f])), NonRetryable)
      else !ref.NotAUuid?)
  }

  /** What a delivery leaves, whether it returned or its worker was killed. */
  lemma DeliveryEffect(list: seq<string>, event: nat, a: Ledger, f: nat, r: Option<Outcome>, at: nat, b: Ledger,
                       n: Tally)
    requires Progress(list, event, a, f, false, Smooth(a, n)) && Counted(list, event, a, n)
    requires Dispatched(list, event, a, r, at, b) && a.reliable == b.reliable && Reaches(|list|, r, at)
    ensures var f', n', killed := Max(f, at), n.(failed := n.failed + 1), n.(killed := n.killed + 1);
      && Progress(list, event, b, f', false, false) && Counted(list, event, b, killed)
      && (r == Some(Ok) ==>
           Counted(list, event, b, n) && forall k :: 0 <= k < |list| ==> Retired(list, event, b, f', k, Smooth(b, n)))
      && (r.Some? && r != Some(Ok) ==>
           Counted(list, event, b, n') && forall k :: 0 <= k < |list| ==> Retired(list, event, b, f', k, Smooth(b, n')))
      && (r.Some? && r != Some(NonRetryable) ==> Progress(list, event, b, f', false, Smooth(b, n')))
      && (r == Some(NonRetryable) ==> at >= f && Returns(b.Trace(Mark(event, list[at])), NonRetryable))
  {
    var smooth, f' := Smooth(a, n), Max(f, at);
    DeliveryProgress(list, event, a, f, r, at, b, smooth);
    RoughProgress(list, event, b, f', r == Some(NonRetryable), smooth && r.Some?);
    ProgressRetires(list, event, b, f', r == Some(NonRetryable), smooth && r.Some?);
    assert list[..|list|] == list;
    if a.reliable {
      DeliveryFails(list, event, a, r, at, b, |list|);
    }
  }

  /** Where a delivery leaves a copy, by its disposition. */
  ghost predicate Delivered(list: seq<string>, ref: EventRef, start: Ledger, l: Ledger, f: nat, n: Tally,
                            maxRetries: nat, disposition: Disposition)
  {
    match disposition
    case Acked => f == |list| && Ended(list, ref, start, l, f, n)
    case ToDlq =>
      var n' := n.(failed := n.failed + 1);
      Ended(list, ref, start, l, f, n') && GivenUp(list, ref, l, f, n.failed >= maxRetries, n')
    case ToRetryQueue => Underway(list, ref, start, l, f, n.(failed := n.failed + 1)) && n.failed < maxRetries
    case Redelivered => Underway(list, ref, start, l, f, n.(killed := n.killed + 1))
  }

  ghost predicate Disposes(r: Option<Outcome>, attempts: int, maxRetries: int, disposition: Disposition) {
    if disposition.Redelivered? then true else r.Some? && disposition == Decide(r.value, attempts, maxRetries)
  }

  lemma EventIsDelivered(list: seq<string>, event: nat, start: Ledger, a: Ledger, b: Ledger, f: nat, n: Tally,
                         r: Option<Outcome>, at: nat, maxRetries: nat, disposition: Disposition)
    requires Underway(list, Event(event), start, a, f, n) && Reaches(|list|, r, at)
    requires Dispatched(list, event, a, r, at, b) && a.reliable == b.reliable
    requires Disposes(r, n.failed, maxRetries, disposition)
    ensures Delivered(list, Event(event), start, b, Max(f, at), n, maxRetries, disposition)
  {
    DeliveryEffect(list, event, a, f, r, at, b, n);
  }

  lemma RefusalIsDelivered(list: seq<string>, ref: EventRef, start: Ledger, l: Ledger, f: nat, n: Tally,
                           r: Option<Outcome>, at: nat, maxRetries: nat, disposition: Disposition)
    requires !ref.Event? && Underway(list, ref, start, l, f, n) && Reaches(|list|, r, at)
    requires Refused(|list|, ref, r, at) && Disposes(r, n.failed, maxRetries, disposition)
    ensures Delivered(list, ref, start, l, Max(f, at), n, maxRetries, disposition)
  {
  }

  /**
   One delivery in the life of a copy that has come as far as handler `f`; its header is what the
   broker has made of it in `n.failed` rejections.
   */
  method Deliver(registry: Registry, marks: Marks, e: Envelope, maxRetries: nat, f: nat, n: Tally, mayDie: bool,
                 ghost start: Ledger)
    returns (disposition: Disposition, f': nat)
    requires Distinct(registry.For(e.eventType))
    requires Underway(registry.For(e.eventType), e.ref, start, marks.State(), f, n)
    modifies marks
    ensures disposition.Redelivered? ==> mayDie
    ensures Delivered(registry.For(e.eventType), e.ref, start, marks.State(), f', n, maxRetries, disposition)
  {
    var r, at;
    ghost var list, before := registry.For(e.eventType), marks.State();
    RetryCountIsRejections(n.failed);
    disposition, r, at := HandleDelivery(registry, marks, Delivery(Some(e), Rejections(n.failed)), maxRetries, mayDie);
    f' := Max(f, at);
    if e.ref.Event? {
      EventIsDelivered(list, e.ref.id, start, before, marks.State(), f, n, r, at, maxRetries, disposition);
    } else {
      RefusalIsDelivered(list, e.ref, start, before, f, n, r, at, maxRetries, disposition);
    }
  }

  /**
   The life of one copy from its first delivery on, in which workers are killed at most `kills`
   times.  Not counting deliveries whose worker was killed, it ends after at most `maxRetries + 1`
   deliveries: acknowledged, or in the dead-letter queue having come as far as handler `f`.
   Handlers before `f` (all of them, if acknowledged) have succeeded exactly once, except those
   with a failed or interrupted run that kept its mark, which have never succeeded; handler `f`
   has not succeeded and later ones never ran.  A copy is given up before its attempts are used up
   only for an error that is not to be retried.
   */
  method Retire(registry: Registry, marks: Marks, e: Envelope, maxRetries: nat, kills: nat)
    returns (acked: bool, n: Tally, f: nat)
    requires Distinct(registry.For(e.eventType)) && maxRetries > 0
    requires e.ref.Event? ==> Untouched(registry.For(e.eventType), e.ref.id, marks.State())
    modifies marks
    ensures n.killed <= kills
    ensures if acked then n.failed <= maxRetries else 1 <= n.failed <= maxRetries + 1
    ensures Ended(registry.For(e.eventType), e.ref, old(marks.State()), marks.State(), f, n)
    ensures if acked then f == |registry.For(e.eventType)|
      else GivenUp(registry.For(e.eventType), e.ref, marks.State(), f, n.failed == maxRetries + 1, n)
  {
    var disposition;
    n, f := Tally(0, 0), 0;
    NotBegun(registry.For(e.eventType), e.ref, marks.State());
    while true
      invariant n.failed <= maxRetries && n.killed <= kills
      invariant Underway(registry.For(e.eventType), e.ref, old(marks.State()), marks.State(), f, n)
      decreases maxRetries - n.failed + kills - n.killed
    {
      disposition, f := Deliver(registry, marks, e, maxRetries, f, n, n.killed < kills, old(marks.State()));
      match disposition
      case Acked => return true, n, f;
      case ToDlq => return false, n.(failed := n.failed + 1), f;
      case ToRetryQueue => n := n.(failed := n.failed + 1);
      case Redelivered => n := n.(killed := n.killed + 1);
    }
  }

  ghost predicate AllSucceeded(list: seq<string>, event: nat, l: Ledger) {
    forall k :: 0 <= k < |list| ==> Successes(l.Trace(Mark(event, list[k]))) == 1
  }

  /**
   An acknowledged copy means that every handler has succeeded, exactly when no failed or
   interrupted run kept its mark.  Where the table can be reached and no worker was killed, that
   is exactly when every error had a class.
   */
  lemma AcknowledgedMeansHandledIff(list: seq<string>, event: nat, start: Ledger, l: Ledger, n: Tally)
    requires Ended(list, Event(event), start, l, |list|, n)
    ensures AllSucceeded(list, event, l) <==> forall k :: 0 <= k < |list| ==> !Lost(l.Trace(Mark(event, list[k])))
    ensures Smooth(l, n) ==>
      (AllSucceeded(list, event, l) <==>
        forall k :: 0 <= k < |list| ==> !Returns(l.Trace(Mark(event, list[k])), Unclassified))
  {
    forall k | 0 <= k < |list|
      ensures Successes(l.Trace(Mark(event, list[k]))) == 1 <==> !Lost(l.Trace(Mark(event, list[k])))
      ensures Smooth(l, n) ==>
        (Lost(l.Trace(Mark(event, list[k]))) <==> Returns(l.Trace(Mark(event, list[k])), Unclassified))
    {
      assert Retired(list, event, l, |list|, k, Smooth(l, n));
    }
  }

  /** The next delivery of a copy whose only handler has a run that kept its mark without success. */
  ghost predicate SwallowedAfter(reliable: bool, event: nat, handler: string, r: Option<Outcome>) {
    exists l1, l2 ::
      && Dispatched([handler], event, Ledger(reliable, {}, map[]), r, 0, l1)
      && Dispatched([handler], event, l1, Some(Ok), 1, l2)
      && Successes(l2.Trace(Mark(event, handler))) == 0
  }

  lemma KeptMarkSwallows(reliable: bool, event: nat, handler: string, r: Option<Outcome>, ran: Option<Outcome>)
    requires ran != Some(Ok) && r != Some(Ok) && Handled(reliable, [], false, r, [Ran(ran, true)], true)
    ensures SwallowedAfter(reliable, event, handler, r)
  {
    var m, start := Mark(event, handler), Ledger(reliable, {}, map[]);
    var l := Ledger(reliable, {m}, map[m := [Ran(ran, true)]]);
    assert Did(start, m, r, l) && Did(l, m, Some(Ok), l);
    assert Dispatched([handler], event, start, r, 0, l) && Dispatched([handler], event, l, Some(Ok), 1, l);
    ReleasedNeverSucceeded(l.Trace(m));
  }

  /** An error without a class is retried, and the retry acknowledges the event unhandled. */
  lemma UnclassifiedErrorIsSwallowed(event: nat, handler: string)
    ensures Decide(Unclassified, 0, 3) == ToRetryQueue && SwallowedAfter(true, event, handler, Some(Unclassified))
  {
    KeptMarkSwallows(true, event, handler, Some(Unclassified), Some(Unclassified));
  }

  /** So does the redelivery after a worker was killed between its mark and the handler's return. */
  lemma KilledRunIsSwallowed(event: nat, handler: string)
    ensures SwallowedAfter(true, event, handler, None)
  {
    KeptMarkSwallows(true, event, handler, None, None);
  }

  /** So does the retry after marking has reported an error although the mark was inserted. */
  lemma FailedMarkIsSwallowed(event: nat, handler: string)
    ensures Decide(Retryable, 0, 3) == ToRetryQueue && SwallowedAfter(false, event, handler, Some(Retryable))
  {
    KeptMarkSwallows(false, event, handler, Some(Retryable), None);
  }
}
