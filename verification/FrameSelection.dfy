/** Choosing frames: a candidate is kept when it looks different from the last kept one or comes late enough. */
module FrameSelection {
  import opened Domain
  import opened Arith

  datatype Reason = FixedInterval | SceneChange

  datatype Kept = Kept(candidate: nat, index: nat, timestampMs: int, reason: Reason, distance: int)

  /**
   A candidate is kept when it looks different from the last kept one, or when enough time has
   passed.  Hashes are abstract values with a distance; time is computed over the reals, without
   floating-point rounding.
   */
  datatype Params<!H> = Params(distance: (H, H) -> int, fps: real, threshold: int, maxIntervalSeconds: int)

  /** Values that make no sense are replaced by defaults. */
  function Normalize<H>(p: Params<H>): (r: Params<H>)
    ensures r.fps > 0.0 && r.threshold > 0 && r.maxIntervalSeconds > 0 && r.distance == p.distance
    ensures p.fps > 0.0 && p.threshold > 0 && p.maxIntervalSeconds > 0 ==> r == p
    ensures r.fps == if p.fps > 0.0 then p.fps else 2.0
    ensures r.threshold == if p.threshold > 0 then p.threshold else 14
    ensures r.maxIntervalSeconds == if p.maxIntervalSeconds > 0 then p.maxIntervalSeconds else 15
  {
    Params(p.distance,
      if p.fps <= 0.0 then 2.0 else p.fps,
      if p.threshold <= 0 then 14 else p.threshold,
      if p.maxIntervalSeconds <= 0 then 15 else p.maxIntervalSeconds)
  }

  /** Half away from zero; the argument is never negative here. */
  function Round(x: real): int {
    (x + 0.5).Floor
  }

  function Timestamp(candidate: nat, fps: real): int
    requires fps > 0.0
  {
    Round(candidate as real * 1000.0 / fps)
  }

  /** What the decisions depend on; `time` is the timestamp of each candidate. */
  datatype Rule<!H> = Rule(distance: (H, H) -> int, time: nat -> int, threshold: int, maxIntervalMs: int)

  function RuleOf<H>(params: Params<H>): Rule<H> {
    var p := Normalize(params);
    Rule(p.distance, (i: nat) => Timestamp(i, p.fps), p.threshold, p.maxIntervalSeconds * 1000)
  }

  /** Whether and why candidate `n` is kept, given what was kept before. */
  function Decide<H>(hashes: seq<H>, r: Rule<H>, kept: seq<Kept>, n: nat): Option<Kept>
    requires n < |hashes|
    requires kept != [] ==> kept[|kept| - 1].candidate < |hashes|
  {
    var t := r.time(n);
    if kept == [] then Some(Kept(n, 0, t, FixedInterval, 0))
    else
      var last := kept[|kept| - 1];
      var d := r.distance(hashes[n], hashes[last.candidate]);
      if d >= r.threshold then Some(Kept(n, |kept|, t, SceneChange, d))
      else if t - last.timestampMs >= r.maxIntervalMs then Some(Kept(n, |kept|, t, FixedInterval, d))
      else None
  }

  /** What is kept of the first `n` candidates. */
  function Selection<H>(hashes: seq<H>, r: Rule<H>, n: nat): (kept: seq<Kept>)
    requires n <= |hashes|
    ensures kept != [] ==> kept[|kept| - 1].candidate < n
  {
    if n == 0 then []
    else
      var kept := Selection(hashes, r, n - 1);
      match Decide(hashes, r, kept, n - 1)
      case None => kept
      case Some(k) => kept + [k]
  }

  // ----- The loop -----

  datatype End = Complete | NoFrames | ProcessFailed | BadCandidate | StreamFailed | SinkFailed

  /** How the external process ends: its output may break off, and its exit may be a failure. */
  datatype Process = Process(breaks: bool, exitFails: bool)

  /** How the loop ends after the last candidate; a failed exit matters only if nothing was kept. */
  function EndOf(kept: seq<Kept>, p: Process): End {
    if p.breaks then StreamFailed
    else if kept != [] then Complete
    else if p.exitFails then ProcessFailed
    else NoFrames
  }

  /** The hashes of the candidates before the first that cannot be decoded. */
  function Decodable<H>(candidates: seq<Option<H>>): (hashes: seq<H>)
    ensures |hashes| <= |candidates|
    ensures forall i :: 0 <= i < |hashes| ==> candidates[i] == Some(hashes[i])
    ensures |hashes| < |candidates| ==> candidates[|hashes|].None?
  {
    if candidates == [] || candidates[0].None? then [] else [candidates[0].value] + Decodable(candidates[1..])
  }

  /** The hash and time the loop carries are those of the last kept candidate. */
  ghost predicate Carries<H>(hashes: seq<H>, kept: seq<Kept>, lastHash: Option<H>, lastKeptAt: int) {
    if kept == [] then lastHash.None?
    else
      var last := kept[|kept| - 1];
      last.candidate < |hashes| && lastHash == Some(hashes[last.candidate]) && lastKeptAt == last.timestampMs
  }

  /** The decision for one candidate; None when it is dropped. */
  method Judge<H>(ghost hashes: seq<H>, r: Rule<H>, ghost kept: seq<Kept>, ghost n: nat,
                  hash: H, t: int, lastHash: Option<H>, lastKeptAt: int)
    returns (reason: Option<Reason>, distance: int)
    requires n < |hashes| && hash == hashes[n] && t == r.time(n)
    requires Carries(hashes, kept, lastHash, lastKeptAt)
    ensures Decide(hashes, r, kept, n) ==
      if reason.None? then None else Some(Kept(n, |kept|, t, reason.value, distance))
  {
    reason, distance := None, 0;
    if lastHash.None? {
      reason := Some(FixedInterval);
    } else {
      distance := r.distance(hash, lastHash.value);
      if distance >= r.threshold {
        reason := Some(SceneChange);
      } else if t - lastKeptAt >= r.maxIntervalMs {
        reason := Some(FixedInterval);
      }
    }
  }

  /**
   What has been emitted when the loop ends, and why it ended: the selection up to the first
   frame the sink refuses (`accepts` says which it takes).
   */
  ghost predicate Emits<H>(candidates: seq<Option<H>>, process: Process, hashes: seq<H>, r: Rule<H>,
                           accepts: nat -> bool, emitted: seq<Kept>, end: End)
  {
    var all := Selection(hashes, r, |hashes|);
    && emitted <= all && (forall i :: 0 <= i < |emitted| ==> accepts(i))
    && (if end.SinkFailed? then |emitted| < |all| && !accepts(|emitted|)
        else emitted == all && end == if |hashes| < |candidates| then BadCandidate else EndOf(all, process))
  }

  /** What the loop has reached after `n` candidates. */
  ghost predicate Reached<H>(hashes: seq<H>, r: Rule<H>, n: nat, kept: seq<Kept>, lastHash: Option<H>, lastKeptAt: int)
  {
    n <= |hashes| && kept == Selection(hashes, r, n) && Carries(hashes, kept, lastHash, lastKeptAt)
  }

  lemma EndsRefused<H>(candidates: seq<Option<H>>, process: Process, hashes: seq<H>, r: Rule<H>, accepts: nat -> bool,
                       n: nat, kept: seq<Kept>, k: Kept)
    requires n <= |hashes| <= |candidates| && kept + [k] == Selection(hashes, r, n) && n > 0
    requires !accepts(|kept|) && forall i :: 0 <= i < |kept| ==> accepts(i)
    ensures Emits(candidates, process, hashes, r, accepts, kept, SinkFailed)
  {
    SelectionGrows(hashes, r, n, |hashes|);
  }

  /** The loop over the candidates; `hashes` are those before the first that cannot be decoded. */
  method Select<H>(candidates: seq<Option<H>>, process: Process, ghost hashes: seq<H>, r: Rule<H>, accepts: nat -> bool)
    returns (emitted: seq<Kept>, end: End)
    requires |hashes| <= |candidates| && forall i :: 0 <= i < |hashes| ==> candidates[i] == Some(hashes[i])
    requires |hashes| < |candidates| ==> candidates[|hashes|].None?
    ensures Emits(candidates, process, hashes, r, accepts, emitted, end)
  {
    emitted := [];
    var candidate := 0;
    var lastHash: Option<H> := None;
    var lastKeptAt := -1;
    while candidate < |candidates|
      invariant Reached(hashes, r, candidate, emitted, lastHash, lastKeptAt)
      invariant forall i :: 0 <= i < |emitted| ==> accepts(i)
    {
      var data := candidates[candidate];
      var timestampMs := r.time(candidate);
      if data.None? {
        return emitted, BadCandidate;
      }
      var reason, distance := Judge(hashes, r, emitted, candidate, data.value, timestampMs, lastHash, lastKeptAt);
      candidate := candidate + 1;
      if reason.None? {
        continue;
      }
      var kept := Kept(candidate - 1, |emitted|, timestampMs, reason.value, distance);
      if !accepts(|emitted|) {
        EndsRefused(candidates, process, hashes, r, accepts, candidate, emitted, kept);
        return emitted, SinkFailed;
      }
      emitted := emitted + [kept];
      lastHash, lastKeptAt := data, timestampMs;
    }
    if process.breaks {
      return emitted, StreamFailed;
    }
    if process.exitFails && emitted == [] {
      return emitted, ProcessFailed;
    }
    end := if emitted == [] then NoFrames else Complete;
  }

  /**
   Whatever the sink and the decoder do, what has been emitted is the specified selection up to
   the first frame the sink refuses, and the way the loop ends says what happened.
   */
  method ExtractFrames<H>(candidates: seq<Option<H>>, process: Process, params: Params<H>, accepts: nat -> bool)
    returns (emitted: seq<Kept>, end: End)
    ensures Emits(candidates, process, Decodable(candidates), RuleOf(params), accepts, emitted, end)
    ensures forall i :: 0 <= i < |emitted| ==>
      emitted[i].index == i && IsNear(emitted[i].timestampMs, emitted[i].candidate, Normalize(params).fps)
    ensures EndsFor(candidates, process, emitted, end)
  {
    emitted, end := Select(candidates, process, Decodable(candidates), RuleOf(params), accepts);
    ghost var hashes := Decodable(candidates);
    SelectionInRealTime(hashes, params, |hashes|);
  }

  /** Unless the sink refuses, what went wrong first says how the loop ends. */
  ghost predicate EndsFor<H>(candidates: seq<Option<H>>, process: Process, emitted: seq<Kept>, end: End) {
    var bad := exists i :: 0 <= i < |candidates| && candidates[i].None?;
    match end
    case SinkFailed => true
    case BadCandidate => bad
    case StreamFailed => !bad && process.breaks
    case Complete => !bad && !process.breaks && emitted != []
    case ProcessFailed => !bad && !process.breaks && emitted == [] && process.exitFails
    case NoFrames => !bad && !process.breaks && emitted == [] && !process.exitFails
  }

  lemma {:induction false} SelectionGrows<H>(hashes: seq<H>, r: Rule<H>, m: nat, n: nat)
    requires m <= n <= |hashes|
    ensures Selection(hashes, r, m) <= Selection(hashes, r, n)
    decreases n - m
  {
    if m < n {
      SelectionGrows(hashes, r, m, n - 1);
    }
  }

  // ----- What the selection promises -----

  lemma TimestampsAdvance(i: nat, j: nat, fps: real)
    requires i <= j && fps > 0.0
    ensures 0 <= Timestamp(i, fps) <= Timestamp(j, fps)
    ensures j == i + 1 ==> Timestamp(j, fps) <= Timestamp(i, fps) + Ceil(1000.0 / fps)
  {
  }

  /** Too similar to a kept frame, and too soon after it. */
  ghost predicate Redundant<H>(hashes: seq<H>, r: Rule<H>, last: Kept, c: nat)
    requires c < |hashes| && last.candidate < |hashes|
  {
    && r.distance(hashes[c], hashes[last.candidate]) < r.threshold
    && r.time(c) - last.timestampMs < r.maxIntervalMs
  }

  /** A frame kept after `last`, for the reason it states. */
  ghost predicate Justified<H>(hashes: seq<H>, r: Rule<H>, last: Kept, k: Kept)
    requires k.candidate < |hashes| && last.candidate < |hashes|
  {
    && k.distance == r.distance(hashes[k.candidate], hashes[last.candidate])
    && match k.reason
       case SceneChange => k.distance >= r.threshold
       case FixedInterval => k.distance < r.threshold && k.timestampMs - last.timestampMs >= r.maxIntervalMs
  }

  ghost predicate Placed<H>(hashes: seq<H>, r: Rule<H>, kept: seq<Kept>, n: nat)
    requires n <= |hashes|
  {
    && (forall i :: 0 <= i < |kept| ==>
          kept[i].index == i && kept[i].candidate < n && kept[i].timestampMs == r.time(kept[i].candidate))
    && (forall i, j :: 0 <= i < j < |kept| ==> kept[i].candidate < kept[j].candidate)
    && (if n == 0 then kept == [] else kept != [] && kept[0].candidate == 0 && kept[0].reason == FixedInterval)
  }

  /** Where the candidates that were judged against the `i`-th kept frame end. */
  function NextKept(kept: seq<Kept>, i: nat, n: nat): nat {
    if i + 1 < |kept| then kept[i + 1].candidate else n
  }

  ghost predicate AllJustified<H>(hashes: seq<H>, r: Rule<H>, kept: seq<Kept>)
    requires forall i :: 0 <= i < |kept| ==> kept[i].candidate < |hashes|
  {
    forall i :: 0 < i < |kept| ==> Justified(hashes, r, kept[i - 1], kept[i])
  }

  ghost predicate AllRedundant<H>(hashes: seq<H>, r: Rule<H>, kept: seq<Kept>, n: nat)
    requires n <= |hashes| && Placed(hashes, r, kept, n)
  {
    forall i, c :: 0 <= i < |kept| && kept[i].candidate < c < NextKept(kept, i, n) ==> Redundant(hashes, r, kept[i], c)
  }

  lemma DropExplains<H>(hashes: seq<H>, r: Rule<H>, kept: seq<Kept>, n: nat)
    requires n < |hashes| && Placed(hashes, r, kept, n) && AllRedundant(hashes, r, kept, n)
    requires Decide(hashes, r, kept, n).None?
    ensures Placed(hashes, r, kept, n + 1) && AllRedundant(hashes, r, kept, n + 1)
  {
  }

  lemma KeepExplains<H>(hashes: seq<H>, r: Rule<H>, kept: seq<Kept>, n: nat)
    requires n < |hashes| && Placed(hashes, r, kept, n) && AllRedundant(hashes, r, kept, n)
    requires Decide(hashes, r, kept, n).Some?
    ensures var kept' := kept + [Decide(hashes, r, kept, n).value];
      Placed(hashes, r, kept', n + 1) && AllRedundant(hashes, r, kept', n + 1)
  {
  }

  lemma KeepJustifies<H>(hashes: seq<H>, r: Rule<H>, kept: seq<Kept>, n: nat)
    requires n < |hashes| && Placed(hashes, r, kept, n) && AllJustified(hashes, r, kept)
    requires Decide(hashes, r, kept, n).Some?
    ensures AllJustified(hashes, r, kept + [Decide(hashes, r, kept, n).value])
  {
  }

  ghost predicate Explained<H>(hashes: seq<H>, r: Rule<H>, kept: seq<Kept>, n: nat)
    requires n <= |hashes|
  {
    Placed(hashes, r, kept, n) && AllJustified(hashes, r, kept) && AllRedundant(hashes, r, kept, n)
  }

  lemma StepExplains<H>(hashes: seq<H>, r: Rule<H>, kept: seq<Kept>, n: nat)
    requires n < |hashes| && Explained(hashes, r, kept, n)
    ensures var d := Decide(hashes, r, kept, n);
      Explained(hashes, r, if d.None? then kept else kept + [d.value], n + 1)
  {
    if Decide(hashes, r, kept, n).None? {
      DropExplains(hashes, r, kept, n);
    } else {
      KeepExplains(hashes, r, kept, n);
      KeepJustifies(hashes, r, kept, n);
    }
  }

  lemma NextIsExplained<H>(hashes: seq<H>, r: Rule<H>, n: nat)
    requires n < |hashes| && Explained(hashes, r, Selection(hashes, r, n), n)
    ensures Explained(hashes, r, Selection(hashes, r, n + 1), n + 1)
  {
    StepExplains(hashes, r, Selection(hashes, r, n), n);
  }

  /** Climbs from what is explained for `m` candidates to what is for `n`. */
  lemma {:induction false} ExplainedFrom<H>(hashes: seq<H>, r: Rule<H>, m: nat, n: nat)
    requires m <= n <= |hashes| && Explained(hashes, r, Selection(hashes, r, m), m)
    ensures Explained(hashes, r, Selection(hashes, r, n), n)
    decreases n - m
  {
    if m < n {
      NextIsExplained(hashes, r, m);
      ExplainedFrom(hashes, r, m + 1, n);
    }
  }

  /**
   Every candidate is accounted for: the first is kept, each later one is kept exactly for the
   reason it states, and a dropped one is similar to the last kept one and close to it in time.
   */
  lemma {:induction false} SelectionIsExplained<H>(hashes: seq<H>, r: Rule<H>, n: nat)
    requires n <= |hashes|
    ensures Explained(hashes, r, Selection(hashes, r, n), n)
  {
    ExplainedFrom(hashes, r, 0, n);
  }

  // ----- The selection in real time -----

  /** When candidate `c` is shown, in milliseconds. */
  function RealMs(c: int, fps: real): real
    requires fps > 0.0
  {
    c as real / fps * 1000.0
  }

  lemma RealMsIsLinear(a: int, b: int, fps: real)
    requires fps > 0.0
    ensures RealMs(a, fps) - RealMs(b, fps) == RealMs(a - b, fps)
  {
    assert (a as real - b as real) / fps == a as real / fps - b as real / fps;
  }

  /** A timestamp is the nearest whole millisecond. */
  predicate IsNear(timestampMs: int, c: nat, fps: real)
    requires fps > 0.0
  {
    -0.5 < timestampMs as real - RealMs(c, fps) <= 0.5
  }

  lemma TimestampIsNear(c: nat, fps: real)
    requires fps > 0.0
    ensures IsNear(Timestamp(c, fps), c, fps)
  {
    assert c as real * 1000.0 / fps == c as real / fps * 1000.0;
  }

  /** `k` was kept after `last` for the reason it states, in terms of the given parameters. */
  ghost predicate KeptFor<H>(hashes: seq<H>, p: Params<H>, last: Kept, k: Kept)
    requires k.candidate < |hashes| && last.candidate < |hashes| && p.fps > 0.0
  {
    && k.distance == p.distance(hashes[k.candidate], hashes[last.candidate])
    && match k.reason
       case SceneChange => k.distance >= p.threshold
       case FixedInterval =>
         && k.distance < p.threshold
         && RealMs(k.candidate - last.candidate, p.fps) > (p.maxIntervalSeconds * 1000 - 1) as real
  }

  /** Candidate `c` looks like `last`, and comes less than the interval after it. */
  ghost predicate DroppedAfter<H>(hashes: seq<H>, p: Params<H>, last: Kept, c: nat)
    requires c < |hashes| && last.candidate < |hashes| && p.fps > 0.0
  {
    && p.distance(hashes[c], hashes[last.candidate]) < p.threshold
    && RealMs(c - last.candidate, p.fps) < (p.maxIntervalSeconds * 1000) as real
  }

  lemma ElapsedIsNear(s: int, t: int, a: nat, b: nat, fps: real, ms: int)
    requires fps > 0.0 && IsNear(s, a, fps) && IsNear(t, b, fps)
    ensures t - s < ms ==> RealMs(b - a, fps) < ms as real
    ensures t - s >= ms ==> RealMs(b - a, fps) > (ms - 1) as real
  {
    RealMsIsLinear(b, a, fps);
  }

  /**
   Every emitted timestamp is that of its candidate to the nearest millisecond; a frame kept for time
   comes at least the interval (less a millisecond of rounding) after the last one, and a dropped one
   less than the interval after it.
   */
  lemma SelectionInRealTime<H>(hashes: seq<H>, params: Params<H>, n: nat)
    requires n <= |hashes|
    ensures var kept, p := Selection(hashes, RuleOf(params), n), Normalize(params);
      && Placed(hashes, RuleOf(params), kept, n)
      && (forall i :: 0 <= i < |kept| ==> IsNear(kept[i].timestampMs, kept[i].candidate, p.fps))
      && (forall i :: 0 < i < |kept| ==> KeptFor(hashes, p, kept[i - 1], kept[i]))
      && (forall i, c :: 0 <= i < |kept| && kept[i].candidate < c < NextKept(kept, i, n) ==>
            DroppedAfter(hashes, p, kept[i], c))
  {
    var r, kept, p := RuleOf(params), Selection(hashes, RuleOf(params), n), Normalize(params);
    SelectionIsExplained(hashes, r, n);
    forall c: nat
      ensures IsNear(r.time(c), c, p.fps)
    {
      TimestampIsNear(c, p.fps);
    }
    forall i | 0 < i < |kept|
      ensures KeptFor(hashes, p, kept[i - 1], kept[i])
    {
      KeptInRealTime(hashes, params, kept, n, i);
    }
    forall i, c | 0 <= i < |kept| && kept[i].candidate < c < NextKept(kept, i, n)
      ensures DroppedAfter(hashes, p, kept[i], c)
    {
      DroppedInRealTime(hashes, params, kept, n, i, c);
    }
  }

  lemma KeptInRealTime<H>(hashes: seq<H>, params: Params<H>, kept: seq<Kept>, n: nat, i: nat)
    requires n <= |hashes| && 0 < i < |kept| && Explained(hashes, RuleOf(params), kept, n)
    ensures KeptFor(hashes, Normalize(params), kept[i - 1], kept[i])
  {
    var p, last, k := Normalize(params), kept[i - 1], kept[i];
    assert Justified(hashes, RuleOf(params), last, k);
    TimestampIsNear(last.candidate, p.fps);
    TimestampIsNear(k.candidate, p.fps);
    ElapsedIsNear(last.timestampMs, k.timestampMs, last.candidate, k.candidate, p.fps, p.maxIntervalSeconds * 1000);
  }

  lemma DroppedInRealTime<H>(hashes: seq<H>, params: Params<H>, kept: seq<Kept>, n: nat, i: nat, c: nat)
    requires n <= |hashes| && i < |kept| && Explained(hashes, RuleOf(params), kept, n)
    requires kept[i].candidate < c < NextKept(kept, i, n)
    ensures DroppedAfter(hashes, Normalize(params), kept[i], c)
  {
    var p, last := Normalize(params), kept[i];
    assert Redundant(hashes, RuleOf(params), last, c);
    TimestampIsNear(last.candidate, p.fps);
    TimestampIsNear(c, p.fps);
    ElapsedIsNear(last.timestampMs, Timestamp(c, p.fps), last.candidate, c, p.fps, p.maxIntervalSeconds * 1000);
  }

  /** Time never goes back, and goes on by at most `gap` from one candidate to the next. */
  ghost predicate Steady<H>(r: Rule<H>, gap: int) {
    && (forall i: nat, j: nat :: i <= j ==> 0 <= r.time(i) <= r.time(j))
    && (forall i: nat, j: nat :: j == i + 1 ==> r.time(j) <= r.time(i) + gap)
  }

  lemma RuleIsSteady<H>(params: Params<H>)
    ensures Steady(RuleOf(params), Ceil(1000.0 / Normalize(params).fps))
  {
    var r, fps := RuleOf(params), Normalize(params).fps;
    forall i: nat, j: nat | i <= j
      ensures 0 <= r.time(i) <= r.time(j) && (j == i + 1 ==> r.time(j) <= r.time(i) + Ceil(1000.0 / fps))
    {
      TimestampsAdvance(i, j, fps);
    }
  }

  lemma GapOf<H>(hashes: seq<H>, r: Rule<H>, n: nat, i: nat, gap: int)
    requires n <= |hashes| && i + 1 < |Selection(hashes, r, n)| && Steady(r, gap) && r.maxIntervalMs > 0
    ensures var kept := Selection(hashes, r, n);
      0 <= kept[i + 1].timestampMs - kept[i].timestampMs < r.maxIntervalMs + gap
  {
    SelectionIsExplained(hashes, r, n);
    var kept := Selection(hashes, r, n);
    var a, b := kept[i].candidate, kept[i + 1].candidate;
    assert r.time(b) <= r.time(b - 1) + gap;
    if a < b - 1 {
      assert AllRedundant(hashes, r, kept, n) && b - 1 < NextKept(kept, i, n);
      assert Redundant(hashes, r, kept[i], b - 1);
    }
  }

  /** Between two kept frames less than the interval plus one candidate's spacing passes. */
  lemma {:induction false} GapsAreBounded<H>(hashes: seq<H>, params: Params<H>, n: nat, i: nat)
    requires n <= |hashes| && i + 1 < |Selection(hashes, RuleOf(params), n)|
    ensures var kept, p := Selection(hashes, RuleOf(params), n), Normalize(params);
      0 <= kept[i + 1].timestampMs - kept[i].timestampMs < p.maxIntervalSeconds * 1000 + Ceil(1000.0 / p.fps)
  {
    RuleIsSteady(params);
    GapOf(hashes, RuleOf(params), n, i, Ceil(1000.0 / Normalize(params).fps));
  }

  function FixedCount(kept: seq<Kept>): nat {
    if kept == [] then 0
    else FixedCount(kept[..|kept| - 1]) + if kept[|kept| - 1].reason == FixedInterval then 1 else 0
  }

  lemma {:induction false} FixedTakesTime<H>(hashes: seq<H>, r: Rule<H>, kept: seq<Kept>, n: nat, m: nat, gap: int)
    requires n <= |hashes| && Placed(hashes, r, kept, n) && AllJustified(hashes, r, kept)
    requires 0 < m <= |kept| && Steady(r, gap)
    ensures FixedCount(kept[..m]) >= 1
    ensures (FixedCount(kept[..m]) - 1) * r.maxIntervalMs <= kept[m - 1].timestampMs
  {
    assert kept[..m][..m - 1] == kept[..m - 1];
    if m > 1 {
      FixedTakesTime(hashes, r, kept, n, m - 1, gap);
      assert Justified(hashes, r, kept[m - 2], kept[m - 1]);
      var c := FixedCount(kept[..m - 1]);
      assert c * r.maxIntervalMs == (c - 1) * r.maxIntervalMs + r.maxIntervalMs;
    }
  }

  lemma LastKeptInTime<H>(hashes: seq<H>, r: Rule<H>, kept: seq<Kept>, n: nat, gap: int)
    requires 0 < n <= |hashes| && Placed(hashes, r, kept, n) && Steady(r, gap)
    ensures kept != [] && kept[|kept| - 1].timestampMs <= r.time(n - 1)
  {
  }

  lemma FixedTimeIsBounded<H>(hashes: seq<H>, r: Rule<H>, n: nat, gap: int)
    requires 0 < n <= |hashes| && Steady(r, gap)
    ensures (FixedCount(Selection(hashes, r, n)) - 1) * r.maxIntervalMs <= r.time(n - 1)
  {
    SelectionIsExplained(hashes, r, n);
    var kept := Selection(hashes, r, n);
    LastKeptInTime(hashes, r, kept, n, gap);
    FixedTakesTime(hashes, r, kept, n, |kept|, gap);
    assert kept[..|kept|] == kept;
  }

  /** Frames kept only for the passage of time are as rare as the interval says. */
  lemma FixedKeepsAreBounded<H>(hashes: seq<H>, params: Params<H>, n: nat)
    requires 0 < n <= |hashes|
    ensures var p := Normalize(params);
      FixedCount(Selection(hashes, RuleOf(params), n)) <= 1 + Timestamp(n - 1, p.fps) / (p.maxIntervalSeconds * 1000)
  {
    var r := RuleOf(params);
    RuleIsSteady(params);
    FixedTimeIsBounded(hashes, r, n, Ceil(1000.0 / Normalize(params).fps));
    QuotientBounds(FixedCount(Selection(hashes, r, n)) - 1, r.maxIntervalMs, r.time(n - 1));
  }
}
