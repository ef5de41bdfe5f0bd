/** How many segments a video is cut into.  Durations are real numbers of seconds. */
module SegmentPlan {
  import opened Arith

  datatype Config = Config(segmentSeconds: int, minForSplitSeconds: int, maxSegments: int)

  datatype Plan = Plan(count: int, effectiveSeconds: real, skipSplit: bool)

  /** Values that are not positive are replaced by defaults. */
  function Normalize(c: Config): (r: Config)
    ensures r.segmentSeconds > 0 && r.minForSplitSeconds > 0 && r.maxSegments > 0
    ensures c.segmentSeconds > 0 && c.minForSplitSeconds > 0 && c.maxSegments > 0 ==> r == c
    ensures r.segmentSeconds == if c.segmentSeconds > 0 then c.segmentSeconds else 120
    ensures r.minForSplitSeconds == if c.minForSplitSeconds > 0 then c.minForSplitSeconds else 90
    ensures r.maxSegments == if c.maxSegments > 0 then c.maxSegments else 40
  {
    Config(
      if c.segmentSeconds <= 0 then 120 else c.segmentSeconds,
      if c.minForSplitSeconds <= 0 then 90 else c.minForSplitSeconds,
      if c.maxSegments <= 0 then 40 else c.maxSegments)
  }

  /** A duration that is unknown counts as one full segment. */
  function Known(duration: real, c: Config): real {
    if duration <= 0.0 then Normalize(c).segmentSeconds as real else duration
  }

  /** How many pieces of size `y` cover `x`. */
  function Pieces(x: real, y: real): int
    requires y > 0.0
  {
    Ceil(x / y)
  }

  function PlanSegments(durationSeconds: real, config: Config): Plan {
    var c := Normalize(config);
    var duration := Known(durationSeconds, config);
    if duration < c.minForSplitSeconds as real then Plan(1, duration, true)
    else
      var wanted := Pieces(duration, c.segmentSeconds as real);
      var capped := wanted > c.maxSegments;
      var count := if capped then c.maxSegments else wanted;
      var effective := if capped then Pieces(duration, count as real) as real else c.segmentSeconds as real;
      var atLeastOne := if count < 1 then 1 else count;
      Plan(atLeastOne, effective, atLeastOne == 1)
  }

  lemma DivBelow(x: real, y: real, b: real)
    requires y > 0.0
    ensures b < x / y <==> b * y < x
    ensures b >= x / y <==> b * y >= x
  {
    var q := x / y;
    assert q * y == x;
    if b < q {
      assert (q - b) * y == q * y - b * y;
    } else if b > q {
      assert (b - q) * y == b * y - q * y;
    }
  }

  /** `Pieces(x, y)` pieces of size `y` are enough for `x`, and no fewer are. */
  lemma PiecesCover(x: real, y: real)
    requires x > 0.0 && y > 0.0
    ensures Pieces(x, y) >= 1
    ensures x <= Pieces(x, y) as real * y
    ensures (Pieces(x, y) - 1) as real * y < x
  {
    var n := Ceil(x / y);
    DivBelow(x, y, n as real);
    DivBelow(x, y, (n - 1) as real);
  }

  /** As many pieces as needed: `n` is enough exactly when it is not fewer. */
  lemma EnoughPieces(x: real, y: real, n: int)
    requires x > 0.0 && y > 0.0
    ensures n >= Pieces(x, y) <==> x <= n as real * y
  {
    var q := x / y;
    DivBelow(x, y, n as real);
    assert n >= Ceil(q) <==> n as real >= q;
  }

  predicate Splits(duration: real, config: Config) {
    Known(duration, config) >= Normalize(config).minForSplitSeconds as real
  }

  predicate Capped(duration: real, config: Config) {
    var c := Normalize(config);
    Splits(duration, config) && Pieces(Known(duration, config), c.segmentSeconds as real) > c.maxSegments
  }

  /** The three kinds of plan. */
  lemma PlanIs(duration: real, config: Config)
    ensures var p, c, d := PlanSegments(duration, config), Normalize(config), Known(duration, config);
      d > 0.0 &&
      if !Splits(duration, config) then p == Plan(1, d, true)
      else if Capped(duration, config) then
        p == Plan(c.maxSegments, Pieces(d, c.maxSegments as real) as real, c.maxSegments == 1)
      else
        var n := Pieces(d, c.segmentSeconds as real);
        p == Plan(n, c.segmentSeconds as real, n == 1) && 1 <= n <= c.maxSegments
  {
  }

  /** The planned segments cover the whole video, for every duration and configuration. */
  lemma PlanCovers(duration: real, config: Config)
    ensures var p, c := PlanSegments(duration, config), Normalize(config);
      && 1 <= p.count <= c.maxSegments
      && p.effectiveSeconds > 0.0
      && Known(duration, config) <= p.count as real * p.effectiveSeconds
      && (p.skipSplit <==> p.count == 1)
  {
    var c, d := Normalize(config), Known(duration, config);
    PlanIs(duration, config);
    if Capped(duration, config) {
      PiecesCover(d, c.maxSegments as real);
    } else if Splits(duration, config) {
      PiecesCover(d, c.segmentSeconds as real);
    }
  }

  lemma LongerWhenCapped(d: real, y: int, m: int)
    requires d > 0.0 && y > 0 && m > 0 && Pieces(d, y as real) > m
    ensures Pieces(d, m as real) > y
  {
    EnoughPieces(d, y as real, m);
    EnoughPieces(d, m as real, y);
    assert m as real * y as real == y as real * m as real;
  }

  /** Only a capped plan lengthens its segments, and it does; otherwise no planned segment is empty. */
  lemma PlanIsTight(duration: real, config: Config)
    ensures var p, c := PlanSegments(duration, config), Normalize(config);
      if Capped(duration, config) then p.count == c.maxSegments && p.effectiveSeconds > c.segmentSeconds as real
      else
        && (Splits(duration, config) ==> p.effectiveSeconds == c.segmentSeconds as real)
        && (p.count - 1) as real * p.effectiveSeconds < Known(duration, config)
  {
    var c, d := Normalize(config), Known(duration, config);
    PlanIs(duration, config);
    if Capped(duration, config) {
      LongerWhenCapped(d, c.segmentSeconds, c.maxSegments);
    } else if Splits(duration, config) {
      PiecesCover(d, c.segmentSeconds as real);
    }
  }

  /** `n` segments of `y` seconds are needed for `x` seconds: they reach the end, and one less does not. */
  predicate JustReaches(n: int, y: real, x: real) {
    n >= 1 && (n - 1) as real * y < x <= n as real * y
  }

  predicate FitsUncapped(duration: real, config: Config) {
    var c := Normalize(config);
    duration <= c.maxSegments as real * c.segmentSeconds as real
  }

  lemma CappedIffTooLong(duration: real, config: Config)
    requires duration > 0.0 && duration >= Normalize(config).minForSplitSeconds as real
    ensures Capped(duration, config) <==> !FitsUncapped(duration, config)
  {
    EnoughPieces(duration, Normalize(config).segmentSeconds as real, Normalize(config).maxSegments);
  }

  lemma UncappedPlan(duration: real, config: Config)
    requires duration > 0.0 && duration >= Normalize(config).minForSplitSeconds as real
    requires FitsUncapped(duration, config)
    ensures var p, seconds := PlanSegments(duration, config), Normalize(config).segmentSeconds as real;
      p.effectiveSeconds == seconds && JustReaches(p.count, seconds, duration)
  {
    CappedIffTooLong(duration, config);
    PlanIs(duration, config);
    PiecesCover(duration, Normalize(config).segmentSeconds as real);
  }

  lemma CappedPlan(duration: real, config: Config)
    requires duration > 0.0 && duration >= Normalize(config).minForSplitSeconds as real
    requires !FitsUncapped(duration, config)
    ensures var p, c := PlanSegments(duration, config), Normalize(config);
      && p.count == c.maxSegments && p.effectiveSeconds > c.segmentSeconds as real
      && p.effectiveSeconds == p.effectiveSeconds.Floor as real
      && JustReaches(p.effectiveSeconds.Floor, c.maxSegments as real, duration)
  {
    var c := Normalize(config);
    CappedIffTooLong(duration, config);
    PlanIs(duration, config);
    PiecesCover(duration, c.maxSegments as real);
    LongerWhenCapped(duration, c.segmentSeconds, c.maxSegments);
  }

  /**
   The plan in terms of the duration itself.  A short video is not split; a longer one gets just
   enough segments of the configured length, or, if those were too many, the most that are allowed,
   of the least whole number of seconds that reaches the end.
   */
  lemma PlanOfDuration(duration: real, config: Config)
    requires duration > 0.0
    ensures var p, c := PlanSegments(duration, config), Normalize(config);
      && (p.skipSplit <==> p.count == 1)
      && if duration < c.minForSplitSeconds as real then p.count == 1 && p.effectiveSeconds == duration
         else if FitsUncapped(duration, config) then
           p.effectiveSeconds == c.segmentSeconds as real && JustReaches(p.count, p.effectiveSeconds, duration)
         else
           && p.count == c.maxSegments && p.effectiveSeconds > c.segmentSeconds as real
           && p.effectiveSeconds == p.effectiveSeconds.Floor as real
           && JustReaches(p.effectiveSeconds.Floor, c.maxSegments as real, duration)
  {
    PlanCovers(duration, config);
    if duration >= Normalize(config).minForSplitSeconds as real {
      if FitsUncapped(duration, config) {
        UncappedPlan(duration, config);
      } else {
        CappedPlan(duration, config);
      }
    }
  }

  /** A video of unknown duration is planned like one of the length of a segment. */
  lemma PlanOfUnknown(duration: real, config: Config)
    requires duration <= 0.0
    ensures PlanSegments(duration, config) == PlanSegments(Normalize(config).segmentSeconds as real, config)
  {
  }

  lemma PiecesAreMonotone(a: real, b: real, y: real)
    requires 0.0 < a <= b && y > 0.0
    ensures Pieces(a, y) <= Pieces(b, y)
  {
    PiecesCover(b, y);
    EnoughPieces(a, y, Pieces(b, y));
  }

  /** A longer video never gets fewer segments. */
  lemma CountIsMonotone(a: real, b: real, config: Config)
    requires 0.0 < a <= b
    ensures PlanSegments(a, config).count <= PlanSegments(b, config).count
  {
    PlanIs(a, config);
    PlanIs(b, config);
    PiecesAreMonotone(a, b, Normalize(config).segmentSeconds as real);
  }

  // ----- Slices -----

  /** The step between segment offsets, cut to whole milliseconds. */
  function StepMs(effectiveSeconds: real): int {
    (effectiveSeconds * 1000.0).Floor
  }

  lemma WholeStep(seconds: int)
    ensures StepMs(seconds as real) == seconds * 1000
  {
    assert seconds as real * 1000.0 == (seconds * 1000) as real;
  }

  lemma Thousandfold(count: int, seconds: int)
    ensures (count * (seconds * 1000)) as real == count as real * seconds as real * 1000.0
  {
    var n := count * seconds;
    assert count * (seconds * 1000) == n * 1000;
    assert n as real == count as real * seconds as real;
  }

  /** When a video is split, effective durations are whole seconds, so the step is exact. */
  lemma StepIsExact(duration: real, config: Config) returns (seconds: int)
    requires Splits(duration, config)
    ensures PlanSegments(duration, config).effectiveSeconds == seconds as real
    ensures StepMs(PlanSegments(duration, config).effectiveSeconds) == seconds * 1000
  {
    PlanIs(duration, config);
    var c, d := Normalize(config), Known(duration, config);
    seconds := if Capped(duration, config) then Pieces(d, c.maxSegments as real) else c.segmentSeconds;
    WholeStep(seconds);
  }

  /** In milliseconds: `count` whole steps reach the end of the video. */
  lemma StepsCover(duration: real, config: Config) returns (step: int)
    requires Splits(duration, config)
    ensures step == StepMs(PlanSegments(duration, config).effectiveSeconds) && step > 0
    ensures Known(duration, config) * 1000.0 <= (PlanSegments(duration, config).count * step) as real
  {
    var p := PlanSegments(duration, config);
    var seconds := StepIsExact(duration, config);
    PlanCovers(duration, config);
    Thousandfold(p.count, seconds);
    step := seconds * 1000;
  }

  /** Every moment of the video lies in exactly one of the planned slices `[i * step, (i + 1) * step)`. */
  lemma SlicesTile(duration: real, config: Config, t: int, i: int)
    requires Splits(duration, config) && 0 <= t && t as real < Known(duration, config) * 1000.0
    ensures var p := PlanSegments(duration, config);
      var step := StepMs(p.effectiveSeconds);
      step > 0 && 0 <= t / step < p.count && (i * step <= t < (i + 1) * step <==> i == t / step)
  {
    var step := StepsCover(duration, config);
    SliceOf(t, step, PlanSegments(duration, config).count);
    SliceIsUnique(t, step, t / step, i);
  }

  lemma SliceOf(t: int, step: int, count: int)
    requires step > 0 && 0 <= t < count * step
    ensures 0 <= t / step < count && (t / step) * step <= t < (t / step + 1) * step
  {
    QuotientFits(t, step);
    SliceIsPlanned(t, step, t / step, count);
  }

  lemma SliceIsPlanned(t: int, step: int, q: int, count: int)
    requires step > 0 && 0 <= t < count * step && q * step <= t < (q + 1) * step
    ensures 0 <= q < count
  {
    CancelLess(q, count, step);
    CancelLess(0, q + 1, step);
  }

  lemma SliceIsUnique(t: int, step: int, q: int, i: int)
    requires step > 0 && q * step <= t < (q + 1) * step
    ensures i * step <= t < (i + 1) * step <==> i == q
  {
    if i * step <= t < (i + 1) * step {
      CancelLess(i, q + 1, step);
      CancelLess(q, i + 1, step);
    }
  }
}
