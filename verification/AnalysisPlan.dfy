/** The bounded decode plan: the footprint of the selected spans and the frame rate that fits the budget. */
module AnalysisPlan {
  import opened AnalysisSpans
  import opened Rounding
  import opened Sorting
  import opened Wrappers

  const MAX_REDUCTIONS := 64

  // ---- the footprint --------------------------------------------------------------------

  function Pad(s: Span, context: real): Span {
    Span(s.block, if s.start - context < 0.0 then 0.0 else s.start - context, s.end + context)
  }

  function PadEach(spans: seq<Span>, context: real): (r: seq<Span>)
    ensures |r| == |spans|
  {
    seq(|spans|, i requires 0 <= i < |spans| => Pad(spans[i], context))
  }

  method ExpandSpans(spans: seq<Span>, context: real) returns (r: Result<seq<Span>, Refusal>)
    ensures context < 0.0 ==> r == Err(InvalidArgument)
    ensures context >= 0.0 ==> (r.Ok? <==> forall s <- PadEach(spans, context) :: ValidSpan(s))
    ensures r.Ok? ==> r.value == MergedSpans(PadEach(spans, context))
    ensures r.Err? && context >= 0.0 ==> r.error == InvalidSpan
  {
    if context < 0.0 {
      return Err(InvalidArgument);
    }
    r := MergeSpans(PadEach(spans, context));
  }

  function Footprint(spans: seq<Span>, context: real): seq<Span> {
    MergedSpans(PadEach(MergedSpans(spans), context))
  }

  /** Padding and rounding never shrink a span whose bounds are whole millionths. */
  lemma PadCovers(s: Span, context: real)
    requires context >= 0.0 && 0.0 <= s.start && Round6(s.start) == s.start && Round6(s.end) == s.end
    ensures Within(s, Normalize(Pad(s, context)))
  {
    Round6IsMonotone(Pad(s, context).start, s.start);
    Round6IsMonotone(s.end, Pad(s, context).end);
  }

  /** Both bounds are whole millionths and not negative. */
  predicate Rounded(s: Span) { 0.0 <= s.start && Round6(s.start) == s.start && Round6(s.end) == s.end }

  lemma NormalizedIsRounded(s: Span)
    requires ValidSpan(s)
    ensures Rounded(Normalize(s))
  {
    Round6Settles(s.start);
    Round6Settles(s.end);
    Round6IsMonotone(0.0, s.start);
  }

  lemma MergeKeepsRounded(merged: seq<Span>, s: Span)
    requires Rounded(s) && forall m <- merged :: Rounded(m)
    ensures forall m <- MergeSpan(merged, s) :: Rounded(m)
  {
    assert merged != [] ==> merged[|merged| - 1] in merged;
  }

  lemma {:induction false} MergeAllRounded(spans: seq<Span>)
    requires forall s <- spans :: Rounded(s)
    ensures forall m <- MergeAll(spans) :: Rounded(m)
  {
    if spans != [] {
      assert forall p <- spans[..|spans| - 1] :: p in spans;
      MergeAllRounded(spans[..|spans| - 1]);
      assert spans[|spans| - 1] in spans;
      MergeKeepsRounded(MergeAll(spans[..|spans| - 1]), spans[|spans| - 1]);
    }
  }

  lemma MergedSpansRounded(spans: seq<Span>)
    requires forall s <- spans :: ValidSpan(s)
    ensures forall m <- MergedSpans(spans) :: Rounded(m)
  {
    SortHasSameElements(NormalizeEach(spans), SpanLe);
    forall s | s in SortBy(NormalizeEach(spans), SpanLe) ensures Rounded(s) {
      var i :| 0 <= i < |spans| && NormalizeEach(spans)[i] == s;
      assert spans[i] in spans;
      NormalizedIsRounded(spans[i]);
    }
    MergeAllRounded(SortBy(NormalizeEach(spans), SpanLe));
  }

  ghost predicate AllValid(spans: seq<Span>) { forall s <- spans :: ValidSpan(s) }

  lemma PaddedCoverage(merged: seq<Span>, context: real, m: Span)
    requires context >= 0.0 && m in merged && Rounded(m) && AllValid(PadEach(merged, context))
    ensures exists f <- MergedSpans(PadEach(merged, context)) :: Within(m, f)
  {
    var padded := PadEach(merged, context);
    var k :| 0 <= k < |merged| && merged[k] == m;
    PadCovers(m, context);
    MergedSpansMerge(padded);
    assert NormalizeEach(padded)[k] in NormalizeEach(padded);
    var f :| f in MergedSpans(padded) && Within(NormalizeEach(padded)[k], f);
    assert Within(m, f);
  }

  lemma CoveredThrough(parts: seq<Span>, middle: seq<Span>, cover: seq<Span>)
    requires Covered(parts, middle) && Covered(middle, cover)
    ensures Covered(parts, cover)
  {
    forall p | p in parts ensures exists f <- cover :: Within(p, f) {
      var m :| m in middle && Within(p, m);
      var f :| f in cover && Within(m, f);
      assert Within(p, f);
    }
  }

  lemma PaddingCovers(merged: seq<Span>, context: real)
    requires context >= 0.0 && (forall m <- merged :: Rounded(m)) && AllValid(PadEach(merged, context))
    ensures Covered(merged, MergedSpans(PadEach(merged, context)))
  {
    forall m | m in merged ensures exists f <- MergedSpans(PadEach(merged, context)) :: Within(m, f) {
      PaddedCoverage(merged, context, m);
    }
  }

  /** The footprint covers every selected span, as rounded to microseconds. */
  lemma FootprintCovers(spans: seq<Span>, context: real)
    requires context >= 0.0 && AllValid(spans) && AllValid(PadEach(MergedSpans(spans), context))
    ensures Covered(NormalizeEach(spans), Footprint(spans, context))
  {
    MergedSpansMerge(spans);
    MergedSpansRounded(spans);
    PaddingCovers(MergedSpans(spans), context);
    CoveredThrough(NormalizeEach(spans), MergedSpans(spans), Footprint(spans, context));
  }

  lemma PadReach(m: Span, context: real, block: int, t: real)
    requires context >= 0.0 && Usable(m) && Reaches(Normalize(Pad(m, context)), block, t, EPSILON)
    ensures m.block == block && exists u: real :: InSpan(m, u) && u - context - 2.0 * EPSILON <= t <= u + context + 2.0 * EPSILON
  {
    Round6IsNear(Pad(m, context).start);
    Round6IsNear(Pad(m, context).end);
    var u := if t < m.start then m.start else if t > m.end then m.end else t;
    assert InSpan(m, u);
  }

  lemma BackedNearby(merged: seq<Span>, context: real, block: int, t: real)
    requires context >= 0.0 && (forall m <- merged :: Usable(m))
    requires Backed(NormalizeEach(PadEach(merged, context)), block, t, EPSILON)
    ensures exists m, u: real :: m in merged && m.block == block && InSpan(m, u)
              && u - context - 2.0 * EPSILON <= t <= u + context + 2.0 * EPSILON
  {
    var padded := NormalizeEach(PadEach(merged, context));
    var p :| p in padded && Reaches(p, block, t, EPSILON);
    var k :| 0 <= k < |padded| && padded[k] == p;
    assert merged[k] in merged;
    PadReach(merged[k], context, block, t);
  }

  /** The footprint reaches no farther than the context margin (and three microseconds) from a selected span. */
  lemma FootprintReach(spans: seq<Span>, context: real)
    requires context >= 0.0 && AllValid(spans) && AllValid(PadEach(MergedSpans(spans), context))
    ensures NoFarther(Footprint(spans, context), NormalizeEach(spans), context + 3.0 * EPSILON)
  {
    MergedSpansMerge(spans);
    var merged, parts := MergedSpans(spans), NormalizeEach(spans);
    MergedSpansMerge(PadEach(merged, context));
    forall f, t: real | f in Footprint(spans, context) && InSpan(f, t)
      ensures Backed(parts, f.block, t, context + 3.0 * EPSILON)
    {
      BackedNearby(merged, context, f.block, t);
      var m, u: real :| m in merged && m.block == f.block && InSpan(m, u)
        && u - context - 2.0 * EPSILON <= t <= u + context + 2.0 * EPSILON;
      assert Backed(parts, m.block, u, EPSILON);
      var p :| p in parts && Reaches(p, m.block, u, EPSILON);
      assert Reaches(p, f.block, t, context + 3.0 * EPSILON);
    }
  }

  // ---- frames ------------------------------------------------------------------------------

  /** The frames decoded of one span. */
  function SpanFrames(duration: real, fps: real): nat {
    if duration <= 0.0 || fps <= 0.0 then 0
    else if Ceiling(duration * fps - EPSILON) < 0 then 0 else Ceiling(duration * fps - EPSILON)
  }

  function Frames(spans: seq<Span>, fps: real): nat {
    if spans == [] then 0
    else Frames(spans[..|spans| - 1], fps) + SpanFrames(spans[|spans| - 1].end - spans[|spans| - 1].start, fps)
  }

  function Seconds(spans: seq<Span>): real {
    if spans == [] then 0.0
    else Seconds(spans[..|spans| - 1]) + (spans[|spans| - 1].end - spans[|spans| - 1].start)
  }

  /** A slower rate never needs more frames. */
  lemma {:induction false} FramesMonotone(spans: seq<Span>, slow: real, fast: real)
    requires 0.0 <= slow <= fast
    ensures Frames(spans, slow) <= Frames(spans, fast)
  {
    if spans != [] {
      var last := spans[|spans| - 1];
      FramesMonotone(spans[..|spans| - 1], slow, fast);
      SpanFramesMonotone(last.end - last.start, slow, fast);
    }
  }

  lemma SpanFramesMonotone(duration: real, slow: real, fast: real)
    requires 0.0 <= slow <= fast
    ensures SpanFrames(duration, slow) <= SpanFrames(duration, fast)
  {
    if duration > 0.0 {
      Times(duration, slow, fast);
    }
  }

  lemma Times(a: real, b: real, c: real)
    requires a > 0.0 && b <= c
    ensures a * b <= a * c
  {
    var d := a * (c - b);
    assert d >= 0.0 && d == a * c - a * b;
  }

  // ---- lowering the rate ----------------------------------------------------------------------

  function MaxReal(a: real, b: real): real { if a >= b then a else b }

  function Scaled(fps: real, frames: nat, budget: nat): real
    requires frames > 0
  {
    fps * (budget as real / frames as real)
  }

  /** One turn of the reduction: the rate scaled to the budget, in whole millionths, or the floor. */
  function LowerRate(fps: real, minFps: real, frames: nat, budget: nat): real
    requires frames > 0
  {
    var candidate := Floor6(MaxReal(minFps, Scaled(fps, frames, budget)));
    if candidate >= fps - EPSILON then minFps else candidate
  }

  lemma PositiveFactor(a: real, b: real)
    requires a * b > 0.0 && b > 0.0
    ensures a > 0.0
  {
  }

  lemma ScaledIsBelow(fps: real, frames: nat, budget: nat)
    requires fps > 0.0 && 0 < budget < frames
    ensures Scaled(fps, frames, budget) < fps
  {
    var f, b := frames as real, budget as real;
    var ratio := b / f;
    assert ratio * f == b;
    assert (1.0 - ratio) * f == f - b;
    PositiveFactor(1.0 - ratio, f);
    assert fps * (1.0 - ratio) > 0.0;
    assert fps * (1.0 - ratio) == fps - fps * ratio;
  }

  /** Every turn lowers the rate, but not below the floor rounded down to whole millionths. */
  lemma RateFalls(fps: real, minFps: real, frames: nat, budget: nat)
    requires fps > minFps + EPSILON && minFps > 0.0 && 0 < budget < frames
    ensures Floor6(minFps) <= LowerRate(fps, minFps, frames, budget) < fps - EPSILON
    ensures LowerRate(fps, minFps, frames, budget) >= minFps
            || LowerRate(fps, minFps, frames, budget) == Floor6(minFps)
  {
    ScaledIsBelow(fps, frames, budget);
    var scaled := Scaled(fps, frames, budget);
    var candidate := Floor6(MaxReal(minFps, scaled));
    Floor6IsMonotone(minFps, MaxReal(minFps, scaled));
    Floor6IsBelow(minFps);
    if candidate < minFps {
      FloorCell(minFps, MaxReal(minFps, scaled));
    }
  }

  lemma FloorCell(a: real, b: real)
    requires a <= b && Floor6(b) < a
    ensures Floor6(b) == Floor6(a)
  {
    var m, n := (a * MILLION).Floor, (b * MILLION).Floor;
    assert (m as real) <= a * MILLION < m as real + 1.0;
    assert n as real < a * MILLION by {
      assert Floor6(b) * MILLION == n as real;
    }
    assert m <= n;
    assert n < m + 1;
  }

  /** The rates tried, each lower than the one before. */
  ghost predicate Falling(rates: seq<real>) {
    forall i | 0 < i < |rates| :: rates[i] < rates[i - 1] - EPSILON
  }

  /** A rate the reduction may end with: at least the floor, or the floor cut down to whole millionths. */
  predicate Allowed(fps: real, analysisFps: real, minFps: real) {
    fps <= analysisFps && (fps == analysisFps || fps >= minFps || fps == Floor6(minFps))
  }

  /** The rate after at most `turns` reductions. */
  function RateAfter(footprint: seq<Span>, fps: real, minFps: real, budget: nat, turns: nat): real
    decreases turns
  {
    if Frames(footprint, fps) > budget && fps > minFps + EPSILON && turns > 0 then
      RateAfter(footprint, LowerRate(fps, minFps, Frames(footprint, fps), budget), minFps, budget, turns - 1)
    else fps
  }

  /** The rate the reduction of a footprint ends with. */
  function FinalRate(footprint: seq<Span>, analysisFps: real, minFps: real, budget: nat): real {
    RateAfter(footprint, analysisFps, minFps, budget, MAX_REDUCTIONS)
  }

  method ReduceRate(footprint: seq<Span>, analysisFps: real, minFps: real, budget: nat)
    returns (r: Result<real, Refusal>, ghost rates: seq<real>)
    requires analysisFps > 0.0 && minFps > 0.0 && budget > 0 && Frames(footprint, analysisFps) > budget
    ensures var last := FinalRate(footprint, analysisFps, minFps, budget);
      r == if Frames(footprint, last) > budget then Err(ScopeExceeded) else Ok(last)
    ensures rates != [] && rates[0] == analysisFps && Falling(rates) && |rates| <= MAX_REDUCTIONS + 1
    ensures r.Ok? ==> r.value == rates[|rates| - 1] && Frames(footprint, r.value) <= budget
                      && (r.value >= minFps || r.value == Floor6(minFps)) && r.value < analysisFps
    ensures r.Err? ==> Frames(footprint, rates[|rates| - 1]) > budget
                       && (rates[|rates| - 1] <= minFps + EPSILON || |rates| == MAX_REDUCTIONS + 1)
  {
    var fps := analysisFps;
    var frames := Frames(footprint, fps);
    var iterations := 0;
    rates := [fps];
    while frames > budget && fps > minFps + EPSILON && iterations < MAX_REDUCTIONS
      invariant frames == Frames(footprint, fps)
      invariant 0 <= iterations == |rates| - 1 <= MAX_REDUCTIONS
      invariant RateAfter(footprint, fps, minFps, budget, MAX_REDUCTIONS - iterations)
             == FinalRate(footprint, analysisFps, minFps, budget)
      invariant rates[0] == analysisFps && rates[|rates| - 1] == fps && Falling(rates)
      invariant iterations == 0 ==> fps == analysisFps
      invariant iterations > 0 ==> fps < analysisFps && (fps >= minFps || fps == Floor6(minFps))
      decreases MAX_REDUCTIONS - iterations
    {
      RateFalls(fps, minFps, frames, budget);
      fps := LowerRate(fps, minFps, frames, budget);
      frames := Frames(footprint, fps);
      rates := rates + [fps];
      iterations := iterations + 1;
    }
    if frames > budget {
      return Err(ScopeExceeded), rates;
    }
    return Ok(fps), rates;
  }

  datatype Plan = Plan(fps: real, spans: seq<Span>, selectedSeconds: real, contextSeconds: real, frames: nat, reduced: bool)

  /** The arguments the planner refuses outright. */
  predicate BadArguments(analysisFps: real, minFps: real, maxSeconds: real, budget: int) {
    analysisFps <= 0.0 || minFps <= 0.0 || maxSeconds < 0.0 || budget <= 0
  }

  /** The plan of a footprint, at the analysis rate if it fits the budget there, else at the reduced one. */
  function FittedPlan(footprint: seq<Span>, seconds: real, analysisFps: real, minFps: real, budget: nat)
    : Result<Plan, Refusal>
  {
    var reduced := Frames(footprint, analysisFps) > budget;
    var fps := if reduced then FinalRate(footprint, analysisFps, minFps, budget) else analysisFps;
    if Frames(footprint, fps) > budget then Err(ScopeExceeded)
    else Ok(Plan(fps, footprint, Round6(seconds), Round6(MaxReal(0.0, Seconds(footprint) - seconds)),
                 Frames(footprint, fps), reduced))
  }

  /** The first reason to refuse, if there is one before the frames are counted. */
  ghost function RefusalOf(spans: seq<Span>, analysisFps: real, maxSeconds: real, budget: int, minFps: real, context: real)
    : Option<Refusal>
  {
    if BadArguments(analysisFps, minFps, maxSeconds, budget) then Some(InvalidArgument)
    else if !AllValid(spans) then Some(InvalidSpan)
    else if Seconds(MergedSpans(spans)) > maxSeconds + EPSILON then Some(ScopeExceeded)
    else if context < 0.0 then Some(InvalidArgument)
    else if !AllValid(PadEach(MergedSpans(spans), context)) then Some(InvalidSpan)
    else None
  }

  /** What the planner answers. */
  ghost function PlanOf(spans: seq<Span>, analysisFps: real, maxSeconds: real, budget: int, minFps: real, context: real)
    : Result<Plan, Refusal>
  {
    var refusal := RefusalOf(spans, analysisFps, maxSeconds, budget, minFps, context);
    if refusal.Some? then Err(refusal.value)
    else FittedPlan(Footprint(spans, context), Seconds(MergedSpans(spans)), analysisFps, minFps, budget)
  }

  /** A plan covers every span, reaches no farther than the margin, fits the budget, and keeps to an allowed rate. */
  ghost predicate GoodPlan(p: Plan, spans: seq<Span>, analysisFps: real, budget: int, minFps: real, context: real) {
    && Pairwise(p.spans, Ahead) && Covered(NormalizeEach(spans), p.spans)
    && NoFarther(p.spans, NormalizeEach(spans), context + 3.0 * EPSILON)
    && p.frames == Frames(p.spans, p.fps) <= budget
    && Allowed(p.fps, analysisFps, minFps)
    && (!p.reduced ==> p.fps == analysisFps)
  }

  /**
   The decode plan: the merged, padded footprint and a rate at which it fits the frame budget, or the
   first refusal.
   */
  method PlanAnalysis(spans: seq<Span>, analysisFps: real, maxSeconds: real, budget: int, minFps: real, context: real)
    returns (r: Result<Plan, Refusal>)
    ensures r == PlanOf(spans, analysisFps, maxSeconds, budget, minFps, context)
    ensures r.Ok? ==> GoodPlan(r.value, spans, analysisFps, budget, minFps, context)
  {
    if BadArguments(analysisFps, minFps, maxSeconds, budget) {
      return Err(InvalidArgument);
    }
    var selected := MergeSpans(spans);
    if selected.Err? {
      return Err(selected.error);
    }
    var seconds := Seconds(selected.value);
    if seconds > maxSeconds + EPSILON {
      return Err(ScopeExceeded);
    }
    var expanded := ExpandSpans(selected.value, context);
    if expanded.Err? {
      return Err(expanded.error);
    }
    var footprint := expanded.value;
    FootprintCovers(spans, context);
    FootprintReach(spans, context);
    MergedSpansMerge(PadEach(selected.value, context));
    r := FitRate(footprint, seconds, analysisFps, minFps, budget);
  }

  /** The rate for a footprint, and the plan it completes. */
  method FitRate(footprint: seq<Span>, seconds: real, analysisFps: real, minFps: real, budget: nat)
    returns (r: Result<Plan, Refusal>)
    requires analysisFps > 0.0 && minFps > 0.0 && budget > 0
    ensures r == FittedPlan(footprint, seconds, analysisFps, minFps, budget)
    ensures r.Ok? ==> Allowed(r.value.fps, analysisFps, minFps) && r.value.frames <= budget
    ensures r.Ok? ==> (!r.value.reduced ==> r.value.fps == analysisFps)
  {
    var context := Round6(MaxReal(0.0, Seconds(footprint) - seconds));
    var frames := Frames(footprint, analysisFps);
    if frames <= budget {
      return Ok(Plan(analysisFps, footprint, Round6(seconds), context, frames, false));
    }
    var fitted, _ := ReduceRate(footprint, analysisFps, minFps, budget);
    if fitted.Err? {
      return Err(fitted.error);
    }
    return Ok(Plan(fitted.value, footprint, Round6(seconds), context, Frames(footprint, fitted.value), true));
  }
}
