/** What becomes of the floor `min_fps` of the frame rate, and when a plan is refused. */
module AnalysisFloor {
  import opened AnalysisPlan
  import opened AnalysisSpans
  import opened Rounding
  import opened Sorting
  import opened Wrappers

  // ---- footprints that are their spans ---------------------------------------------------------

  /** A span of positive length between whole microseconds. */
  predicate Clean(s: Span) { s.start < s.end && Rounded(s) }

  ghost predicate CleanSpans(spans: seq<Span>) { Pairwise(spans, Ahead) && forall s <- spans :: Clean(s) }

  lemma {:induction false} AheadStaysApart(spans: seq<Span>)
    requires CleanSpans(spans)
    ensures MergeAll(spans) == spans
  {
    if spans != [] {
      var front, s := spans[..|spans| - 1], spans[|spans| - 1];
      AheadStaysApart(front);
      if front != [] {
        assert Ahead(spans[|spans| - 2], spans[|spans| - 1]);
      }
      assert spans == front + [s];
    }
  }

  lemma MergedIsItself(spans: seq<Span>)
    requires CleanSpans(spans)
    ensures MergedSpans(spans) == spans && AllValid(spans)
  {
    assert NormalizeEach(spans) == spans by {
      forall i | 0 <= i < |spans| ensures Normalize(spans[i]) == spans[i] {
        assert spans[i] in spans;
      }
    }
    forall i, k | 0 <= i < k < |spans| ensures SpanLe(spans[i], spans[k]) {
      assert Ahead(spans[i], spans[k]) && spans[i] in spans;
    }
    SortedIsUnchanged(spans, SpanLe);
    AheadStaysApart(spans);
  }

  /** Clean spans far enough apart are their own footprint. */
  lemma FootprintIsItself(spans: seq<Span>)
    requires CleanSpans(spans)
    ensures Footprint(spans, 0.0) == spans && MergedSpans(spans) == spans
    ensures AllValid(spans) && AllValid(PadEach(spans, 0.0))
  {
    MergedIsItself(spans);
    assert PadEach(spans, 0.0) == spans by {
      forall i | 0 <= i < |spans| ensures Pad(spans[i], 0.0) == spans[i] {
        assert spans[i] in spans;
      }
    }
  }

  lemma PlanOfClean(spans: seq<Span>, analysisFps: real, budget: int, minFps: real)
    requires CleanSpans(spans) && analysisFps > 0.0 && minFps > 0.0 && budget > 0 && Seconds(spans) >= 0.0
    ensures PlanOf(spans, analysisFps, Seconds(spans), budget, minFps, 0.0)
         == FittedPlan(spans, Seconds(spans), analysisFps, minFps, budget)
  {
    FootprintIsItself(spans);
  }

  lemma MicrosRound(n: int)
    ensures Round6(n as real / MILLION) == n as real / MILLION
  {
    assert n as real / MILLION * MILLION == n as real;
    RoundWhole(n);
  }

  /** One span of whole seconds, from the start of the source. */
  function SecondsSpan(length: nat): seq<Span> { [Span(0, 0.0, length as real)] }

  lemma SecondsSpanIsClean(length: nat)
    requires length > 0
    ensures CleanSpans(SecondsSpan(length)) && Seconds(SecondsSpan(length)) == length as real
  {
    MicrosRound(0);
    MicrosRound(length * 1000000);
    assert (length * 1000000) as real / MILLION == length as real;
    var s := SecondsSpan(length);
    assert s[..0] == [];
  }

  lemma OneSpanFrames(s: Span, fps: real)
    ensures Frames([s], fps) == SpanFrames(s.end - s.start, fps)
  {
    assert [s][..0] == [];
  }

  // ---- the floor ---------------------------------------------------------------------------------

  lemma {:induction false} RateKeepsFloor(footprint: seq<Span>, fps: real, minFps: real, budget: nat, turns: nat)
    requires WholeMillionths(minFps) && minFps > 0.0 && budget > 0 && fps >= minFps
    ensures RateAfter(footprint, fps, minFps, budget, turns) >= minFps
    decreases turns
  {
    if Frames(footprint, fps) > budget && fps > minFps + EPSILON && turns > 0 {
      RateFalls(fps, minFps, Frames(footprint, fps), budget);
      RateKeepsFloor(footprint, LowerRate(fps, minFps, Frames(footprint, fps), budget), minFps, budget, turns - 1);
    }
  }

  lemma PlanKeepsFloor(spans: seq<Span>, analysisFps: real, maxSeconds: real, budget: int, minFps: real, context: real)
    requires minFps > 0.0 && analysisFps >= minFps && (WholeMillionths(minFps) || analysisFps <= minFps + EPSILON)
    ensures var r := PlanOf(spans, analysisFps, maxSeconds, budget, minFps, context); r.Ok? ==> r.value.fps >= minFps
  {
    var r := PlanOf(spans, analysisFps, maxSeconds, budget, minFps, context);
    if r.Ok? && WholeMillionths(minFps) {
      RateKeepsFloor(Footprint(spans, context), analysisFps, minFps, budget, MAX_REDUCTIONS);
    }
  }

  lemma Archimedes(g: real, c: real) returns (k: nat)
    requires g > 0.0
    ensures k > 0 && k as real * g >= c
  {
    if c <= 0.0 {
      k := 1;
    } else {
      k := (c / g).Floor + 1;
      var d := k as real - c / g;
      assert c / g * g == c;
      assert d * g >= 0.0 && d * g == k as real * g - c;
    }
  }

  /** A length and a budget at which the first turn asks for no more than the floor, which would fit cut down. */
  ghost predicate Tempting(length: nat, budget: nat, analysisFps: real, minFps: real) {
    && length > 0 && budget > 0
    && (length as real * analysisFps - EPSILON) * minFps >= analysisFps * budget as real
    && SpanFrames(length as real, Floor6(minFps)) <= budget
  }

  lemma TemptingExists(analysisFps: real, minFps: real) returns (length: nat, budget: nat)
    requires minFps > 0.0 && analysisFps > minFps + EPSILON && !WholeMillionths(minFps)
    ensures Tempting(length, budget, analysisFps, minFps)
  {
    var n := (minFps * MILLION).Floor;
    if n == 0 {
      length := Archimedes(analysisFps * minFps, analysisFps + EPSILON * minFps);
      budget := 1;
      assert (length as real * analysisFps - EPSILON) * minFps == length as real * (analysisFps * minFps) - EPSILON * minFps;
    } else {
      var excess := minFps * MILLION - n as real;
      var k := Archimedes(analysisFps * excess, EPSILON * minFps);
      length, budget := 1000000 * k, n * k;
      TemptingLength(k, n, excess, analysisFps, minFps);
      assert length as real * Floor6(minFps) == budget as real;
    }
  }

  lemma TemptingLength(k: nat, n: nat, excess: real, analysisFps: real, minFps: real)
    requires excess == minFps * MILLION - n as real && k as real * (analysisFps * excess) >= EPSILON * minFps
    ensures ((1000000 * k) as real * analysisFps - EPSILON) * minFps >= analysisFps * (n * k) as real
  {
    var K, N := k as real, n as real;
    assert (1000000 * k) as real == MILLION * K && (n * k) as real == N * K;
    calc {
      (MILLION * K * analysisFps - EPSILON) * minFps - analysisFps * (N * K);
      K * analysisFps * (minFps * MILLION) - K * analysisFps * N - EPSILON * minFps;
      K * (analysisFps * excess) - EPSILON * minFps;
    }
  }

  lemma ScaledToTheFloor(fps: real, frames: nat, budget: nat, minFps: real)
    requires frames > 0 && frames as real * minFps >= fps * budget as real
    ensures Scaled(fps, frames, budget) <= minFps
  {
    var f, b := frames as real, budget as real;
    var ratio := b / f;
    assert ratio * f == b;
    assert fps * b == fps * ratio * f;
    assert (minFps - fps * ratio) * f >= 0.0;
    NonnegativeFactor(minFps - fps * ratio, f);
  }

  lemma NonnegativeFactor(a: real, b: real)
    requires a * b >= 0.0 && b > 0.0
    ensures a >= 0.0
  {
  }

  lemma Outweighs(asked: real, b: real, a: real, m: real)
    requires a > m > 0.0 && b > 0.0 && asked * m >= a * b
    ensures asked > b
  {
    assert (a - m) * b > 0.0;
    assert (a - m) * b == a * b - m * b;
    assert (asked - b) * m == asked * m - m * b;
    PositiveFactor(asked - b, m);
  }

  lemma FramesAtLeast(duration: real, fps: real)
    requires duration > 0.0 && fps > 0.0
    ensures duration * fps - EPSILON <= SpanFrames(duration, fps) as real
  {
    var asked := duration * fps - EPSILON;
    assert asked <= Ceiling(asked) as real;
  }

  lemma TemptingFrames(length: nat, budget: nat, analysisFps: real, minFps: real)
    requires minFps > 0.0 && analysisFps > minFps && Tempting(length, budget, analysisFps, minFps)
    ensures SpanFrames(length as real, analysisFps) > budget
    ensures SpanFrames(length as real, analysisFps) as real * minFps >= analysisFps * budget as real
  {
    FramesAtLeast(length as real, analysisFps);
    var f := SpanFrames(length as real, analysisFps) as real;
    Times(minFps, length as real * analysisFps - EPSILON, f);
    Outweighs(f, budget as real, analysisFps, minFps);
  }

  /** A turn that asks for no more than the floor yields the floor cut down to whole millionths. */
  lemma TurnToCutFloor(analysisFps: real, minFps: real, frames: nat, budget: nat)
    requires frames > 0 && analysisFps > minFps + EPSILON && frames as real * minFps >= analysisFps * budget as real
    ensures LowerRate(analysisFps, minFps, frames, budget) == Floor6(minFps)
  {
    ScaledToTheFloor(analysisFps, frames, budget, minFps);
    Floor6IsBelow(minFps);
  }

  lemma TurnOnce(footprint: seq<Span>, analysisFps: real, minFps: real, budget: nat, lower: real)
    requires Frames(footprint, analysisFps) > budget && analysisFps > minFps + EPSILON
    requires lower == LowerRate(analysisFps, minFps, Frames(footprint, analysisFps), budget)
    requires Frames(footprint, lower) <= budget
    ensures FinalRate(footprint, analysisFps, minFps, budget) == lower
  {
  }

  /** The plan of clean spans that do not fit at the analysis rate. */
  lemma ReducedPlan(spans: seq<Span>, seconds: real, analysisFps: real, minFps: real, budget: nat, last: real)
    requires CleanSpans(spans) && seconds == Seconds(spans) >= 0.0 && analysisFps > 0.0 && minFps > 0.0 && budget > 0
    requires Frames(spans, analysisFps) > budget && last == FinalRate(spans, analysisFps, minFps, budget)
    ensures var r := PlanOf(spans, analysisFps, seconds, budget, minFps, 0.0);
      if Frames(spans, last) > budget then r == Err(ScopeExceeded)
      else r.Ok? && r.value.fps == last && r.value.frames == Frames(spans, last)
  {
    PlanOfClean(spans, analysisFps, budget, minFps);
  }

  lemma SecondsFrames(length: nat, fps: real)
    ensures Frames(SecondsSpan(length), fps) == SpanFrames(length as real, fps)
  {
    OneSpanFrames(Span(0, 0.0, length as real), fps);
  }

  /** Then the planner ends with the floor cut down to whole millionths. */
  lemma TemptedPlan(length: nat, budget: nat, analysisFps: real, minFps: real)
    requires minFps > 0.0 && analysisFps > minFps + EPSILON && Tempting(length, budget, analysisFps, minFps)
    ensures var r := PlanOf(SecondsSpan(length), analysisFps, length as real, budget, minFps, 0.0);
      r.Ok? && r.value.fps == Floor6(minFps)
  {
    SecondsSpanIsClean(length);
    SecondsFrames(length, analysisFps);
    SecondsFrames(length, Floor6(minFps));
    TemptingFrames(length, budget, analysisFps, minFps);
    TurnToCutFloor(analysisFps, minFps, SpanFrames(length as real, analysisFps), budget);
    TurnOnce(SecondsSpan(length), analysisFps, minFps, budget, Floor6(minFps));
    ReducedPlan(SecondsSpan(length), length as real, analysisFps, minFps, budget, Floor6(minFps));
  }

  /** No plan of these rates has a lower rate than the floor. */
  ghost predicate FloorKept(analysisFps: real, minFps: real) {
    forall spans, maxSeconds, budget, context ::
      var r := PlanOf(spans, analysisFps, maxSeconds, budget, minFps, context); r.Ok? ==> r.value.fps >= minFps
  }

  /**
   The floor is kept by every plan exactly when it is a whole number of millionths, or no more than a
   millionth below the analysis rate, which must not be below it.
   */
  lemma FloorIsKeptIff(analysisFps: real, minFps: real)
    requires analysisFps > 0.0 && minFps > 0.0
    ensures FloorKept(analysisFps, minFps)
       <==> analysisFps >= minFps && (WholeMillionths(minFps) || analysisFps <= minFps + EPSILON)
  {
    if analysisFps >= minFps && (WholeMillionths(minFps) || analysisFps <= minFps + EPSILON) {
      forall spans, maxSeconds, budget, context
        ensures var r := PlanOf(spans, analysisFps, maxSeconds, budget, minFps, context); r.Ok? ==> r.value.fps >= minFps
      {
        PlanKeepsFloor(spans, analysisFps, maxSeconds, budget, minFps, context);
      }
    } else if analysisFps < minFps {
      PlanOfClean([], analysisFps, 1, minFps);
      assert PlanOf([], analysisFps, 0.0, 1, minFps, 0.0).Ok?;
    } else {
      var length, budget := TemptingExists(analysisFps, minFps);
      TemptedPlan(length, budget, analysisFps, minFps);
      Floor6IsBelow(minFps);
      assert PlanOf(SecondsSpan(length), analysisFps, length as real, budget, minFps, 0.0).Ok?;
    }
  }

  /** One second, one frame, a floor of 1.0000005 frames a second: the plan has one frame a second. */
  lemma RateCanEndBelowFloor()
    ensures var r := PlanOf(SecondsSpan(1), 2.0, 1.0, 1, 1.0000005, 0.0);
      r.Ok? && r.value.fps == 1.0 < 1.0000005 && r.value.frames == 1
  {
    var m := 1.0000005;
    SecondsSpanIsClean(1);
    SecondsFrames(1, 2.0);
    SecondsFrames(1, 1.0);
    CutFloor();
    TurnToCutFloor(2.0, m, 2, 1);
    TurnOnce(SecondsSpan(1), 2.0, m, 1, 1.0);
    ReducedPlan(SecondsSpan(1), 1.0, 2.0, m, 1, 1.0);
  }

  lemma CutFloor()
    ensures Floor6(1.0000005) == 1.0
  {
    assert (1.0000005 * MILLION).Floor == 1000000;
  }
}
