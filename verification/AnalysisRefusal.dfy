/** When a footprint is refused, and whether the floor of the frame rate would have fitted it. */
module AnalysisRefusal {
  import opened AnalysisFloor
  import opened AnalysisPlan
  import opened AnalysisSpans
  import opened Rounding
  import opened Wrappers

  /** The turns end with a rate at which the footprint is still over the budget. */
  predicate Exceeds(footprint: seq<Span>, analysisFps: real, minFps: real, budget: nat) {
    Frames(footprint, FinalRate(footprint, analysisFps, minFps, budget)) > budget
  }

  /** A footprint that does not fit at a floor of whole millionths fits no rate the turns reach. */
  lemma FloorTooFastExceeds(footprint: seq<Span>, analysisFps: real, minFps: real, budget: nat)
    requires WholeMillionths(minFps) && minFps > 0.0 && budget > 0 && analysisFps >= minFps
    requires Frames(footprint, minFps) > budget
    ensures Exceeds(footprint, analysisFps, minFps, budget)
  {
    RateKeepsFloor(footprint, analysisFps, minFps, budget, MAX_REDUCTIONS);
    FramesMonotone(footprint, minFps, FinalRate(footprint, analysisFps, minFps, budget));
  }

  /** What exceeds the budget at a rate no higher than `rate` does not fit at `rate`. */
  lemma ExceedsAtOrBelow(footprint: seq<Span>, analysisFps: real, minFps: real, budget: nat, rate: real)
    requires 0.0 <= FinalRate(footprint, analysisFps, minFps, budget) <= rate
    requires Exceeds(footprint, analysisFps, minFps, budget)
    ensures Frames(footprint, rate) > budget
  {
    FramesMonotone(footprint, FinalRate(footprint, analysisFps, minFps, budget), rate);
  }

  // ---- how many frames a rate asks for -----------------------------------------------------------

  ghost predicate AllUsable(spans: seq<Span>) { forall s <- spans :: Usable(s) }

  function Share(seconds: real, fps: real): real { seconds * fps }

  lemma ShareAdds(a: real, b: real, fps: real)
    ensures Share(a + b, fps) == Share(a, fps) + Share(b, fps)
  {
  }

  lemma SpanShare(duration: real, fps: real)
    requires duration >= 0.0 && fps > 0.0
    ensures Share(duration, fps) - EPSILON <= SpanFrames(duration, fps) as real <= Share(duration, fps) + 1.0 - EPSILON
            || (duration == 0.0 && SpanFrames(duration, fps) == 0 && Share(duration, fps) == 0.0)
  {
    if duration > 0.0 {
      var asked := duration * fps - EPSILON;
      assert asked > -1.0 by {
        assert duration * fps > 0.0;
      }
      assert asked <= Ceiling(asked) as real < asked + 1.0;
    }
  }

  /** The frames of a footprint differ from its share of the rate by less than one frame a span. */
  lemma {:induction false} FramesShare(spans: seq<Span>, fps: real)
    requires AllUsable(spans) && fps > 0.0
    ensures Share(Seconds(spans), fps) - |spans| as real * EPSILON <= Frames(spans, fps) as real
    ensures Frames(spans, fps) as real <= Share(Seconds(spans), fps) + |spans| as real * (1.0 - EPSILON)
  {
    if spans != [] {
      var front, last := spans[..|spans| - 1], spans[|spans| - 1];
      assert last in spans;
      FramesShare(front, fps);
      SpanShare(last.end - last.start, fps);
      ShareAdds(Seconds(front), last.end - last.start, fps);
    }
  }

  lemma {:induction false} SecondsNonnegative(spans: seq<Span>)
    requires AllUsable(spans)
    ensures Seconds(spans) >= 0.0
  {
    if spans != [] {
      assert spans[|spans| - 1] in spans;
      SecondsNonnegative(spans[..|spans| - 1]);
    }
  }

  // ---- one turn ----------------------------------------------------------------------------------

  /** A turn asks for no more than the budget, but for the tolerance of the counts. */
  lemma ScaledShare(seconds: real, fps: real, frames: nat, budget: nat, slack: real)
    requires budget < frames && slack >= 0.0 && Share(seconds, fps) <= frames as real + slack
    ensures Share(seconds, Scaled(fps, frames, budget)) <= budget as real + slack
  {
    var ratio := budget as real / frames as real;
    assert ratio * frames as real == budget as real;
    RatioInUnit(budget, frames, ratio);
    assert (frames as real + slack - Share(seconds, fps)) * ratio >= 0.0;
    assert slack * ratio <= slack by {
      assert slack * (1.0 - ratio) >= 0.0;
    }
    calc {
      Share(seconds, Scaled(fps, frames, budget));
      seconds * (fps * ratio);
      Share(seconds, fps) * ratio;
    }
  }

  lemma RatioInUnit(budget: nat, frames: nat, ratio: real)
    requires budget < frames && ratio * frames as real == budget as real
    ensures 0.0 <= ratio <= 1.0
  {
    NonnegativeFactor(ratio, frames as real);
    assert (1.0 - ratio) * frames as real == frames as real - budget as real;
    NonnegativeFactor(1.0 - ratio, frames as real);
  }

  lemma ShareMonotone(seconds: real, slow: real, fast: real)
    requires seconds >= 0.0 && slow <= fast
    ensures Share(seconds, slow) <= Share(seconds, fast)
  {
    assert seconds * (fast - slow) >= 0.0;
  }

  /** The rate a turn yields: the floor, or a rate above it that is no more than the scaled one. */
  lemma TurnYields(fps: real, minFps: real, frames: nat, budget: nat)
    requires frames > 0
    ensures var lower := LowerRate(fps, minFps, frames, budget);
      lower <= minFps || lower <= Scaled(fps, frames, budget)
  {
    Floor6IsBelow(MaxReal(minFps, Scaled(fps, frames, budget)));
  }

  // ---- a single span -----------------------------------------------------------------------------

  lemma OneTurnFits(s: Span, fps: real, minFps: real, budget: nat)
    requires Usable(s) && 0.0 < minFps && fps > minFps + EPSILON && budget > 0 && WholeMillionths(minFps)
    requires Frames([s], minFps) <= budget < Frames([s], fps)
    ensures Frames([s], LowerRate(fps, minFps, Frames([s], fps), budget)) <= budget
  {
    var frames, duration := Frames([s], fps), s.end - s.start;
    var lower := LowerRate(fps, minFps, frames, budget);
    RateFalls(fps, minFps, frames, budget);
    TurnYields(fps, minFps, frames, budget);
    OneSpanFrames(s, lower);
    OneSpanFrames(s, minFps);
    OneSpanFrames(s, fps);
    if lower <= minFps {
      SpanFramesMonotone(duration, lower, minFps);
    } else {
      SpanShare(duration, fps);
      SpanShare(duration, lower);
      ScaledShare(duration, fps, frames, budget, EPSILON);
      ShareMonotone(duration, lower, Scaled(fps, frames, budget));
    }
  }

  /**
   One span exceeds the budget exactly when it does not fit at the floor; or at the analysis rate,
   when that is above the floor by no more than a millionth and so is never lowered.
   */
  lemma OneSpanExceedsIff(s: Span, analysisFps: real, minFps: real, budget: nat)
    requires Usable(s) && 0.0 < minFps <= analysisFps && budget > 0 && WholeMillionths(minFps)
    ensures Exceeds([s], analysisFps, minFps, budget)
       <==> Frames([s], if analysisFps > minFps + EPSILON then minFps else analysisFps) > budget
  {
    if analysisFps > minFps + EPSILON {
      if Frames([s], minFps) > budget {
        FloorTooFastExceeds([s], analysisFps, minFps, budget);
      } else if Frames([s], analysisFps) > budget {
        OneTurnFits(s, analysisFps, minFps, budget);
        TurnOnce([s], analysisFps, minFps, budget, LowerRate(analysisFps, minFps, Frames([s], analysisFps), budget));
      }
    }
  }

  // ---- several spans -----------------------------------------------------------------------------

  /** What one turn takes at least from a share that is still too large. */
  function Drop(spans: nat, budget: nat): real { (budget as real + 1.0 - spans as real) / (budget as real + 1.0) }

  /** The turns after the first one make up for the counting of every span's last frame. */
  predicate EnoughTurns(spans: nat, budget: nat) {
    spans as real - 1.0 + spans as real * EPSILON <= (MAX_REDUCTIONS - 1) as real * Drop(spans, budget)
  }

  /** Thirty-two spans, or fewer, and two frames a span are within that bound. */
  lemma FewSpansSuffice(spans: nat, budget: nat)
    requires spans <= 32 && 2 * spans <= budget + 1
    ensures EnoughTurns(spans, budget)
  {
    var b, drop := budget as real + 1.0, Drop(spans, budget);
    assert drop * b == b - spans as real;
    assert (drop - 0.5) * b == drop * b - 0.5 * b;
    NonnegativeFactor(drop - 0.5, b);
    assert spans as real - 1.0 + spans as real * EPSILON <= 31.5;
  }

  lemma NextShare(share: real, frames: nat, budget: nat, seconds: real, fps: real, spans: nat)
    requires share == Share(seconds, fps) > budget as real + 1.0 - spans as real && budget < frames && share >= 0.0
    ensures Share(seconds, Scaled(fps, frames, budget)) <= share - Drop(spans, budget)
  {
    var f, b := frames as real, budget as real + 1.0;
    var ratio := budget as real / f;
    assert ratio * f == budget as real;
    var unit := 1.0 / b;
    assert unit * b == 1.0 && unit > 0.0;
    // the ratio is at most budget / (budget + 1)
    assert ratio <= 1.0 - unit by {
      RatioBound(ratio, unit, budget, frames);
    }
    assert share * (1.0 - unit - ratio) >= 0.0;
    assert Share(seconds, Scaled(fps, frames, budget)) == share * ratio by {
      calc {
        Share(seconds, Scaled(fps, frames, budget));
        seconds * (fps * ratio);
        share * ratio;
      }
    }
    DropIsBelow(share, spans, budget, unit);
  }

  lemma RatioBound(ratio: real, unit: real, budget: nat, frames: nat)
    requires budget < frames && ratio * frames as real == budget as real && unit * (budget as real + 1.0) == 1.0 && unit > 0.0
    ensures ratio <= 1.0 - unit
  {
    var f := frames as real;
    assert (1.0 - unit - ratio) * f == f - unit * f - budget as real;
    var more := f - (budget as real + 1.0);
    assert more >= 0.0 && unit * f == unit * more + 1.0;
    assert (1.0 - unit) * more >= 0.0 by {
      assert unit <= 1.0;
    }
    NonnegativeFactor(1.0 - unit - ratio, f);
  }

  lemma DropIsBelow(share: real, spans: nat, budget: nat, unit: real)
    requires unit * (budget as real + 1.0) == 1.0 && unit > 0.0 && share > budget as real + 1.0 - spans as real
    ensures Drop(spans, budget) <= share * unit
  {
    var b := budget as real + 1.0;
    var least := b - spans as real;
    var drop := Drop(spans, budget);
    assert drop * b == least;
    assert least * unit == drop * (unit * b);
    assert (share - least) * unit >= 0.0;
    assert (share - least) * unit == share * unit - least * unit;
  }

  /** The share that `turns` turns can bring down until it fits. */
  function Within(spans: nat, budget: nat, turns: nat): real {
    budget as real + 1.0 - spans as real + turns as real * Drop(spans, budget)
  }

  lemma WithinStep(spans: nat, budget: nat, turns: nat)
    requires turns > 0
    ensures Within(spans, budget, turns) - Drop(spans, budget) == Within(spans, budget, turns - 1)
  {
    var d := Drop(spans, budget);
    assert turns as real * d == (turns - 1) as real * d + d;
  }

  lemma TooManyFrames(footprint: seq<Span>, fps: real, budget: nat)
    requires AllUsable(footprint) && fps > 0.0 && Frames(footprint, fps) > budget
    ensures footprint != [] && Share(Seconds(footprint), fps) > budget as real + 1.0 - |footprint| as real
    ensures Share(Seconds(footprint), fps) >= 0.0
  {
    FramesShare(footprint, fps);
    SecondsNonnegative(footprint);
    assert |footprint| as real * (1.0 - EPSILON) == |footprint| as real - |footprint| as real * EPSILON;
  }

  /** While turns remain for what is left of the share, the rate fits in the end or comes down to the floor. */
  lemma {:induction false} TurnsSuffice(footprint: seq<Span>, fps: real, minFps: real, budget: nat, turns: nat)
    requires AllUsable(footprint) && WholeMillionths(minFps) && 0.0 < minFps <= fps && budget > 0
    requires Share(Seconds(footprint), fps) <= Within(|footprint|, budget, turns)
    ensures var last := RateAfter(footprint, fps, minFps, budget, turns);
      Frames(footprint, last) <= budget || last <= minFps + EPSILON
    decreases turns
  {
    var n, share, frames := |footprint|, Share(Seconds(footprint), fps), Frames(footprint, fps);
    if frames > budget && fps > minFps + EPSILON {
      TooManyFrames(footprint, fps, budget);
      if turns > 0 {
        SecondsNonnegative(footprint);
        WithinStep(n, budget, turns);
        var lower := LowerRate(fps, minFps, frames, budget);
        RateFalls(fps, minFps, frames, budget);
        TurnYields(fps, minFps, frames, budget);
        if lower > minFps {
          NextShare(share, frames, budget, Seconds(footprint), fps, n);
          ShareMonotone(Seconds(footprint), lower, Scaled(fps, frames, budget));
          TurnsSuffice(footprint, lower, minFps, budget, turns - 1);
        }
      }
    }
  }

  /**
   With turns enough for its spans, a footprint that does not fit at the floor exceeds the budget, and
   one that exceeds it does not fit a millionth above the floor.
   */
  lemma FewSpansExceed(footprint: seq<Span>, analysisFps: real, minFps: real, budget: nat)
    requires AllUsable(footprint) && 0.0 < minFps <= analysisFps && budget > 0 && WholeMillionths(minFps)
    requires EnoughTurns(|footprint|, budget)
    ensures Frames(footprint, minFps) > budget ==> Exceeds(footprint, analysisFps, minFps, budget)
    ensures Exceeds(footprint, analysisFps, minFps, budget) ==> Frames(footprint, minFps + EPSILON) > budget
  {
    if Frames(footprint, minFps) > budget {
      FloorTooFastExceeds(footprint, analysisFps, minFps, budget);
    }
    if Exceeds(footprint, analysisFps, minFps, budget) {
      ExceedsNearTheFloor(footprint, analysisFps, minFps, budget);
      RateKeepsFloor(footprint, analysisFps, minFps, budget, MAX_REDUCTIONS);
      ExceedsAtOrBelow(footprint, analysisFps, minFps, budget, minFps + EPSILON);
    }
  }

  lemma ExceedsNearTheFloor(footprint: seq<Span>, analysisFps: real, minFps: real, budget: nat)
    requires AllUsable(footprint) && 0.0 < minFps <= analysisFps && budget > 0 && WholeMillionths(minFps)
    requires EnoughTurns(|footprint|, budget) && Exceeds(footprint, analysisFps, minFps, budget)
    ensures FinalRate(footprint, analysisFps, minFps, budget) <= minFps + EPSILON
  {
    hide Seconds, Share, Scaled, LowerRate;
    var n, seconds, frames := |footprint|, Seconds(footprint), Frames(footprint, analysisFps);
    if analysisFps > minFps + EPSILON {
      assert frames > budget;
      var lower := LowerRate(analysisFps, minFps, frames, budget);
      RateFalls(analysisFps, minFps, frames, budget);
      TurnYields(analysisFps, minFps, frames, budget);
      FirstTurn(footprint, analysisFps, minFps, budget);
      if lower > minFps {
        FramesShare(footprint, analysisFps);
        SecondsNonnegative(footprint);
        ScaledShare(seconds, analysisFps, frames, budget, n as real * EPSILON);
        ShareMonotone(seconds, lower, Scaled(analysisFps, frames, budget));
        TurnsSuffice(footprint, lower, minFps, budget, MAX_REDUCTIONS - 1);
      }
    }
  }

  lemma FirstTurn(footprint: seq<Span>, analysisFps: real, minFps: real, budget: nat)
    requires Frames(footprint, analysisFps) > budget && analysisFps > minFps + EPSILON
    ensures FinalRate(footprint, analysisFps, minFps, budget)
         == RateAfter(footprint, LowerRate(analysisFps, minFps, Frames(footprint, analysisFps), budget), minFps, budget,
                      MAX_REDUCTIONS - 1)
  {
  }

  // ---- what the planner answers --------------------------------------------------------------------

  /** The planner has no objection to its arguments and refuses for the frames alone. */
  ghost predicate Plannable(spans: seq<Span>, analysisFps: real, maxSeconds: real, budget: int, minFps: real, context: real) {
    RefusalOf(spans, analysisFps, maxSeconds, budget, minFps, context).None?
  }

  ghost predicate RefusedScope(spans: seq<Span>, analysisFps: real, maxSeconds: real, budget: int, minFps: real,
                               context: real)
  {
    PlanOf(spans, analysisFps, maxSeconds, budget, minFps, context) == Err(ScopeExceeded)
  }

  lemma FittedRefusedIff(footprint: seq<Span>, seconds: real, analysisFps: real, minFps: real, budget: nat)
    ensures FittedPlan(footprint, seconds, analysisFps, minFps, budget) == Err(ScopeExceeded)
       <==> Exceeds(footprint, analysisFps, minFps, budget)
  {
    hide Frames, Seconds, Round6, LowerRate;
  }

  lemma PlanRefusedIff(spans: seq<Span>, analysisFps: real, maxSeconds: real, budget: int, minFps: real, context: real)
    requires Plannable(spans, analysisFps, maxSeconds, budget, minFps, context)
    ensures analysisFps > 0.0 && minFps > 0.0 && budget > 0 && AllUsable(Footprint(spans, context))
    ensures RefusedScope(spans, analysisFps, maxSeconds, budget, minFps, context)
       <==> Exceeds(Footprint(spans, context), analysisFps, minFps, budget)
  {
    MergedSpansMerge(PadEach(MergedSpans(spans), context));
    hide FittedPlan, Exceeds, MergedSpans, PadEach, Seconds, NormalizeEach;
    FittedRefusedIff(Footprint(spans, context), Seconds(MergedSpans(spans)), analysisFps, minFps, budget);
  }

  /** If even the floor cannot fit the budget, the plan is refused. */
  lemma FloorTooFastIsRefused(spans: seq<Span>, analysisFps: real, maxSeconds: real, budget: int, minFps: real, context: real)
    requires Plannable(spans, analysisFps, maxSeconds, budget, minFps, context)
    requires WholeMillionths(minFps) && minFps <= analysisFps && Frames(Footprint(spans, context), minFps) > budget
    ensures RefusedScope(spans, analysisFps, maxSeconds, budget, minFps, context)
  {
    PlanRefusedIff(spans, analysisFps, maxSeconds, budget, minFps, context);
    FloorTooFastExceeds(Footprint(spans, context), analysisFps, minFps, budget);
  }

  /**
   A plan whose footprint is one span is refused exactly when that does not fit at the floor; or at the
   analysis rate, when that is above the floor by no more than a millionth.
   */
  lemma OneSpanRefusedIff(spans: seq<Span>, analysisFps: real, maxSeconds: real, budget: int, minFps: real, context: real)
    requires Plannable(spans, analysisFps, maxSeconds, budget, minFps, context)
    requires WholeMillionths(minFps) && minFps <= analysisFps && |Footprint(spans, context)| == 1
    ensures RefusedScope(spans, analysisFps, maxSeconds, budget, minFps, context)
       <==> Frames(Footprint(spans, context), if analysisFps > minFps + EPSILON then minFps else analysisFps) > budget
  {
    PlanRefusedIff(spans, analysisFps, maxSeconds, budget, minFps, context);
    var footprint := Footprint(spans, context);
    assert footprint == [footprint[0]] && footprint[0] in footprint;
    OneSpanExceedsIff(footprint[0], analysisFps, minFps, budget);
  }

  /**
   With turns enough for its spans, a plan that does not fit at the floor is refused, and one that is
   refused does not fit a millionth above the floor.  Where these two agree the documented rule holds.
   */
  lemma FewSpansRefused(spans: seq<Span>, analysisFps: real, maxSeconds: real, budget: int, minFps: real, context: real)
    requires Plannable(spans, analysisFps, maxSeconds, budget, minFps, context)
    requires WholeMillionths(minFps) && minFps <= analysisFps
    requires budget >= 0 && EnoughTurns(|Footprint(spans, context)|, budget)
    ensures var footprint := Footprint(spans, context);
      var refused := RefusedScope(spans, analysisFps, maxSeconds, budget, minFps, context);
      && (Frames(footprint, minFps) > budget ==> refused)
      && (refused ==> Frames(footprint, minFps + EPSILON) > budget)
      && (Frames(footprint, minFps) > budget || Frames(footprint, minFps + EPSILON) <= budget ==>
            (refused <==> Frames(footprint, minFps) > budget))
  {
    PlanRefusedIff(spans, analysisFps, maxSeconds, budget, minFps, context);
    FewSpansExceed(Footprint(spans, context), analysisFps, minFps, budget);
  }

  // ---- two spans ---------------------------------------------------------------------------------

  function TwoSpans(): seq<Span> { [Span(0, 0.0, 3.0), Span(1, 0.0, 3.0)] }

  lemma TwoSpansAreClean()
    ensures CleanSpans(TwoSpans()) && Seconds(TwoSpans()) == 6.0
  {
    MicrosRound(0);
    MicrosRound(3000000);
    assert 3000000 as real / MILLION == 3.0;
    var s := TwoSpans();
    assert s[..1] == [s[0]] && s[..1][..0] == [];
  }

  lemma FramesSnoc(spans: seq<Span>, s: Span, fps: real)
    ensures Frames(spans + [s], fps) == Frames(spans, fps) + SpanFrames(s.end - s.start, fps)
  {
    assert (spans + [s])[..|spans|] == spans;
  }

  lemma TwoSpansFrames(fps: real)
    ensures Frames(TwoSpans(), fps) == 2 * SpanFrames(3.0, fps)
  {
    OneSpanFrames(Span(0, 0.0, 3.0), fps);
    FramesSnoc([Span(0, 0.0, 3.0)], Span(1, 0.0, 3.0), fps);
    assert TwoSpans() == [Span(0, 0.0, 3.0)] + [Span(1, 0.0, 3.0)];
  }

  /** The one turn of two spans: seven frames for eight, from a rate that leaves the floor by a millionth. */
  lemma TwoSpansTurn()
    ensures LowerRate(1.142859, 1.0, 8, 7) == 1.000001
  {
    assert Scaled(1.142859, 8, 7) == 1.000001625;
    assert (1.000001625 * MILLION).Floor == 1000001;
  }

  /**
   So no bound on the number of spans alone makes the rule exact: two spans of three seconds, with six
   frames at the floor and a budget of seven, are refused, since the rate stops a millionth above the floor.
   */
  lemma TwoSpansRefusedThoughFloorFits()
    ensures PlanOf(TwoSpans(), 1.142859, 6.0, 7, 1.0, 0.0) == Err(ScopeExceeded)
    ensures Footprint(TwoSpans(), 0.0) == TwoSpans() && Frames(TwoSpans(), 1.0) == 6
    ensures EnoughTurns(|TwoSpans()|, 7)
  {
    TwoSpansAreClean();
    FootprintIsItself(TwoSpans());
    ThreeSeconds();
    TwoSpansFrames(1.142859);
    TwoSpansFrames(1.000001);
    TwoSpansFrames(1.0);
    TwoSpansTurn();
    FirstTurn(TwoSpans(), 1.142859, 1.0, 7);
    FewSpansSuffice(2, 7);
    ReducedPlan(TwoSpans(), 6.0, 1.142859, 1.0, 7, 1.000001);
  }

  lemma ThreeSeconds()
    ensures SpanFrames(3.0, 1.142859) == 4 && SpanFrames(3.0, 1.000001) == 4 && SpanFrames(3.0, 1.0) == 3
  {
    assert Ceiling(3.428576) == 4 && Ceiling(3.000002) == 4 && Ceiling(2.999999) == 3;
  }

  // ---- too few turns -----------------------------------------------------------------------------

  /** `n` spans of a tenth of a second, then one of a second, each two seconds after the one before. */
  function Shreds(n: nat): seq<Span> { ShortSpans(n) + [Span(0, 2.0 * n as real, 2.0 * n as real + 1.0)] }

  function ShortSpans(n: nat): seq<Span> {
    if n == 0 then [] else ShortSpans(n - 1) + [Span(0, 2.0 * (n - 1) as real, 2.0 * (n - 1) as real + 0.1)]
  }

  lemma {:induction false} ShortFrames(n: nat, fps: real)
    requires 1.0 <= fps <= 2.0
    ensures Frames(ShortSpans(n), fps) == n
  {
    if n > 0 {
      ShortFrames(n - 1, fps);
      var s := ShortSpans(n);
      assert s[..|s| - 1] == ShortSpans(n - 1);
      var last := s[|s| - 1];
      assert last.end - last.start == 0.1;
      assert -1.0 < -(0.1 * fps - EPSILON) < 0.0;
    }
  }

  lemma ShredFrames(n: nat, fps: real)
    requires 1.0 <= fps <= 2.0
    ensures Frames(Shreds(n), fps) == n + if fps <= 1.0 + EPSILON then 1 else 2
  {
    ShortFrames(n, fps);
    OneSecond(fps);
    FramesSnoc(ShortSpans(n), Span(0, 2.0 * n as real, 2.0 * n as real + 1.0), fps);
  }

  lemma OneSecond(fps: real)
    requires 1.0 <= fps <= 2.0
    ensures SpanFrames(1.0, fps) == if fps <= 1.0 + EPSILON then 1 else 2
  {
    assert 1.0 * fps == fps;
    if fps <= 1.0 + EPSILON {
      assert -1.0 <= -(fps - EPSILON) < 0.0;
    } else {
      assert -2.0 < -(fps - EPSILON) < -1.0;
    }
  }

  const SHREDS: nat := 9999

  lemma SlowStep(fps: real)
    requires 1.5 <= fps <= 2.0
    ensures fps - 0.001 <= LowerRate(fps, 1.0, SHREDS + 2, SHREDS + 1) <= fps
  {
    var scaled := Scaled(fps, SHREDS + 2, SHREDS + 1);
    assert scaled == fps * (10000.0 / 10001.0);
    assert fps - 0.0002 <= scaled < fps - 0.0001;
    Floor6IsBelow(scaled);
  }

  lemma {:induction false} SlowDescent(fps: real, turns: nat)
    requires turns <= MAX_REDUCTIONS && 1.5 + 0.001 * turns as real <= fps <= 2.0
    ensures 1.5 <= RateAfter(Shreds(SHREDS), fps, 1.0, SHREDS + 1, turns) <= 2.0
    decreases turns
  {
    ShredFrames(SHREDS, fps);
    if turns > 0 {
      SlowStep(fps);
      SlowDescent(LowerRate(fps, 1.0, SHREDS + 2, SHREDS + 1), turns - 1);
    }
  }

  lemma TenthsAreRounded(n: nat)
    ensures Clean(Span(0, 2.0 * n as real, 2.0 * n as real + 0.1)) && Clean(Span(0, 2.0 * n as real, 2.0 * n as real + 1.0))
  {
    MicrosRound(2000000 * n);
    MicrosRound(2000000 * n + 100000);
    MicrosRound(2000000 * n + 1000000);
    assert (2000000 * n) as real / MILLION == 2.0 * n as real;
    assert (2000000 * n + 100000) as real / MILLION == 2.0 * n as real + 0.1;
    assert (2000000 * n + 1000000) as real / MILLION == 2.0 * n as real + 1.0;
  }

  /** Clean spans of one block that end before `limit`. */
  ghost predicate EndBefore(spans: seq<Span>, limit: real) {
    CleanSpans(spans) && forall s <- spans :: s.block == 0 && s.end + EPSILON < limit
  }

  lemma OneMoreClean(spans: seq<Span>, s: Span, limit: real)
    requires EndBefore(spans, s.start) && Clean(s) && s.block == 0 && s.end + EPSILON < limit
    ensures EndBefore(spans + [s], limit)
  {
    forall i, k | 0 <= i < k < |spans + [s]| ensures Ahead((spans + [s])[i], (spans + [s])[k]) {
      assert spans[i] in spans;
    }
    forall x | x in spans ensures x.end + EPSILON < limit {
      assert x.end + EPSILON < s.start < s.end;
    }
  }

  lemma {:induction false} ShortSpansAreClean(n: nat)
    ensures EndBefore(ShortSpans(n), 2.0 * n as real)
  {
    if n > 0 {
      ShortSpansAreClean(n - 1);
      TenthsAreRounded(n - 1);
      OneMoreClean(ShortSpans(n - 1), Span(0, 2.0 * (n - 1) as real, 2.0 * (n - 1) as real + 0.1), 2.0 * n as real);
    }
  }

  lemma ShredsAreClean(n: nat)
    ensures CleanSpans(Shreds(n))
  {
    ShortSpansAreClean(n);
    TenthsAreRounded(n);
    OneMoreClean(ShortSpans(n), Span(0, 2.0 * n as real, 2.0 * n as real + 1.0), 2.0 * n as real + 2.0);
  }

  lemma CleanAreUsable(spans: seq<Span>)
    requires CleanSpans(spans)
    ensures AllUsable(spans)
  {
  }

  /**
   Nor need the rate come near the floor: ten thousand spans with one frame more than the budget lower
   it so little each turn that the turns run out, far above a floor that fits.
   */
  lemma RefusedThoughFloorFits()
    ensures var spans, budget := Shreds(SHREDS), SHREDS + 1;
      && PlanOf(spans, 2.0, Seconds(spans), budget, 1.0, 0.0) == Err(ScopeExceeded)
      && Footprint(spans, 0.0) == spans && Frames(spans, 1.0) == budget
      && FinalRate(spans, 2.0, 1.0, budget) >= 1.5
  {
    var spans := Shreds(SHREDS);
    ShredsAreClean(SHREDS);
    CleanAreUsable(spans);
    SecondsNonnegative(spans);
    FootprintIsItself(spans);
    SlowDescent(2.0, MAX_REDUCTIONS);
    ShredFrames(SHREDS, 2.0);
    ShredFrames(SHREDS, FinalRate(spans, 2.0, 1.0, SHREDS + 1));
    ShredFrames(SHREDS, 1.0);
    ReducedPlan(spans, Seconds(spans), 2.0, 1.0, SHREDS + 1, FinalRate(spans, 2.0, 1.0, SHREDS + 1));
  }
}
