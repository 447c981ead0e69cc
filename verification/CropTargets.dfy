/** Fitting crops to face boxes, and the one crop of the static modes. */
module CropTargets {
  import opened Wrappers
  import opened CropGeometry
  import opened CropPath
  import opened PathCheck
  import opened Sorting

  datatype Config = Config(
    minCrop: real, headroom: real, chin: real, targetFace: real, deadZone: real,
    maxPan: real, maxZoom: real, minHold: real, maxKeyframes: int)

  /** The range the settings are documented for, as far as the crop heights depend on it. */
  predicate Usable(config: Config) {
    0.0 < config.minCrop <= 1.0 && config.headroom >= 0.0 && config.chin >= 0.0 && config.maxZoom >= 0.0
  }

  const GRID_STEPS := 32
  const HORIZONTAL_MARGIN := 0.02
  const FALLBACK_FACE := 0.38

  predicate RealLe(a: real, b: real) { a <= b }

  function Unit(x: real, lower: real): real { Min(1.0, Max(lower, x)) }

  function LowerHeight(config: Config): real { Max(EDGE_EPSILON, Min(1.0, config.minCrop)) }

  function GridHeight(lower: real, step: int): real { lower + (1.0 - lower) * step as real / GRID_STEPS as real }

  /** The base height and an even grid of heights. */
  function RawHeights(base: real, config: Config): seq<real> {
    var lower := LowerHeight(config);
    [Unit(base, lower)] + seq(GRID_STEPS + 1, i => Unit(GridHeight(lower, i), lower))
  }

  function HeightCandidates(base: real, config: Config): seq<real> { SortBy(RawHeights(base, config), RealLe) }

  lemma CandidateRange(base: real, config: Config, c: real)
    requires c in HeightCandidates(base, config)
    ensures LowerHeight(config) <= c <= 1.0
  {
    var lower := LowerHeight(config);
    var raw := RawHeights(base, config);
    SortHasSameElements(raw, RealLe);
    assert forall k | 0 <= k < |raw| :: exists x: real :: raw[k] == Unit(x, lower);
  }

  predicate MarginsSatisfied(t: Target, box: Rect, config: Config, d: Display) {
    var crop := CropRect(t, d);
    var b := ToPixels(box, d);
    var horizontal := HORIZONTAL_MARGIN * crop.w;
    && b.x >= crop.x + horizontal - EDGE_EPSILON
    && b.x + b.w <= crop.x + crop.w - horizontal + EDGE_EPSILON
    && b.y >= crop.y + config.headroom * crop.h - EDGE_EPSILON
    && b.y + b.h <= crop.y + crop.h - config.chin * crop.h + EDGE_EPSILON
  }

  function BaseHeight(w: real, h: real, config: Config): real {
    var face := if config.targetFace <= 0.0 then FALLBACK_FACE else config.targetFace;
    var vertical := 1.0 - config.headroom - config.chin;
    var base := if vertical > EDGE_EPSILON then Max(h / face, h / vertical) else h / face;
    var horizontal := 9.0 / 16.0 * (1.0 - 2.0 * HORIZONTAL_MARGIN);
    Min(1.0, Max(config.minCrop, Max(base, w / horizontal)))
  }

  /** The center of a crop of height `c` with the head room above the face. */
  function CropCenterY(s: Sample, c: real, config: Config): real {
    SampleBox(s).y - config.headroom * c + c / 2.0
  }

  function CropFor(s: Sample, c: real, config: Config, d: Display): Target
    requires Positive(d)
  {
    ClampTarget(Target(s.cx, CropCenterY(s, c, config), c), d)
  }

  predicate Holds(s: Sample, c: real, config: Config, d: Display)
    requires Positive(d)
  {
    BoxContained(CropFor(s, c, config, d), SampleBox(s), d)
  }

  predicate HoldsWithMargin(s: Sample, c: real, config: Config, d: Display)
    requires Positive(d)
  {
    Holds(s, c, config, d) && MarginsSatisfied(CropFor(s, c, config, d), SampleBox(s), config, d)
  }

  function Off(c: real, s: Sample, config: Config): real {
    Abs(c - BaseHeight(s.w, s.h, config))
  }

  /** `c` is at least as near the base as `k`, and nearer when it is the larger of two. */
  predicate Nearer(c: real, k: real, s: Sample, config: Config) {
    if k < c then Off(c, s, config) < Off(k, s, config) else Off(c, s, config) <= Off(k, s, config)
  }

  /** `c` is a containing height; with margins if any height has them, and nearest the base among its kind. */
  ghost predicate BestHeight(c: real, heights: seq<real>, s: Sample, config: Config, d: Display)
    requires Positive(d)
  {
    && c in heights && Holds(s, c, config, d)
    && (forall k <- heights | HoldsWithMargin(s, k, config, d) ::
          HoldsWithMargin(s, c, config, d) && Nearer(c, k, s, config))
    && (!HoldsWithMargin(s, c, config, d) ==>
          forall k <- heights | Holds(s, k, config, d) :: Nearer(c, k, s, config))
  }

  /** No candidate height holds the box, or there is no box. */
  ghost predicate Unfit(s: Sample, config: Config, d: Display)
    requires Positive(d)
  {
    s.w <= 0.0 || s.h <= 0.0
    || forall c <- HeightCandidates(BaseHeight(s.w, s.h, config), config) :: !Holds(s, c, config, d)
  }

  /** The nearest height found so far among those satisfying `ok`. */
  ghost predicate NearestSoFar(best: Option<real>, seen: seq<real>, ok: real -> bool, s: Sample, config: Config) {
    match best
    case None => forall k <- seen :: !ok(k)
    case Some(c) => c in seen && ok(c) && forall k <- seen | ok(k) :: Nearer(c, k, s, config)
  }

  /** One candidate's turn: it replaces the best only when it qualifies and is strictly nearer. */
  function Better(best: Option<real>, c: real, qualifies: bool, s: Sample, config: Config): Option<real> {
    if qualifies && (best.None? || Off(c, s, config) < Off(best.value, s, config)) then Some(c) else best
  }

  lemma BetterIsNearest(best: Option<real>, seen: seq<real>, ok: real -> bool, c: real, s: Sample, config: Config)
    requires NearestSoFar(best, seen, ok, s, config) && forall k <- seen :: k <= c
    ensures NearestSoFar(Better(best, c, ok(c), s, config), seen + [c], ok, s, config)
  {
    assert c in seen + [c];
  }

  /** No smaller than the configured height, and on a wide display framed. */
  predicate InRange(t: Target, config: Config, d: Display) {
    config.minCrop <= t.height <= 1.0 && (Wide(d) ==> Framed(t, d))
  }

  lemma ClampedIsInRange(x: real, y: real, c: real, config: Config, d: Display)
    requires Positive(d) && Usable(config) && config.minCrop <= c <= 1.0
    ensures InRange(ClampTarget(Target(x, y, c), d), config, d) && ClampTarget(Target(x, y, c), d).height == c
  {
    ClampKeepsHeight(Target(x, y, c), d);
    if Wide(d) {
      ClampTargetFrames(Target(x, y, c), d);
    }
  }

  lemma FittedInRange(s: Sample, c: real, config: Config, d: Display)
    requires Positive(d) && c in HeightCandidates(BaseHeight(s.w, s.h, config), config)
    ensures Usable(config) ==> InRange(CropFor(s, c, config, d), config, d)
  {
    if Usable(config) {
      CandidateRange(BaseHeight(s.w, s.h, config), config, c);
      ClampedIsInRange(s.cx, CropCenterY(s, c, config), c, config, d);
    }
  }

  method TargetFromBox(s: Sample, config: Config, d: Display) returns (r: Option<Target>)
    requires Positive(d)
    ensures r.Some? ==> exists c ::
              BestHeight(c, HeightCandidates(BaseHeight(s.w, s.h, config), config), s, config, d)
              && r.value == CropFor(s, c, config, d)
    ensures r.None? <==> Unfit(s, config, d)
    ensures r.Some? ==> BoxContained(r.value, SampleBox(s), d) && (Usable(config) ==> InRange(r.value, config, d))
  {
    if s.w <= 0.0 || s.h <= 0.0 {
      return None;
    }
    var heights := HeightCandidates(BaseHeight(s.w, s.h, config), config);
    var bestMargin: Option<real> := None;
    var bestContained: Option<real> := None;
    ghost var withMargin := (c: real) => HoldsWithMargin(s, c, config, d);
    SortIsSorted(RawHeights(BaseHeight(s.w, s.h, config), config), RealLe);
    ghost var bare := (c: real) => Holds(s, c, config, d) && !HoldsWithMargin(s, c, config, d);
    for i := 0 to |heights|
      invariant NearestSoFar(bestMargin, heights[..i], withMargin, s, config)
      invariant NearestSoFar(bestContained, heights[..i], bare, s, config)
    {
      var c := heights[i];
      assert heights[..i + 1] == heights[..i] + [c];
      assert forall k <- heights[..i] :: RealLe(k, c);
      BetterIsNearest(bestMargin, heights[..i], withMargin, c, s, config);
      BetterIsNearest(bestContained, heights[..i], bare, c, s, config);
      var contained := Holds(s, c, config, d);
      var margin := contained && HoldsWithMargin(s, c, config, d);
      bestMargin := Better(bestMargin, c, margin, s, config);
      bestContained := Better(bestContained, c, contained && !margin, s, config);
    }
    assert heights[..|heights|] == heights;
    if bestMargin.Some? {
      assert BestHeight(bestMargin.value, heights, s, config, d);
      FittedInRange(s, bestMargin.value, config, d);
      return Some(CropFor(s, bestMargin.value, config, d));
    }
    if bestContained.Some? {
      assert BestHeight(bestContained.value, heights, s, config, d);
      FittedInRange(s, bestContained.value, config, d);
      return Some(CropFor(s, bestContained.value, config, d));
    }
    return None;
  }

  // ---- several subjects in one crop ------------------------------------------------

  /** The smallest box around every sample, as corner coordinates. */
  datatype Corners = Corners(left: real, top: real, right: real, bottom: real)

  function SampleCorners(s: Sample): Corners {
    Corners(s.cx - s.w / 2.0, s.cy - s.h / 2.0, s.cx + s.w / 2.0, s.cy + s.h / 2.0)
  }

  predicate Surrounds(c: Corners, s: Corners) {
    c.left <= s.left && c.top <= s.top && s.right <= c.right && s.bottom <= c.bottom
  }

  /** The smallest corners around every sample: each side touches one of them. */
  ghost predicate UnionOf(u: Corners, tracks: seq<Track>) {
    var all := AllSamples(tracks);
    && all != [] && (forall s <- all :: Surrounds(u, SampleCorners(s)))
    && (exists s <- all :: SampleCorners(s).left == u.left)
    && (exists s <- all :: SampleCorners(s).top == u.top)
    && (exists s <- all :: SampleCorners(s).right == u.right)
    && (exists s <- all :: SampleCorners(s).bottom == u.bottom)
  }

  method UnionBox(tracks: seq<Track>) returns (r: Option<Corners>)
    ensures r.None? <==> AllSamples(tracks) == []
    ensures r.Some? ==> UnionOf(r.value, tracks)
  {
    var all := AllSamples(tracks);
    if all == [] {
      return None;
    }
    var c := SampleCorners(all[0]);
    for i := 1 to |all|
      invariant forall k | 0 <= k < i :: Surrounds(c, SampleCorners(all[k]))
      invariant exists k | 0 <= k < i :: SampleCorners(all[k]).left == c.left
      invariant exists k | 0 <= k < i :: SampleCorners(all[k]).top == c.top
      invariant exists k | 0 <= k < i :: SampleCorners(all[k]).right == c.right
      invariant exists k | 0 <= k < i :: SampleCorners(all[k]).bottom == c.bottom
    {
      var s := SampleCorners(all[i]);
      c := Corners(Min(c.left, s.left), Min(c.top, s.top), Max(c.right, s.right), Max(c.bottom, s.bottom));
    }
    return Some(c);
  }

  function Share(fraction: real, length: real): real { fraction * length }

  function GrownHeight(h: real, config: Config): real { h * (1.0 + config.headroom + config.chin) }

  /** The union box with its margins, its corner pulled into the frame. */
  function ExpandedBox(u: Corners, config: Config): Rect {
    var w, h := u.right - u.left, u.bottom - u.top;
    var margin := Share(config.chin, h);
    Rect(Min(Max(u.left - margin, 0.0), 1.0), Min(Max(u.top - Share(config.headroom, h), 0.0), 1.0),
         w + 2.0 * margin, GrownHeight(h, config))
  }

  function RequiredHeight(box: Rect, d: Display): real
    requires Positive(d)
  {
    Max(box.h * d.height, box.w * d.width * 16.0 / 9.0) / d.height
  }

  datatype MultiFit = Fits(target: Target) | TooWide | NoFit

  function LeastHeight(box: Rect, config: Config, d: Display): real
    requires Positive(d)
  {
    Max(config.minCrop, RequiredHeight(box, d))
  }

  /** The candidate heights, ascending, that are not below the required one. */
  function MultiHeights(box: Rect, config: Config, d: Display): seq<real>
    requires Positive(d)
  {
    HeightCandidates(Min(1.0, LeastHeight(box, config, d)), config)
  }

  function MultiCrop(box: Rect, c: real, d: Display): Target
    requires Positive(d)
  {
    ClampTarget(Target(box.x + box.w / 2.0, box.y + box.h / 2.0, c), d)
  }

  predicate MultiHolds(box: Rect, c: real, config: Config, d: Display)
    requires Positive(d)
  {
    c >= LeastHeight(box, config, d) - EDGE_EPSILON && BoxContained(MultiCrop(box, c, d), box, d)
  }

  /** The first candidate height that holds the box gives the crop; the box needs more than the frame; or none holds it. */
  ghost predicate FitOf(fit: MultiFit, box: Rect, config: Config, d: Display)
    requires Positive(d)
  {
    var heights := MultiHeights(box, config, d);
    match fit
    case TooWide => RequiredHeight(box, d) > 1.0 + EDGE_EPSILON
    case Fits(target) =>
      && RequiredHeight(box, d) <= 1.0 + EDGE_EPSILON
      && exists i | 0 <= i < |heights| :: MultiHolds(box, heights[i], config, d) && target == MultiCrop(box, heights[i], d)
           && forall k | 0 <= k < i :: !MultiHolds(box, heights[k], config, d)
    case NoFit => RequiredHeight(box, d) <= 1.0 + EDGE_EPSILON && forall c <- heights :: !MultiHolds(box, c, config, d)
  }

  /** The scan over the heights. */
  method FitBox(box: Rect, config: Config, d: Display) returns (r: MultiFit)
    requires Positive(d)
    ensures FitOf(r, box, config, d)
    ensures r.Fits? && Usable(config) ==> InRange(r.target, config, d)
  {
    if RequiredHeight(box, d) > 1.0 + EDGE_EPSILON {
      return TooWide;
    }
    var heights := MultiHeights(box, config, d);
    for i := 0 to |heights|
      invariant forall k | 0 <= k < i :: !MultiHolds(box, heights[k], config, d)
    {
      if MultiHolds(box, heights[i], config, d) {
        MultiInRange(box, heights[i], config, d);
        return Fits(MultiCrop(box, heights[i], d));
      }
    }
    return NoFit;
  }

  lemma MultiInRange(box: Rect, c: real, config: Config, d: Display)
    requires Positive(d) && c in MultiHeights(box, config, d)
    ensures Usable(config) ==> InRange(MultiCrop(box, c, d), config, d)
  {
    if Usable(config) {
      CandidateRange(Min(1.0, LeastHeight(box, config, d)), config, c);
      ClampedIsInRange(box.x + box.w / 2.0, box.y + box.h / 2.0, c, config, d);
    }
  }

  method FitSubjects(tracks: seq<Track>, config: Config, d: Display) returns (r: MultiFit)
    requires Positive(d)
    ensures AllSamples(tracks) == [] ==> r.NoFit?
    ensures AllSamples(tracks) != [] ==>
              exists u :: UnionOf(u, tracks) && FitOf(r, ExpandedBox(u, config), config, d)
    ensures r.Fits? ==> AllSamples(tracks) != []
    ensures r.Fits? && Usable(config) ==> InRange(r.target, config, d)
  {
    var union := UnionBox(tracks);
    if union.None? {
      return NoFit;
    }
    assert UnionOf(union.value, tracks);
    r := FitBox(ExpandedBox(union.value, config), config, d);
  }

  predicate InFrame(s: Sample) {
    0.0 <= s.cx - s.w / 2.0 && s.cx + s.w / 2.0 <= 1.0 && 0.0 <= s.cy - s.h / 2.0 && s.cy + s.h / 2.0 <= 1.0
    && s.w >= 0.0 && s.h >= 0.0
  }

  lemma ScaleOrder(a: real, b: real, c: real)
    requires a <= b && c > 0.0
    ensures a * c <= b * c
  {
    MulNonnegative(b - a, c);
    assert (b - a) * c == b * c - a * c;
  }

  lemma PixelOrder(inner: Rect, outer: Rect, d: Display)
    requires Positive(d)
    requires outer.x <= inner.x && inner.x + inner.w <= outer.x + outer.w
    requires outer.y <= inner.y && inner.y + inner.h <= outer.y + outer.h
    ensures var i, o := ToPixels(inner, d), ToPixels(outer, d);
      o.x <= i.x && i.x + i.w <= o.x + o.w && o.y <= i.y && i.y + i.h <= o.y + o.h
  {
    ScaleOrder(outer.x, inner.x, d.width);
    ScaleOrder(inner.x + inner.w, outer.x + outer.w, d.width);
    ScaleOrder(outer.y, inner.y, d.height);
    ScaleOrder(inner.y + inner.h, outer.y + outer.h, d.height);
    assert (inner.x + inner.w) * d.width == inner.x * d.width + inner.w * d.width;
    assert (outer.x + outer.w) * d.width == outer.x * d.width + outer.w * d.width;
    assert (inner.y + inner.h) * d.height == inner.y * d.height + inner.h * d.height;
    assert (outer.y + outer.h) * d.height == outer.y * d.height + outer.h * d.height;
  }

  lemma PulledSideCovers(lo: real, hi: real, before: real, after: real, sampleLo: real, sampleHi: real)
    requires before >= 0.0 && after >= 0.0 && 0.0 <= sampleLo <= 1.0 && lo <= sampleLo && sampleHi <= hi
    ensures var x := Min(Max(lo - before, 0.0), 1.0); x <= sampleLo && sampleHi <= x + (hi - lo) + before + after
  {
  }

  lemma SharesGrow(h: real, config: Config)
    requires h >= 0.0 && config.chin >= 0.0 && config.headroom >= 0.0
    ensures Share(config.chin, h) >= 0.0 && Share(config.headroom, h) >= 0.0
    ensures GrownHeight(h, config) == h + Share(config.headroom, h) + Share(config.chin, h)
  {
    MulNonnegative(config.chin, h);
    MulNonnegative(config.headroom, h);
  }

  lemma ExpandedBoxSurrounds(u: Corners, s: Sample, config: Config)
    requires Usable(config) && InFrame(s) && Surrounds(u, SampleCorners(s))
    ensures var b, x := SampleBox(s), ExpandedBox(u, config);
      x.x <= b.x && b.x + b.w <= x.x + x.w && x.y <= b.y && b.y + b.h <= x.y + x.h
  {
    var h := u.bottom - u.top;
    var margin, head := Share(config.chin, h), Share(config.headroom, h);
    SharesGrow(h, config);
    var b := SampleBox(s);
    PulledSideCovers(u.left, u.right, margin, margin, b.x, b.x + b.w);
    PulledSideCovers(u.top, u.bottom, head, margin, b.y, b.y + b.h);
  }

  /** A multi-subject crop holds every observation that lies in the frame. */
  lemma MultiSubjectCropHoldsEverySample(u: Corners, tracks: seq<Track>, t: Target, config: Config, d: Display, s: Sample)
    requires Positive(d) && Usable(config) && UnionOf(u, tracks) && BoxContained(t, ExpandedBox(u, config), d)
    requires s in AllSamples(tracks) && InFrame(s)
    ensures BoxContained(t, SampleBox(s), d)
  {
    ExpandedBoxSurrounds(u, s, config);
    PixelOrder(SampleBox(s), ExpandedBox(u, config), d);
  }
}
