/** What the fitted crops give a face: its size in the crop, the margins around it, and the least height for several. */
module CropMargins {
  import opened CropGeometry
  import opened CropPath
  import opened CropTargets
  import opened Sorting

  // ---- the heights tried ------------------------------------------------------------------------

  /** The lower end of the heights: the configured least, a millionth at least and the whole frame at most. */
  ghost predicate LowestTried(lower: real, config: Config) {
    0.000001 <= lower <= 1.0
    && (if config.minCrop < 0.000001 then lower == 0.000001 else if config.minCrop > 1.0 then lower == 1.0
        else lower == config.minCrop)
  }

  /** One of the heights that part [lower, 1] into 32 equal steps. */
  ghost predicate OnGrid(c: real, lower: real) { exists i: nat :: i <= 32 && Mark(c, lower, i) }

  predicate Mark(c: real, lower: real, i: nat) { 32.0 * (c - lower) == (1.0 - lower) * i as real }

  ghost predicate NearestTo(c: real, x: real, lower: real) {
    if x < lower then c == lower else if x > 1.0 then c == 1.0 else c == x
  }

  lemma GridHeightMarks(lower: real, i: nat)
    requires 0.0 < lower <= 1.0 && i <= 32
    ensures var x := GridHeight(lower, i); Mark(x, lower, i) && Unit(x, lower) == x
  {
    var part := (1.0 - lower) * i as real;
    MulNonnegative(1.0 - lower, i as real);
    MulNonnegative(1.0 - lower, 32.0 - i as real);
    assert part <= (1.0 - lower) * 32.0;
  }

  /** Exactly the grid and the base, brought into the range, in ascending order, are tried. */
  lemma TriedHeights(base: real, config: Config, lower: real)
    requires LowestTried(lower, config)
    ensures Sorted(HeightCandidates(base, config), RealLe) && |HeightCandidates(base, config)| == 34
    ensures forall c :: c in HeightCandidates(base, config) <==> NearestTo(c, base, lower) || OnGrid(c, lower)
  {
    var raw := RawHeights(base, config);
    SortIsSorted(raw, RealLe);
    SortIsPermutation(raw, RealLe);
    SortHasSameElements(raw, RealLe);
    RawMarks(base, config, lower);
    forall c ensures c in raw <==> NearestTo(c, base, lower) || OnGrid(c, lower) {
      RawHeightIff(base, config, lower, c);
    }
  }

  lemma RawMarks(base: real, config: Config, lower: real)
    requires LowestTried(lower, config)
    ensures var raw := RawHeights(base, config);
      && |raw| == 34 && raw[0] == Unit(base, lower)
      && forall i | 0 < i <= 33 :: raw[i] == GridHeight(lower, i - 1) && Mark(raw[i], lower, i - 1)
  {
    assert LowerHeight(config) == lower;
    var raw := RawHeights(base, config);
    forall i | 0 < i <= 33 ensures raw[i] == GridHeight(lower, i - 1) && Mark(raw[i], lower, i - 1) {
      assert raw[i] == Unit(GridHeight(lower, i - 1), lower);
      GridHeightMarks(lower, i - 1);
    }
  }

  lemma RawHeightIff(base: real, config: Config, lower: real, c: real)
    requires LowestTried(lower, config)
    ensures c in RawHeights(base, config) <==> NearestTo(c, base, lower) || OnGrid(c, lower)
  {
    var raw := RawHeights(base, config);
    RawMarks(base, config, lower);
    assert NearestTo(raw[0], base, lower);
    hide RawHeights, Unit, GridHeight;
    if OnGrid(c, lower) {
      var i: nat :| i <= 32 && Mark(c, lower, i);
      assert Mark(raw[i + 1], lower, i);
      assert raw[i + 1] == c;
    }
  }

  // ---- the base height ----------------------------------------------------------------------------

  /** The face takes at most its target share of a crop of height `c`, and at most what head room and chin leave. */
  predicate TallRoom(c: real, h: real, config: Config) {
    && h <= (if config.targetFace > 0.0 then config.targetFace else 0.38) * c
    && (1.0 - config.headroom - config.chin > 0.000001 ==> h <= (1.0 - config.headroom - config.chin) * c)
  }

  /** So it does, and it takes at most 96 percent of the width. */
  ghost predicate Roomy(c: real, w: real, h: real, config: Config) {
    c >= config.minCrop && TallRoom(c, h, config) && w <= 0.96 * (c * 9.0 / 16.0)
  }

  lemma QuotientAtMost(a: real, b: real, c: real)
    requires b > 0.0
    ensures a / b <= c <==> a <= b * c
  {
    Undivide(a, b);
    ScaledOrder(a / b, c, b);
  }

  lemma ScaledOrder(x: real, y: real, scale: real)
    requires scale > 0.0
    ensures x <= y <==> x * scale <= y * scale
  {
    if x <= y {
      ScaleOrder(x, y, scale);
    } else {
      var gap := (x - y) * scale;
      assert gap > 0.0;
      assert gap == x * scale - y * scale;
    }
  }

  lemma TallRoomFrom(h: real, config: Config) returns (tall: real)
    ensures tall == var face := if config.targetFace <= 0.0 then FALLBACK_FACE else config.targetFace;
                    var vertical := 1.0 - config.headroom - config.chin;
                    if vertical > EDGE_EPSILON then Max(h / face, h / vertical) else h / face
    ensures forall c :: tall <= c <==> TallRoom(c, h, config)
  {
    var face := if config.targetFace <= 0.0 then FALLBACK_FACE else config.targetFace;
    var vertical := 1.0 - config.headroom - config.chin;
    tall := if vertical > EDGE_EPSILON then Max(h / face, h / vertical) else h / face;
    forall c ensures tall <= c <==> TallRoom(c, h, config) {
      QuotientAtMost(h, face, c);
      if vertical > EDGE_EPSILON {
        QuotientAtMost(h, vertical, c);
      }
    }
  }

  lemma CapAtMost(least: real, tall: real, wide: real, c: real)
    ensures Min(1.0, Max(least, Max(tall, wide))) <= 1.0
    ensures c < 1.0 ==> (Min(1.0, Max(least, Max(tall, wide))) <= c <==> least <= c && tall <= c && wide <= c)
  {
  }

  /** The base height is the least at which the face has room, or the whole frame when none is. */
  lemma BaseHeightIsLeast(w: real, h: real, config: Config, c: real)
    ensures BaseHeight(w, h, config) <= 1.0
    ensures c < 1.0 ==> (BaseHeight(w, h, config) <= c <==> Roomy(c, w, h, config))
  {
    var tall := TallRoomFrom(h, config);
    var wide := w / (9.0 / 16.0 * (1.0 - 2.0 * HORIZONTAL_MARGIN));
    assert BaseHeight(w, h, config) == Min(1.0, Max(config.minCrop, Max(tall, wide)));
    assert wide <= c <==> w <= 0.96 * (c * 9.0 / 16.0);
    CapAtMost(config.minCrop, tall, wide, c);
    hide BaseHeight, TallRoom;
  }

  /** The wanted height, by what room it gives. */
  ghost predicate Wanted(b: real, w: real, h: real, config: Config) {
    b <= 1.0 && forall c | c < 1.0 :: b <= c <==> Roomy(c, w, h, config)
  }

  lemma WantedIsBase(b: real, w: real, h: real, config: Config)
    requires Wanted(b, w, h, config)
    ensures b == BaseHeight(w, h, config)
  {
    var base := BaseHeight(w, h, config);
    BaseHeightIsLeast(w, h, config, b);
    BaseHeightIsLeast(w, h, config, base);
    hide BaseHeight, Roomy;
  }

  function Distance(a: real, b: real): real { if a <= b then b - a else a - b }

  /** The height kept for a face is the nearest to the wanted one, the smaller of two as near, that leaves the margins. */
  lemma KeptHeightIsNearest(c: real, k: real, b: real, s: Sample, config: Config, d: Display)
    requires Positive(d) && Wanted(b, s.w, s.h, config)
    requires BestHeight(c, HeightCandidates(BaseHeight(s.w, s.h, config), config), s, config, d)
    requires k in HeightCandidates(b, config)
    ensures HoldsWithMargin(s, k, config, d) ==> HoldsWithMargin(s, c, config, d)
    ensures (if HoldsWithMargin(s, c, config, d) then HoldsWithMargin(s, k, config, d) else Holds(s, k, config, d)) ==>
              Distance(c, b) < Distance(k, b) || (Distance(c, b) == Distance(k, b) && c <= k)
  {
    WantedIsBase(b, s.w, s.h, config);
    hide HeightCandidates, BaseHeight, HoldsWithMargin, Holds;
  }

  /** The center crop is the middle of the frame, at its whole height, on every display. */
  lemma CenterCropIsCentered(d: Display)
    requires Positive(d)
    ensures CenterTarget(d) == Target(0.5, 0.5, 1.0)
  {
    var r := CropRect(Target(0.5, 0.5, 1.0), d);
    assert r.x + r.w / 2.0 == 0.5 * d.width && r.y + r.h / 2.0 == 0.5 * d.height && r.h == 1.0 * d.height;
    Cancel(0.5, d.width);
    Cancel(0.5, d.height);
    Cancel(1.0, d.height);
  }

  /** A crop contains a box when the box passes none of its edges by more than a millionth of a pixel. */
  lemma ContainedIff(t: Target, box: Rect, d: Display)
    ensures var c := CropRect(t, d);
      BoxContained(t, box, d) <==>
        && c.x - box.x * d.width <= 0.000001 && box.x * d.width + box.w * d.width - (c.x + c.w) <= 0.000001
        && c.y - box.y * d.height <= 0.000001 && box.y * d.height + box.h * d.height - (c.y + c.h) <= 0.000001
  {
    hide CropRect;
  }

  // ---- margins --------------------------------------------------------------------------------------

  /** The box grown by its margins: 2 percent of the crop's width at the sides, the head room above and the chin below. */
  function GrownBox(crop: Rect, box: Rect, config: Config): Rect {
    Rect(box.x - 0.02 * crop.w, box.y - config.headroom * crop.h,
         box.w + 0.04 * crop.w, box.h + config.headroom * crop.h + config.chin * crop.h)
  }

  /** The margins are kept exactly when the grown box lies in the crop. */
  lemma MarginsIff(t: Target, box: Rect, config: Config, d: Display)
    ensures MarginsSatisfied(t, box, config, d) <==>
              Covers(CropRect(t, d), GrownBox(CropRect(t, d), ToPixels(box, d), config))
  {
    hide ClampCrop, RawRect, ToPixels;
  }

  /** Where the frame leaves the crop alone, the face is centered in it with exactly the head room above. */
  lemma FreeCropPlacesFace(s: Sample, c: real, config: Config, d: Display)
    requires Wide(d) && 0.0 < c <= 1.0 && Inside(RawRect(Target(s.cx, CropCenterY(s, c, config), c), d), d)
    ensures var t := CropFor(s, c, config, d);
      && t.height == c && t.centerX == s.cx
      && s.cy - s.h / 2.0 - (t.centerY - t.height / 2.0) == config.headroom * c
  {
    var t := Target(s.cx, CropCenterY(s, c, config), c);
    FramedIffClampFixes(t, d);
  }

  lemma FreeRect(t: Target, d: Display)
    requires Wide(d) && 0.0 < t.height <= 1.0 && Inside(RawRect(t, d), d)
    ensures ClampTarget(t, d) == t
    ensures var r := CropRect(t, d);
      && r.h == Scale(t.height, d.height) && r.w == r.h * 9.0 / 16.0
      && r.x == Scale(t.centerX, d.width) - r.w / 2.0 && r.y == Scale(t.centerY, d.height) - r.h / 2.0
  {
    FramedIffClampFixes(t, d);
  }

  lemma FaceTop(top: real, headroom: real, c: real, full: real)
    ensures (top - headroom * c + c / 2.0) * full - c * full / 2.0 == top * full - headroom * (c * full)
  {
    Distribute(top, headroom * c, c / 2.0, full);
    Associate(headroom, c, full);
  }

  lemma Distribute(a: real, b: real, c: real, full: real)
    ensures (a - b + c) * full == a * full - b * full + c * full
  {
  }

  lemma Associate(a: real, b: real, c: real)
    ensures (a * b) * c == a * (b * c)
  {
  }

  lemma Halves(center: real, size: real, full: real)
    ensures (center - size / 2.0) * full == center * full - size * full / 2.0
  {
  }

  /** The pixel rectangle of such a crop. */
  lemma FreeCropRect(s: Sample, c: real, config: Config, d: Display)
    requires Wide(d) && 0.0 < c <= 1.0 && Inside(RawRect(Target(s.cx, CropCenterY(s, c, config), c), d), d)
    ensures var r, b := CropRect(CropFor(s, c, config, d), d), ToPixels(SampleBox(s), d);
      && r.h == c * d.height && r.w == r.h * 9.0 / 16.0
      && b.x - r.x == (r.w - b.w) / 2.0 && b.y - r.y == config.headroom * r.h
  {
    hide Inside, RawRect, CropRect, ClampTarget;
    var t := Target(s.cx, CropCenterY(s, c, config), c);
    FreeRect(t, d);
    Halves(s.cx, s.w, d.width);
    FaceTop(s.cy - s.h / 2.0, config.headroom, c, d.height);
  }

  /** In pixels: the face is narrow and low enough for the margins, up to the tolerances. */
  lemma FreeCropMarginPixels(s: Sample, c: real, config: Config, d: Display, r: Rect, b: Rect)
    requires Wide(d) && 0.0 < c <= 1.0 && config.headroom >= 0.0 && config.chin >= 0.0
    requires Inside(RawRect(Target(s.cx, CropCenterY(s, c, config), c), d), d)
    requires r == CropRect(CropFor(s, c, config, d), d) && b == ToPixels(SampleBox(s), d)
    ensures HoldsWithMargin(s, c, config, d) <==>
              b.w <= 0.96 * r.w + 0.000002 && b.h <= r.h - config.headroom * r.h - config.chin * r.h + 0.000001
  {
    hide Inside, RawRect, CropCenterY, CropRect, CropFor, MarginsSatisfied, ToPixels;
    FreeCropRect(s, c, config, d);
    MarginsIff(CropFor(s, c, config, d), SampleBox(s), config, d);
    ScaledHeight(c, d.height);
    MulNonnegative(config.headroom, r.h);
    MulNonnegative(config.chin, r.h);
    CenteredCoversIff(r, b, config.headroom * r.h, config.chin * r.h);
  }

  /** Such a crop keeps the margins exactly when the face is narrow and low enough for them, up to the tolerances. */
  lemma FreeCropKeepsMarginsIff(s: Sample, c: real, config: Config, d: Display)
    requires Wide(d) && 0.0 < c <= 1.0 && config.headroom >= 0.0 && config.chin >= 0.0
    requires Inside(RawRect(Target(s.cx, CropCenterY(s, c, config), c), d), d)
    ensures var height := c * d.height;
      HoldsWithMargin(s, c, config, d) <==>
        && s.w * d.width <= 0.96 * (height * 9.0 / 16.0) + 0.000002
        && s.h * d.height <= height - config.headroom * height - config.chin * height + 0.000001
  {
    hide Inside, RawRect, CropCenterY, CropRect, CropFor, HoldsWithMargin;
    var r, b := CropRect(CropFor(s, c, config, d), d), ToPixels(SampleBox(s), d);
    FreeCropMarginPixels(s, c, config, d, r, b);
    FreeCropRect(s, c, config, d);
    assert b.w == s.w * d.width && b.h == s.h * d.height;
  }

  lemma CenteredCoversIff(r: Rect, b: Rect, head: real, chin: real)
    requires r.w >= 0.0 && head >= 0.0 && chin >= 0.0 && b.x - r.x == (r.w - b.w) / 2.0 && b.y - r.y == head
    ensures var g := Rect(b.x - 0.02 * r.w, b.y - head, b.w + 0.04 * r.w, b.h + head + chin);
      && (Covers(r, g) <==> b.w <= 0.96 * r.w + 0.000002 && b.h <= r.h - head - chin + 0.000001)
      && (Covers(r, g) ==> Covers(r, b))
  {
  }

  // ---- several subjects -----------------------------------------------------------------------------

  lemma GrownHeightIs(h: real, config: Config)
    ensures GrownHeight(h, config) == h + config.headroom * h + config.chin * h
  {
    assert h * (1.0 + config.headroom + config.chin) == h + h * config.headroom + h * config.chin;
  }

  /**
   The expanded box keeps a margin of the chin share beside and below and the head room above; a corner
   beyond the frame is pulled to its edge, the size staying.
   */
  lemma ExpandedBoxKeepsMargins(u: Corners, config: Config, h: real, margin: real, head: real)
    requires h == u.bottom - u.top && margin == config.chin * h && head == config.headroom * h
    ensures var r := ExpandedBox(u, config);
      && r.w == u.right - u.left + 2.0 * margin && r.h == h + head + margin
      && r.x == (if u.left - margin < 0.0 then 0.0 else if u.left - margin > 1.0 then 1.0 else u.left - margin)
      && r.y == (if u.top - head < 0.0 then 0.0 else if u.top - head > 1.0 then 1.0 else u.top - head)
  {
    GrownHeightIs(h, config);
    assert margin == Share(config.chin, h) && head == Share(config.headroom, h);
    hide GrownHeight, Share;
  }

  /** A 9:16 crop of height `c` is at least as large as the box. */
  ghost predicate Fitting(box: Rect, c: real, d: Display) {
    box.h <= c && box.w * d.width <= c * d.height * 9.0 / 16.0
  }

  lemma RequiredIsLeast(box: Rect, d: Display, c: real)
    requires Positive(d)
    ensures RequiredHeight(box, d) <= c <==> Fitting(box, c, d)
  {
    QuotientAtMost(Max(box.h * d.height, box.w * d.width * 16.0 / 9.0), d.height, c);
    ScaledOrder(box.h, c, d.height);
  }

  /** Too wide means that even the whole frame height, up to a millionth, makes too small a crop. */
  lemma TooWideIff(fit: MultiFit, box: Rect, config: Config, d: Display)
    requires Positive(d) && FitOf(fit, box, config, d)
    ensures fit.TooWide? <==> !Fitting(box, 1.000001, d)
  {
    RequiredIsLeast(box, d, 1.000001);
  }

  /** A fit may take a height of at least the configured and the fitting one, up to a millionth, if its crop holds. */
  lemma MultiHoldsIff(box: Rect, c: real, config: Config, d: Display)
    requires Positive(d)
    ensures MultiHolds(box, c, config, d) <==>
              && config.minCrop <= c + 0.000001 && Fitting(box, c + 0.000001, d)
              && BoxContained(ClampTarget(Target(box.x + box.w / 2.0, box.y + box.h / 2.0, c), d), box, d)
  {
    RequiredIsLeast(box, d, c + 0.000001);
    hide BoxContained, ClampTarget, RequiredHeight, Fitting;
  }

  predicate BoxInFrame(box: Rect) {
    0.0 <= box.x && 0.0 <= box.y && box.w >= 0.0 && box.h >= 0.0 && box.x + box.w <= 1.0 && box.y + box.h <= 1.0
  }

  lemma ClampedSpanHolds(at: real, size: real, crop: real, full: real)
    requires 0.0 <= at && at + size <= full && size <= crop <= full
    ensures var x := Min(Max(at + size / 2.0 - crop / 2.0, 0.0), full - crop); x <= at && at + size <= x + crop
  {
  }

  lemma MultiCropRect(box: Rect, c: real, d: Display)
    requires Wide(d) && 0.0 < c <= 1.0
    ensures var t := Target(box.x + box.w / 2.0, box.y + box.h / 2.0, c);
      CropRect(MultiCrop(box, c, d), d) == CropRect(t, d)
  {
    var t := Target(box.x + box.w / 2.0, box.y + box.h / 2.0, c);
    RawRectFits(t, d);
    ClampTargetFrames(t, d);
    TargetPixels(CropRect(t, d), d);
    FramedIffClampFixes(ClampTarget(t, d), d);
  }

  lemma ScaledCenter(at: real, size: real, full: real)
    ensures (at + size / 2.0) * full == at * full + size * full / 2.0
  {
  }

  lemma ScaledEnd(at: real, size: real, full: real)
    requires 0.0 <= at && at + size <= 1.0 && full > 0.0
    ensures 0.0 <= at * full && at * full + size * full <= full
  {
    MulNonnegative(at, full);
    ScaleOrder(at + size, 1.0, full);
    assert (at + size) * full == at * full + size * full;
  }

  lemma ScaledBox(box: Rect, d: Display)
    requires Positive(d) && BoxInFrame(box)
    ensures var b := ToPixels(box, d);
      0.0 <= b.x && b.x + b.w <= d.width && 0.0 <= b.y && b.y + b.h <= d.height
  {
    ScaledEnd(box.x, box.w, d.width);
    ScaledEnd(box.y, box.h, d.height);
  }

  lemma CenteredRect(box: Rect, c: real, d: Display)
    requires Positive(d)
    ensures var b, raw := ToPixels(box, d), RawRect(Target(box.x + box.w / 2.0, box.y + box.h / 2.0, c), d);
      && raw.h == c * d.height && raw.w == raw.h * 9.0 / 16.0
      && raw.x == b.x + b.w / 2.0 - raw.w / 2.0 && raw.y == b.y + b.h / 2.0 - raw.h / 2.0
  {
    ScaledCenter(box.x, box.w, d.width);
    ScaledCenter(box.y, box.h, d.height);
  }

  lemma FittingInPixels(box: Rect, c: real, d: Display)
    requires Positive(d) && Fitting(box, c, d)
    ensures ToPixels(box, d).h <= c * d.height && ToPixels(box, d).w <= c * d.height * 9.0 / 16.0
  {
    ScaleOrder(box.h, c, d.height);
  }

  /** On a wide display a box in the frame lies in every fitting crop around its center. */
  lemma FittingCropHoldsBox(box: Rect, c: real, d: Display)
    requires Wide(d) && BoxInFrame(box) && Fitting(box, c, d) && 0.0 < c <= 1.0
    ensures BoxContained(MultiCrop(box, c, d), box, d)
  {
    hide RawRect, ToPixels, MultiCrop, BoxInFrame, Fitting;
    var t := Target(box.x + box.w / 2.0, box.y + box.h / 2.0, c);
    var b, raw := ToPixels(box, d), RawRect(t, d);
    RawRectFits(t, d);
    MultiCropRect(box, c, d);
    ScaledBox(box, d);
    CenteredRect(box, c, d);
    FittingInPixels(box, c, d);
    ClampedSpanHolds(b.x, b.w, raw.w, d.width);
    ClampedSpanHolds(b.y, b.h, raw.h, d.height);
  }

  /** The smallest height that is neither below the least tried nor too small for the box holds it. */
  lemma LeastHolds(box: Rect, config: Config, d: Display) returns (least: real)
    requires Wide(d) && Usable(config) && BoxInFrame(box) && Fitting(box, 1.0, d)
    ensures least in MultiHeights(box, config, d) && MultiHolds(box, least, config, d)
    ensures forall c :: 0.000001 <= c && config.minCrop <= c && Fitting(box, c, d) ==> least <= c
  {
    RequiredIsLeast(box, d, 1.0);
    var needed, lower := LeastHeight(box, config, d), LowerHeight(config);
    least := Max(needed, 0.000001);
    TriedHeights(Min(1.0, needed), config, lower);
    assert NearestTo(least, Min(1.0, needed), lower);
    RequiredIsLeast(box, d, least);
    FittingCropHoldsBox(box, least, d);
    forall c | 0.000001 <= c && config.minCrop <= c && Fitting(box, c, d) ensures least <= c {
      RequiredIsLeast(box, d, c);
    }
  }

  lemma FirstIsAtMost(fit: MultiFit, box: Rect, config: Config, d: Display, least: real) returns (c: real)
    requires Positive(d) && FitOf(fit, box, config, d) && RequiredHeight(box, d) <= 1.0
    requires least in MultiHeights(box, config, d) && MultiHolds(box, least, config, d)
    ensures fit.Fits? && fit.target == MultiCrop(box, c, d) && c <= least
    ensures c in MultiHeights(box, config, d) && MultiHolds(box, c, config, d)
  {
    hide MultiHolds, MultiCrop, RequiredHeight;
    var heights := MultiHeights(box, config, d);
    var j :| 0 <= j < |heights| && heights[j] == least;
    var i :| 0 <= i < |heights| && MultiHolds(box, heights[i], config, d) && fit.target == MultiCrop(box, heights[i], d)
             && forall k | 0 <= k < i :: !MultiHolds(box, heights[k], config, d);
    c := heights[i];
    TriedHeights(Min(1.0, LeastHeight(box, config, d)), config, LowerHeight(config));
    assert i < j ==> RealLe(heights[i], heights[j]);
  }

  /**
   Every box in the frame that a crop of the whole height is wide enough for is fitted, and up to a
   millionth by the least height: nothing smaller fits it, and it takes no more than any height that does.
   */
  lemma FitIsLeast(fit: MultiFit, box: Rect, config: Config, d: Display)
    requires Wide(d) && Usable(config) && BoxInFrame(box) && Fitting(box, 1.0, d) && FitOf(fit, box, config, d)
    ensures fit.Fits? && BoxContained(fit.target, box, d)
    ensures config.minCrop <= fit.target.height + 0.000001 && Fitting(box, fit.target.height + 0.000001, d)
    ensures forall c :: 0.000001 <= c && config.minCrop <= c && Fitting(box, c, d) ==> fit.target.height <= c
  {
    var least := LeastHolds(box, config, d);
    RequiredIsLeast(box, d, 1.0);
    var c := FirstIsAtMost(fit, box, config, d, least);
    CandidateRange(Min(1.0, LeastHeight(box, config, d)), config, c);
    ClampKeepsHeight(Target(box.x + box.w / 2.0, box.y + box.h / 2.0, c), d);
    MultiHoldsIff(box, c, config, d);
    hide MultiHolds, MultiHeights, Fitting, BoxContained, ClampTarget, FitOf, BoxInFrame;
  }
}
