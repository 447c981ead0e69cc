/** Crop rectangles, the clamp every crop passes through, and the 9:16 crop targets built on it. */
module CropGeometry {
  /** Display dimensions in pixels. */
  datatype Display = Display(width: real, height: real)

  datatype Rect = Rect(x: real, y: real, w: real, h: real)

  /** A 9:16 crop window: normalized center and height fraction. */
  datatype Target = Target(centerX: real, centerY: real, height: real)

  const EDGE_EPSILON := 0.000001

  predicate Positive(d: Display) { d.width > 0.0 && d.height > 0.0 }

  /** At least as wide as 9:16. */
  predicate Wide(d: Display) { Positive(d) && 16.0 * d.width >= 9.0 * d.height }

  function Min(a: real, b: real): real { if a <= b then a else b }

  function Max(a: real, b: real): real { if a >= b then a else b }

  function Abs(a: real): real { if a >= 0.0 then a else -a }

  function ClampCrop(r: Rect, d: Display): Rect {
    var w := Min(r.w, d.width);
    var h := Min(r.h, d.height);
    Rect(Min(Max(r.x, 0.0), d.width - w), Min(Max(r.y, 0.0), d.height - h), w, h)
  }

  predicate Inside(r: Rect, d: Display) {
    0.0 <= r.x && r.x + r.w <= d.width && 0.0 <= r.y && r.y + r.h <= d.height
  }

  /** A crop that fits is moved, by as little as possible and along each axis on its own; never scaled. */
  lemma ClampIsNearestInside(r: Rect, d: Display, q: Rect)
    requires Positive(d) && r.w <= d.width && r.h <= d.height
    requires Inside(q, d) && q.w == r.w && q.h == r.h
    ensures var c := ClampCrop(r, d);
      && Inside(c, d) && c.w == r.w && c.h == r.h
      && Abs(c.x - r.x) <= Abs(q.x - r.x) && Abs(c.y - r.y) <= Abs(q.y - r.y)
      && (Abs(c.x - r.x) == Abs(q.x - r.x) && Abs(c.y - r.y) == Abs(q.y - r.y) ==> q == c)
  {
  }

  /** The clamp leaves a crop alone exactly when it already lies in the frame. */
  lemma ClampFixesExactlyInside(r: Rect, d: Display)
    requires Positive(d) && r.w >= 0.0 && r.h >= 0.0
    ensures ClampCrop(r, d) == r <==> Inside(r, d)
    ensures Inside(ClampCrop(r, d), d)
  {
  }

  /** A 9:16 rectangle of pixel height `h` around a pixel center. */
  function Around(cx: real, cy: real, h: real): Rect {
    var w := h * 9.0 / 16.0;
    Rect(cx - w / 2.0, cy - h / 2.0, w, h)
  }

  function Scale(fraction: real, full: real): real { fraction * full }

  /** The unclamped rectangle of a target. */
  function RawRect(t: Target, d: Display): Rect {
    Around(Scale(t.centerX, d.width), Scale(t.centerY, d.height), Scale(t.height, d.height))
  }

  function CropRect(t: Target, d: Display): Rect {
    ClampCrop(RawRect(t, d), d)
  }

  /** The target whose crop is the pixel rectangle `r`. */
  function TargetOf(r: Rect, d: Display): Target
    requires Positive(d)
  {
    Target((r.x + r.w / 2.0) / d.width, (r.y + r.h / 2.0) / d.height, r.h / d.height)
  }

  function ClampTarget(t: Target, d: Display): Target
    requires Positive(d)
  {
    TargetOf(CropRect(t, d), d)
  }

  function CenterTarget(d: Display): Target
    requires Positive(d)
  {
    ClampTarget(Target(0.5, 0.5, 1.0), d)
  }

  lemma MulNonnegative(a: real, b: real)
    requires a >= 0.0 && b >= 0.0
    ensures a * b >= 0.0
  {
  }

  lemma Undivide(a: real, b: real)
    requires b > 0.0
    ensures (a / b) * b == a
  {
  }

  lemma ClampAroundSettles(cx: real, cy: real, h: real, d: Display)
    requires Positive(d)
    ensures var r := ClampCrop(Around(cx, cy, h), d);
      var r' := ClampCrop(Around(r.x + r.w / 2.0, r.y + r.h / 2.0, r.h), d);
      r'.x + r'.w / 2.0 == r.x + r.w / 2.0 && r'.y + r'.h / 2.0 == r.y + r.h / 2.0 && r'.h == r.h
  {
  }

  lemma TargetPixels(r: Rect, d: Display)
    requires Positive(d)
    ensures RawRect(TargetOf(r, d), d) == Around(r.x + r.w / 2.0, r.y + r.h / 2.0, r.h)
  {
    Undivide(r.x + r.w / 2.0, d.width);
    Undivide(r.y + r.h / 2.0, d.height);
    Undivide(r.h, d.height);
  }

  /** Clamping a clamped target changes nothing, for every target and every display. */
  lemma ClampTargetIdempotent(t: Target, d: Display)
    requires Positive(d)
    ensures ClampTarget(ClampTarget(t, d), d) == ClampTarget(t, d)
  {
    TargetPixels(CropRect(t, d), d);
    ClampAroundSettles(t.centerX * d.width, t.centerY * d.height, t.height * d.height, d);
  }

  /** The target's own rectangle lies in the frame. */
  predicate Framed(t: Target, d: Display) {
    0.0 < t.height <= 1.0 && Inside(RawRect(t, d), d)
  }

  lemma ScaledHeight(h: real, full: real)
    requires 0.0 < h <= 1.0 && full > 0.0
    ensures 0.0 < h * full <= full
  {
    var rest := (1.0 - h) * full;
    assert rest >= 0.0;
    assert rest == full - h * full;
  }

  lemma AroundFits(cx: real, cy: real, h: real, d: Display)
    requires Wide(d) && 0.0 < h <= d.height
    ensures var r := Around(cx, cy, h);
      0.0 < r.w <= d.width && 0.0 < r.h <= d.height && r.w == r.h * 9.0 / 16.0
  {
  }

  lemma RawRectFits(t: Target, d: Display)
    requires Wide(d) && 0.0 < t.height <= 1.0
    ensures var r := RawRect(t, d);
      0.0 < r.w <= d.width && 0.0 < r.h <= d.height && r.w == r.h * 9.0 / 16.0
  {
    var h := t.height * d.height;
    assert 0.0 < h <= d.height by {
      ScaledHeight(t.height, d.height);
    }
    AroundFits(t.centerX * d.width, t.centerY * d.height, h, d);
  }

  lemma Cancel(a: real, b: real)
    requires b > 0.0
    ensures (a * b) / b == a
  {
  }

  lemma TargetOfRawRect(t: Target, d: Display)
    requires Positive(d)
    ensures TargetOf(RawRect(t, d), d) == t
  {
    Cancel(t.centerX, d.width);
    Cancel(t.centerY, d.height);
    Cancel(t.height, d.height);
    var r := RawRect(t, d);
    assert r.x + r.w / 2.0 == t.centerX * d.width && r.y + r.h / 2.0 == t.centerY * d.height;
  }

  lemma ClampedRectIsInside(t: Target, d: Display)
    requires Wide(d) && 0.0 < t.height <= 1.0
    ensures var c := CropRect(t, d);
      c.h == RawRect(t, d).h && Inside(Around(c.x + c.w / 2.0, c.y + c.h / 2.0, c.h), d)
  {
    RawRectFits(t, d);
    ClampedAroundIsInside(RawRect(t, d), d);
  }

  /** On a wide display re-clamping is a no-op exactly for the framed targets. */
  lemma FramedIffClampFixes(t: Target, d: Display)
    requires Wide(d) && 0.0 < t.height <= 1.0
    ensures Framed(t, d) <==> ClampTarget(t, d) == t
    ensures Framed(t, d) ==> CropRect(t, d) == RawRect(t, d)
  {
    RawRectFits(t, d);
    if Framed(t, d) {
      ClampFixesExactlyInside(RawRect(t, d), d);
      TargetOfRawRect(t, d);
    }
    if ClampTarget(t, d) == t {
      TargetPixels(CropRect(t, d), d);
      ClampedRectIsInside(t, d);
    }
  }

  lemma ClampedRectHeight(r: Rect, h: real, d: Display)
    requires Positive(d) && 0.0 < h <= 1.0 && r.h == Scale(h, d.height)
    ensures ClampCrop(r, d).h / d.height == h
  {
    ScaledHeight(h, d.height);
    Cancel(h, d.height);
  }

  lemma ClampKeepsHeight(t: Target, d: Display)
    requires Positive(d) && 0.0 < t.height <= 1.0
    ensures ClampTarget(t, d).height == t.height
  {
    ClampedRectHeight(RawRect(t, d), t.height, d);
  }

  /** On a wide display every crop this package emits is framed and keeps its height. */
  lemma ClampTargetFrames(t: Target, d: Display)
    requires Wide(d) && 0.0 < t.height <= 1.0
    ensures Framed(ClampTarget(t, d), d) && ClampTarget(t, d).height == t.height
  {
    ClampKeepsHeight(t, d);
    ClampedRectIsInside(t, d);
    TargetPixels(CropRect(t, d), d);
  }

  lemma ClampedAroundIsInside(r: Rect, d: Display)
    requires Positive(d) && 0.0 < r.w <= d.width && 0.0 < r.h <= d.height && r.w == r.h * 9.0 / 16.0
    ensures var c := ClampCrop(r, d); Inside(Around(c.x + c.w / 2.0, c.y + c.h / 2.0, c.h), d)
  {
  }
}
