/** Interpolated crop paths and the check that decides whether a path may be kept. */
module CropPath {
  import opened Wrappers
  import opened CropGeometry

  datatype Mode = SourceAsIs | StaticCrop | MultiSubjectFit | CenterFallback | BackgroundFill | TrackedCrop

  datatype Evidence =
    | SinglePersistentFace | FaceTrackUnstable | FaceNearSourceEdge | DetectionLost | HeroProtection
    | MultipleFaces | ContentCropped | SubjectTooWide | SourceVertical | NoFace | CropLosesSubject | Simplified

  datatype Keyframe = Keyframe(time: real, mode: Mode, target: Target, confidence: real, evidence: seq<Evidence>)

  datatype Sample = Sample(time: real, cx: real, cy: real, w: real, h: real)

  datatype Track = Track(id: nat, samples: seq<Sample>, meanScore: real)

  // ---- boxes inside crops -------------------------------------------------------

  /** The display-normalized box of one observation. */
  function SampleBox(s: Sample): Rect {
    Rect(s.cx - s.w / 2.0, s.cy - s.h / 2.0, s.w, s.h)
  }

  function ToPixels(box: Rect, d: Display): Rect {
    Rect(box.x * d.width, box.y * d.height, box.w * d.width, box.h * d.height)
  }

  predicate Covers(crop: Rect, box: Rect) {
    && box.x >= crop.x - EDGE_EPSILON
    && box.y >= crop.y - EDGE_EPSILON
    && box.x + box.w <= crop.x + crop.w + EDGE_EPSILON
    && box.y + box.h <= crop.y + crop.h + EDGE_EPSILON
  }

  predicate BoxContained(t: Target, box: Rect, d: Display) {
    Covers(CropRect(t, d), ToPixels(box, d))
  }

  // ---- interpolation ------------------------------------------------------------

  function Smoothstep(p: real): real {
    p * p * (3.0 - 2.0 * p)
  }

  function Lerp(a: real, b: real, e: real): real {
    a + (b - a) * e
  }

  function LerpTarget(a: Target, b: Target, e: real): Target {
    Target(Lerp(a.centerX, b.centerX, e), Lerp(a.centerY, b.centerY, e), Lerp(a.height, b.height, e))
  }

  function Progress(a: Keyframe, b: Keyframe, t: real): real {
    if b.time - a.time <= EDGE_EPSILON then 0.0 else (t - a.time) / (b.time - a.time)
  }

  function SegmentTarget(a: Keyframe, b: Keyframe, t: real): Target {
    LerpTarget(a.target, b.target, Smoothstep(Progress(a, b, t)))
  }

  /** The first segment from index `i` on that spans `t`. */
  function SearchSegments(path: seq<Keyframe>, i: nat, t: real): Option<Target>
    decreases |path| - i
  {
    if i + 1 >= |path| then None
    else if path[i].time <= t <= path[i + 1].time then Some(SegmentTarget(path[i], path[i + 1], t))
    else SearchSegments(path, i + 1, t)
  }

  function InterpolatedTarget(path: seq<Keyframe>, t: real): Option<Target> {
    if path == [] then None
    else if t <= path[0].time then Some(path[0].target)
    else if t >= path[|path| - 1].time then Some(path[|path| - 1].target)
    else SearchSegments(path, 0, t)
  }

  lemma SmoothstepInUnit(p: real)
    requires 0.0 <= p <= 1.0
    ensures 0.0 <= Smoothstep(p) <= 1.0
  {
    var q := 1.0 - p;
    assert Smoothstep(p) == 1.0 - q * q * (1.0 + 2.0 * p);
    MulNonnegative(p, p);
    MulNonnegative(p * p, 3.0 - 2.0 * p);
    MulNonnegative(q, q);
    MulNonnegative(q * q, 1.0 + 2.0 * p);
  }

  lemma SmoothstepMonotone(p: real, q: real)
    requires 0.0 <= p <= q <= 1.0
    ensures Smoothstep(p) <= Smoothstep(q)
  {
    var factor := 3.0 * (p + q) - 2.0 * (q * q + q * p + p * p);
    MulNonnegative(q, 1.0 - q);
    MulNonnegative(p, 1.0 - p);
    MulNonnegative(p, 1.0 - q);
    MulNonnegative(q, 1.0 - p);
    assert factor == q * (1.0 - q) * 2.0 + p * (1.0 - p) * 2.0 + p * (1.0 - q) + q * (1.0 - p);
    MulNonnegative(q - p, factor);
    assert Smoothstep(q) - Smoothstep(p) == (q - p) * factor;
  }

  lemma ProgressInUnit(a: Keyframe, b: Keyframe, t: real)
    requires a.time <= t <= b.time
    ensures 0.0 <= Progress(a, b, t) <= 1.0
  {
    var span := b.time - a.time;
    if span > EDGE_EPSILON {
      DivMonotone(0.0, t - a.time, span);
      DivMonotone(t - a.time, span, span);
    }
  }

  lemma DivMonotone(x: real, y: real, span: real)
    requires x <= y && span > 0.0
    ensures x / span <= y / span
    ensures x == 0.0 ==> x / span == 0.0
    ensures y == span ==> y / span == 1.0
  {
    var gap := y / span - x / span;
    Undivide(x, span);
    Undivide(y, span);
    assert gap * span == y - x;
    if gap < 0.0 {
      NegativeProduct(gap, span);
    }
  }

  lemma NegativeProduct(a: real, b: real)
    requires a < 0.0 && b > 0.0
    ensures a * b < 0.0
  {
  }

  lemma ProgressMonotone(a: Keyframe, b: Keyframe, t: real, u: real)
    requires a.time <= t <= u <= b.time
    ensures Progress(a, b, t) <= Progress(a, b, u)
  {
    var span := b.time - a.time;
    if span > EDGE_EPSILON {
      DivMonotone(t - a.time, u - a.time, span);
    }
  }

  function LerpRect(r: Rect, q: Rect, e: real): Rect {
    Rect(Lerp(r.x, q.x, e), Lerp(r.y, q.y, e), Lerp(r.w, q.w, e), Lerp(r.h, q.h, e))
  }

  lemma LerpScales(a: real, b: real, e: real, c: real)
    ensures Scale(Lerp(a, b, e), c) == Lerp(Scale(a, c), Scale(b, c), e)
  {
  }

  lemma AroundLerps(x0: real, x1: real, y0: real, y1: real, h0: real, h1: real, e: real)
    ensures Around(Lerp(x0, x1, e), Lerp(y0, y1, e), Lerp(h0, h1, e))
         == LerpRect(Around(x0, y0, h0), Around(x1, y1, h1), e)
  {
  }

  lemma RawRectLerps(a: Target, b: Target, e: real, d: Display)
    ensures RawRect(LerpTarget(a, b, e), d) == LerpRect(RawRect(a, d), RawRect(b, d), e)
  {
    LerpScales(a.centerX, b.centerX, e, d.width);
    LerpScales(a.centerY, b.centerY, e, d.height);
    LerpScales(a.height, b.height, e, d.height);
    AroundLerps(Scale(a.centerX, d.width), Scale(b.centerX, d.width), Scale(a.centerY, d.height),
                Scale(b.centerY, d.height), Scale(a.height, d.height), Scale(b.height, d.height), e);
  }

  lemma LerpNonnegative(u: real, v: real, e: real)
    requires u >= 0.0 && v >= 0.0 && 0.0 <= e <= 1.0
    ensures Lerp(u, v, e) >= 0.0
  {
    MulNonnegative(u, 1.0 - e);
    MulNonnegative(v, e);
    assert Lerp(u, v, e) == u * (1.0 - e) + v * e;
  }

  lemma LerpPositive(u: real, v: real, e: real)
    requires u > 0.0 && v > 0.0 && 0.0 <= e <= 1.0
    ensures Lerp(u, v, e) > 0.0
  {
    var m := Min(u, v);
    LerpNonnegative(u - m, v - m, e);
    assert Lerp(u - m, v - m, e) == Lerp(u, v, e) - m;
  }

  lemma LerpRectInside(r: Rect, q: Rect, e: real, d: Display)
    requires Inside(r, d) && Inside(q, d) && 0.0 <= e <= 1.0
    ensures Inside(LerpRect(r, q, e), d)
  {
    LerpNonnegative(r.x, q.x, e);
    LerpNonnegative(r.y, q.y, e);
    LerpNonnegative(d.width - r.x - r.w, d.width - q.x - q.w, e);
    LerpNonnegative(d.height - r.y - r.h, d.height - q.y - q.h, e);
    assert Lerp(d.width - r.x - r.w, d.width - q.x - q.w, e) == d.width - Lerp(r.x, q.x, e) - Lerp(r.w, q.w, e);
    assert Lerp(d.height - r.y - r.h, d.height - q.y - q.h, e) == d.height - Lerp(r.y, q.y, e) - Lerp(r.h, q.h, e);
  }

  /** Framed crops form a convex set. */
  lemma LerpIsFramed(a: Target, b: Target, e: real, d: Display)
    requires Framed(a, d) && Framed(b, d) && 0.0 <= e <= 1.0
    ensures Framed(LerpTarget(a, b, e), d)
  {
    hide RawRect;
    RawRectLerps(a, b, e, d);
    LerpRectInside(RawRect(a, d), RawRect(b, d), e, d);
    LerpPositive(a.height, b.height, e);
    LerpNonnegative(1.0 - a.height, 1.0 - b.height, e);
    assert Lerp(1.0 - a.height, 1.0 - b.height, e) == 1.0 - Lerp(a.height, b.height, e);
  }

  ghost predicate FramedPath(path: seq<Keyframe>, d: Display) {
    forall k <- path :: Framed(k.target, d)
  }

  ghost predicate Ascending(path: seq<Keyframe>) {
    forall i, k | 0 <= i < k < |path| :: path[i].time <= path[k].time
  }

  lemma {:induction false} SearchIsFramed(path: seq<Keyframe>, i: nat, t: real, d: Display)
    requires FramedPath(path, d)
    ensures SearchSegments(path, i, t).Some? ==> Framed(SearchSegments(path, i, t).value, d)
    ensures i + 1 < |path| && path[i].time <= t <= path[|path| - 1].time ==> SearchSegments(path, i, t).Some?
    decreases |path| - i
  {
    if i + 1 < |path| {
      if path[i].time <= t <= path[i + 1].time {
        ProgressInUnit(path[i], path[i + 1], t);
        SmoothstepInUnit(Progress(path[i], path[i + 1], t));
        LerpIsFramed(path[i].target, path[i + 1].target, Smoothstep(Progress(path[i], path[i + 1], t)), d);
      } else {
        SearchIsFramed(path, i + 1, t, d);
      }
    }
  }

  /**
   At every time a path of framed keyframes yields a crop, fully inside the frame and of exact 9:16
   shape, which re-clamping leaves unchanged.
   */
  lemma InterpolationStaysFramed(path: seq<Keyframe>, t: real, d: Display)
    requires Wide(d) && path != [] && FramedPath(path, d)
    ensures InterpolatedTarget(path, t).Some?
    ensures var c := InterpolatedTarget(path, t).value; var r := CropRect(c, d);
      && ClampTarget(c, d) == c && Inside(r, d) && 16.0 * r.w == 9.0 * r.h && r == RawRect(c, d)
  {
    SearchIsFramed(path, 0, t, d);
    var c := InterpolatedTarget(path, t).value;
    assert Framed(c, d);
    FramedIffClampFixes(c, d);
    RawRectFits(c, d);
  }

  // ---- containment between two times of one segment -----------------------------

  lemma LerpBetween(u: real, v: real, e1: real, e: real, e2: real)
    requires e1 <= e <= e2 && Lerp(u, v, e1) >= 0.0 && Lerp(u, v, e2) >= 0.0
    ensures Lerp(u, v, e) >= 0.0
  {
    if v >= u {
      MulNonnegative(v - u, e - e1);
      assert (v - u) * (e - e1) == (v - u) * e - (v - u) * e1;
    } else {
      MulNonnegative(u - v, e2 - e);
      assert (u - v) * (e2 - e) == (v - u) * e - (v - u) * e2;
    }
  }

  lemma LerpShift(u: real, v: real, c: real, e: real)
    ensures Lerp(c + u, c + v, e) == c + Lerp(u, v, e) && Lerp(c - u, c - v, e) == c - Lerp(u, v, e)
  {
  }

  lemma LerpAdds(u: real, v: real, p: real, q: real, e: real)
    ensures Lerp(u + p, v + q, e) == Lerp(u, v, e) + Lerp(p, q, e)
  {
  }

  /** One axis of a crop edge pair around an interval. */
  lemma AxisBetween(r: real, q: real, rw: real, qw: real, lo: real, hi: real, e1: real, e: real, e2: real)
    requires e1 <= e <= e2
    requires lo >= Lerp(r, q, e1) && hi <= Lerp(r, q, e1) + Lerp(rw, qw, e1)
    requires lo >= Lerp(r, q, e2) && hi <= Lerp(r, q, e2) + Lerp(rw, qw, e2)
    ensures lo >= Lerp(r, q, e) && hi <= Lerp(r, q, e) + Lerp(rw, qw, e)
  {
    LerpShift(r, q, lo, e1);
    LerpShift(r, q, lo, e);
    LerpShift(r, q, lo, e2);
    LerpBetween(lo - r, lo - q, e1, e, e2);
    LerpAdds(r, q, rw, qw, e1);
    LerpAdds(r, q, rw, qw, e);
    LerpAdds(r, q, rw, qw, e2);
    LerpShift(r + rw, q + qw, -hi, e1);
    LerpShift(r + rw, q + qw, -hi, e);
    LerpShift(r + rw, q + qw, -hi, e2);
    LerpBetween(-hi + (r + rw), -hi + (q + qw), e1, e, e2);
  }

  lemma CoversBetween(r: Rect, q: Rect, box: Rect, e1: real, e: real, e2: real)
    requires e1 <= e <= e2 && Covers(LerpRect(r, q, e1), box) && Covers(LerpRect(r, q, e2), box)
    ensures Covers(LerpRect(r, q, e), box)
  {
    AxisBetween(r.x, q.x, r.w, q.w, box.x + EDGE_EPSILON, box.x + box.w - EDGE_EPSILON, e1, e, e2);
    AxisBetween(r.y, q.y, r.h, q.h, box.y + EDGE_EPSILON, box.y + box.h - EDGE_EPSILON, e1, e, e2);
  }

  lemma SegmentRect(a: Keyframe, b: Keyframe, t: real, d: Display)
    requires Wide(d) && Framed(a.target, d) && Framed(b.target, d) && a.time <= t <= b.time
    ensures CropRect(SegmentTarget(a, b, t), d)
         == LerpRect(RawRect(a.target, d), RawRect(b.target, d), Smoothstep(Progress(a, b, t)))
  {
    var e := Smoothstep(Progress(a, b, t));
    ProgressInUnit(a, b, t);
    SmoothstepInUnit(Progress(a, b, t));
    LerpIsFramed(a.target, b.target, e, d);
    FramedIffClampFixes(LerpTarget(a.target, b.target, e), d);
    RawRectLerps(a.target, b.target, e, d);
  }

  /** A fixed box inside the crop at two times of one segment is inside it at all times between. */
  lemma SegmentContainment(a: Keyframe, b: Keyframe, t1: real, t: real, t2: real, box: Rect, d: Display)
    requires Wide(d) && Framed(a.target, d) && Framed(b.target, d)
    requires a.time <= t1 <= t <= t2 <= b.time
    requires BoxContained(SegmentTarget(a, b, t1), box, d) && BoxContained(SegmentTarget(a, b, t2), box, d)
    ensures BoxContained(SegmentTarget(a, b, t), box, d)
  {
    SegmentRect(a, b, t1, d);
    SegmentRect(a, b, t, d);
    SegmentRect(a, b, t2, d);
    ProgressInUnit(a, b, t1);
    ProgressInUnit(a, b, t);
    ProgressInUnit(a, b, t2);
    ProgressMonotone(a, b, t1, t);
    ProgressMonotone(a, b, t, t2);
    SmoothstepMonotone(Progress(a, b, t1), Progress(a, b, t));
    SmoothstepMonotone(Progress(a, b, t), Progress(a, b, t2));
    CoversBetween(RawRect(a.target, d), RawRect(b.target, d), ToPixels(box, d),
                  Smoothstep(Progress(a, b, t1)), Smoothstep(Progress(a, b, t)), Smoothstep(Progress(a, b, t2)));
  }
}
