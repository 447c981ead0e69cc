/** The crop of a path at each time: held at the ends, reached at every keyframe, eased in between. */
module CropTimes {
  import opened CropGeometry
  import opened CropPath
  import opened KeyframeLists
  import opened Wrappers

  /** The share of the way at progress `p`: slow at both ends. */
  function Eased(p: real): real { p * p * (3.0 - 2.0 * p) }

  /** `p` is the progress from `a` to `b` at time `t`, none over less than a millionth of a second. */
  predicate ProgressIs(p: real, a: Keyframe, b: Keyframe, t: real) {
    if b.time - a.time > 0.000001 then p * (b.time - a.time) == t - a.time else p == 0.0
  }

  function Share(e: real, way: real): real { e * way }

  /** The crop has gone the share `e` of the way from `a` to `b`, in each coordinate. */
  predicate GoneBy(crop: Target, a: Target, b: Target, e: real) {
    && crop.centerX == a.centerX + Share(e, b.centerX - a.centerX)
    && crop.centerY == a.centerY + Share(e, b.centerY - a.centerY)
    && crop.height == a.height + Share(e, b.height - a.height)
  }

  predicate EasedBy(crop: Target, a: Keyframe, b: Keyframe, t: real, p: real) {
    ProgressIs(p, a, b, t) && GoneBy(crop, a.target, b.target, Eased(p))
  }

  ghost predicate EasesBetween(crop: Target, a: Keyframe, b: Keyframe, t: real) {
    exists p :: EasedBy(crop, a, b, t, p)
  }

  predicate Spans(path: seq<Keyframe>, i: int, t: real) {
    0 <= i < |path| - 1 && path[i].time <= t <= path[i + 1].time
  }

  /** The first segment that spans `t`. */
  ghost predicate FirstSpans(path: seq<Keyframe>, i: int, t: real) {
    Spans(path, i, t) && forall k | 0 <= k < i :: !Spans(path, k, t)
  }

  /** The crop of the path at `t`, if it has one. */
  ghost predicate CropIs(crop: Option<Target>, path: seq<Keyframe>, t: real) {
    if path == [] then crop == None
    else if t <= path[0].time then crop == Some(path[0].target)
    else if t >= path[|path| - 1].time then crop == Some(path[|path| - 1].target)
    else match crop
      case None => forall i :: !Spans(path, i, t)
      case Some(c) => exists i :: FirstSpans(path, i, t) && EasesBetween(c, path[i], path[i + 1], t)
  }

  lemma LerpGoes(a: real, b: real, e: real)
    ensures Lerp(a, b, e) == a + Share(e, b - a)
  {
  }

  lemma ProgressOf(a: Keyframe, b: Keyframe, t: real)
    ensures ProgressIs(Progress(a, b, t), a, b, t)
  {
    if b.time - a.time > 0.000001 {
      Undivide(t - a.time, b.time - a.time);
    }
  }

  lemma SegmentEases(a: Keyframe, b: Keyframe, t: real)
    ensures EasesBetween(SegmentTarget(a, b, t), a, b, t)
  {
    var p := Progress(a, b, t);
    ProgressOf(a, b, t);
    LerpGoes(a.target.centerX, b.target.centerX, Smoothstep(p));
    LerpGoes(a.target.centerY, b.target.centerY, Smoothstep(p));
    LerpGoes(a.target.height, b.target.height, Smoothstep(p));
    assert Smoothstep(p) == Eased(p);
    hide Progress, ProgressIs, Smoothstep, Eased, Lerp, Share;
    assert EasedBy(SegmentTarget(a, b, t), a, b, t, p);
  }

  lemma {:induction false} SearchFindsFirst(path: seq<Keyframe>, i: nat, t: real)
    requires forall k | 0 <= k < i :: !Spans(path, k, t)
    ensures match SearchSegments(path, i, t)
      case None => forall k :: !Spans(path, k, t)
      case Some(c) => exists k :: FirstSpans(path, k, t) && EasesBetween(c, path[k], path[k + 1], t)
    decreases |path| - i
  {
    if i + 1 < |path| {
      if path[i].time <= t <= path[i + 1].time {
        SegmentEases(path[i], path[i + 1], t);
        assert FirstSpans(path, i, t);
      } else {
        assert !Spans(path, i, t);
        SearchFindsFirst(path, i + 1, t);
      }
    }
  }

  /** So it is for every path and every time. */
  lemma InterpolatedIsCrop(path: seq<Keyframe>, t: real)
    ensures CropIs(InterpolatedTarget(path, t), path, t)
  {
    SearchFindsFirst(path, 0, t);
    hide SearchSegments, EasesBetween;
  }

  /** A path whose times rise passes through each of its keyframes. */
  lemma PassesThroughKeyframes(path: seq<Keyframe>, i: nat)
    requires Rising(path, 0.000001) && i < |path|
    ensures InterpolatedTarget(path, path[i].time) == Some(path[i].target)
  {
    var t := path[i].time;
    InterpolatedIsCrop(path, t);
    hide InterpolatedTarget;
    if 0 < i < |path| - 1 {
      assert Spans(path, i - 1, t);
      var k :| FirstSpans(path, k, t) && EasesBetween(InterpolatedTarget(path, t).value, path[k], path[k + 1], t);
      assert k == i - 1;
      ArrivesAt(InterpolatedTarget(path, t).value, path[k], path[i]);
    }
  }

  lemma ArrivesAt(crop: Target, a: Keyframe, b: Keyframe)
    requires EasesBetween(crop, a, b, b.time) && b.time - a.time > 0.000001
    ensures crop == b.target
  {
    var p :| EasedBy(crop, a, b, b.time, p);
    Cancel(p, b.time - a.time);
    Cancel(1.0, b.time - a.time);
    assert p == 1.0 && Eased(p) == 1.0;
  }
}
