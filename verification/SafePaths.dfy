/** Exactly which paths are safe, without sorting observations or searching them. */
module SafePaths {
  import opened CropGeometry
  import opened CropPath
  import opened PathCheck
  import opened Sorting

  predicate Apart(a: real, b: real, most: real) { a - b > most || b - a > most }

  /** The first of the observations nearest to `t`. */
  ghost predicate FirstNearest(samples: seq<Sample>, k: nat, t: real) {
    && k < |samples|
    && (forall i | 0 <= i < |samples| :: !Closer(samples[i].time, samples[k].time, t))
    && (forall i | 0 <= i < k :: Closer(samples[k].time, samples[i].time, t))
  }

  predicate Closer(a: real, b: real, t: real) { (if a <= t then t - a else a - t) < (if b <= t then t - b else b - t) }

  /** At `t` the crop holds the observation of the track nearest to `t`, which is within the hold. */
  ghost predicate ShownAt(crop: Target, track: Track, k: nat, t: real, hold: real, d: Display) {
    && FirstNearest(track.samples, k, t) && !Apart(track.samples[k].time, t, hold + 0.000001)
    && BoxContained(crop, SampleBox(track.samples[k]), d)
  }

  ghost predicate Shown(crop: Target, track: Track, t: real, hold: real, d: Display) {
    exists k: nat :: ShownAt(crop, track, k, t, hold, d)
  }

  lemma OneFirstNearest(samples: seq<Sample>, k: nat, n: nat, t: real)
    requires FirstNearest(samples, k, t) && FirstNearest(samples, n, t)
    ensures k == n
  {
    assert !Closer(samples[k].time, samples[n].time, t) && !Closer(samples[n].time, samples[k].time, t);
    NotBefore(samples, k, n, t);
    NotBefore(samples, n, k, t);
    hide *;
  }

  lemma NotBefore(samples: seq<Sample>, k: nat, n: nat, t: real)
    requires FirstNearest(samples, k, t) && n < |samples| && !Closer(samples[k].time, samples[n].time, t)
    ensures k <= n
  {
    hide Closer;
  }

  lemma TrackSafeIff(crop: Target, track: Track, t: real, hold: real, d: Display)
    ensures TrackSafe(crop, track, t, hold, d) <==> Shown(crop, track, t, hold, d)
  {
    if track.samples != [] {
      var n := Nearest(track.samples, t);
      assert FirstNearest(track.samples, n, t) by {
        forall i | 0 <= i < |track.samples| ensures !Closer(track.samples[i].time, track.samples[n].time, t) {
          assert Abs(track.samples[n].time - t) <= Abs(track.samples[i].time - t);
        }
        forall i | 0 <= i < n ensures Closer(track.samples[n].time, track.samples[i].time, t) {
          assert Abs(track.samples[n].time - t) < Abs(track.samples[i].time - t);
        }
      }
      hide BoxContained;
      if TrackSafe(crop, track, t, hold, d) {
        assert ShownAt(crop, track, n, t, hold, d);
      }
      forall k: nat | ShownAt(crop, track, k, t, hold, d) ensures k == n {
        OneFirstNearest(track.samples, k, n, t);
      }
    }
  }

  // ---- the times looked at ---------------------------------------------------------------------------

  predicate AtKeyframe(path: seq<Keyframe>, i: int, t: real) { 0 <= i < |path| && path[i].time == t }

  predicate Halfway(path: seq<Keyframe>, i: int, t: real) {
    0 <= i < |path| - 1 && t - path[i].time == path[i + 1].time - t
  }

  /** A keyframe's time, the time halfway between two, or that of an observation in the scene. */
  ghost predicate LookedAt(path: seq<Keyframe>, samples: seq<Sample>, start: real, end: real, t: real) {
    || (exists i :: AtKeyframe(path, i, t))
    || (exists i :: Halfway(path, i, t))
    || (exists s <- samples :: s.time == t && start - t <= 0.000001 && t - end <= 0.000001)
  }

  lemma CheckTimesIff(path: seq<Keyframe>, samples: seq<Sample>, all: seq<Sample>, start: real, end: real, t: real)
    requires forall s :: s in samples <==> s in all
    ensures t in CheckTimes(path, samples, start, end) <==> LookedAt(path, all, start, end, t)
  {
    if t in CheckTimes(path, samples, start, end) {
      if i :| 0 <= i < |path| && path[i].time == t {
        assert AtKeyframe(path, i, t);
      } else if i :| 0 <= i < |path| - 1 && Midpoint(path, i) == t {
        assert Halfway(path, i, t);
      } else {
        var i :| 0 <= i < |samples| && InScene(samples[i].time, start, end) && samples[i].time == t;
        assert samples[i] in samples;
      }
    }
    if i :| Halfway(path, i, t) {
      assert Midpoint(path, i) == t;
    }
  }

  // ---- coverage --------------------------------------------------------------------------------------

  predicate Between(a: real, c: real, b: real) { a < c < b }

  /** Observations reach both edges, and any two farther apart than the hold have one between them. */
  ghost predicate Covered(all: seq<Sample>, start: real, end: real, hold: real) {
    && (exists s <- all :: s.time - start <= hold + 0.000001)
    && (exists s <- all :: end - s.time <= hold + 0.000001)
    && (forall a <- all, b <- all | b.time - a.time > hold + 0.000001 :: exists c <- all :: Between(a.time, c.time, b.time))
  }

  lemma NextAfter(s: seq<Sample>, i: nat, t: real) returns (j: nat)
    requires i < |s| && s[i].time <= t && s[|s| - 1].time > t
    ensures i <= j < |s| - 1 && s[j].time <= t < s[j + 1].time
    decreases |s| - i
  {
    if s[i + 1].time > t {
      j := i;
    } else {
      j := NextAfter(s, i + 1, t);
    }
  }

  lemma ObservedIsCovered(s: seq<Sample>, start: real, end: real, hold: real)
    requires s != [] && Sorted(s, SampleLe) && Observed(s, start, end, hold) && hold >= 0.0
    ensures Covered(s, start, end, hold)
  {
    assert s[0] in s && s[|s| - 1] in s;
    forall a, b | a in s && b in s && b.time - a.time > hold + 0.000001
      ensures exists c <- s :: Between(a.time, c.time, b.time)
    {
      var i :| 0 <= i < |s| && s[i] == a;
      var k :| 0 <= k < |s| && s[k] == b;
      FarOnesHaveOneBetween(s, i, k, start, end, hold);
    }
  }

  lemma FarOnesHaveOneBetween(s: seq<Sample>, i: nat, k: nat, start: real, end: real, hold: real)
    requires s != [] && Sorted(s, SampleLe) && Observed(s, start, end, hold) && i < |s| && k < |s|
    requires s[k].time - s[i].time > hold + 0.000001 && hold >= 0.0
    ensures exists c <- s :: Between(s[i].time, c.time, s[k].time)
  {
    FirstAndLast(s, s[k]);
    var j := NextAfter(s, i, s[i].time);
    assert i < j ==> SampleLe(s[i], s[j]);
    assert s[j + 1].time - s[j].time <= hold + EDGE_EPSILON;
    assert s[j + 1] in s && Between(s[i].time, s[j + 1].time, s[k].time);
  }

  lemma NoneBetweenNeighbours(s: seq<Sample>, i: nat, c: Sample)
    requires Sorted(s, SampleLe) && i + 1 < |s| && c in s
    ensures !Between(s[i].time, c.time, s[i + 1].time)
  {
    var k :| 0 <= k < |s| && s[k] == c;
    assert k < i ==> SampleLe(s[k], s[i]);
    assert i + 1 < k ==> SampleLe(s[i + 1], s[k]);
  }

  lemma FirstAndLast(s: seq<Sample>, c: Sample)
    requires Sorted(s, SampleLe) && c in s
    ensures s[0].time <= c.time <= s[|s| - 1].time
  {
    var k :| 0 <= k < |s| && s[k] == c;
    assert 0 < k ==> SampleLe(s[0], s[k]);
    assert k < |s| - 1 ==> SampleLe(s[k], s[|s| - 1]);
  }

  lemma NoGap(s: seq<Sample>, i: nat, start: real, end: real, hold: real)
    requires Sorted(s, SampleLe) && Covered(s, start, end, hold) && i + 1 < |s|
    ensures s[i + 1].time - s[i].time <= hold + EDGE_EPSILON
  {
    if s[i + 1].time - s[i].time > hold + 0.000001 {
      assert s[i] in s && s[i + 1] in s;
      var c :| c in s && Between(s[i].time, c.time, s[i + 1].time);
      NoneBetweenNeighbours(s, i, c);
    }
  }

  lemma EdgesReached(s: seq<Sample>, start: real, end: real, hold: real)
    requires s != [] && Sorted(s, SampleLe) && Covered(s, start, end, hold)
    ensures s[0].time - start <= hold + 0.000001 && end - s[|s| - 1].time <= hold + 0.000001
  {
    var a :| a in s && a.time - start <= hold + 0.000001;
    var b :| b in s && end - b.time <= hold + 0.000001;
    FirstAndLast(s, a);
    FirstAndLast(s, b);
  }

  lemma CoveredIsObserved(s: seq<Sample>, start: real, end: real, hold: real)
    requires s != [] && Sorted(s, SampleLe) && Covered(s, start, end, hold)
    ensures Observed(s, start, end, hold)
  {
    hide Sorted, Covered;
    EdgesReached(s, start, end, hold);
    forall i | 0 <= i < |s| - 1 ensures s[i + 1].time - s[i].time <= hold + EDGE_EPSILON {
      NoGap(s, i, start, end, hold);
    }
  }

  lemma SameCoverage(s: seq<Sample>, all: seq<Sample>, start: real, end: real, hold: real)
    requires forall x :: x in s <==> x in all
    ensures Covered(s, start, end, hold) <==> Covered(all, start, end, hold)
  {
  }

  // ---- exactly ---------------------------------------------------------------------------------------

  /** The crop of every time looked at holds each track. */
  ghost predicate ShowsAll(path: seq<Keyframe>, tracks: seq<Track>, t: real, hold: real, d: Display) {
    && InterpolatedTarget(path, t).Some?
    && forall track <- tracks :: Shown(InterpolatedTarget(path, t).value, track, t, hold, d)
  }

  lemma TimeSafeIff(path: seq<Keyframe>, tracks: seq<Track>, t: real, hold: real, d: Display)
    ensures TimeSafe(path, tracks, t, hold, d) <==> ShowsAll(path, tracks, t, hold, d)
  {
    hide InterpolatedTarget, TrackSafe, Shown;
    if InterpolatedTarget(path, t).Some? {
      forall track | track in tracks
        ensures TrackSafe(InterpolatedTarget(path, t).value, track, t, hold, d)
           <==> Shown(InterpolatedTarget(path, t).value, track, t, hold, d)
      {
        TrackSafeIff(InterpolatedTarget(path, t).value, track, t, hold, d);
      }
    }
  }

  /** A path is accepted exactly when observations cover the scene and every time looked at shows all tracks. */
  lemma PathSafeIff(path: seq<Keyframe>, tracks: seq<Track>, start: real, end: real, hold: real, d: Display)
    requires hold >= 0.0
    ensures PathSafe(path, tracks, start, end, hold, d) <==>
              && |path| >= 2 && Covered(AllSamples(tracks), start, end, hold)
              && forall t | LookedAt(path, AllSamples(tracks), start, end, t) :: ShowsAll(path, tracks, t, hold, d)
  {
    var all := AllSamples(tracks);
    var samples := SortBy(all, SampleLe);
    SampleLeIsTotal();
    SortIsSorted(all, SampleLe);
    SortHasSameElements(all, SampleLe);
    SortIsPermutation(all, SampleLe);
    SameCoverage(samples, all, start, end, hold);
    if samples != [] {
      if Observed(samples, start, end, hold) {
        ObservedIsCovered(samples, start, end, hold);
      }
      if Covered(samples, start, end, hold) {
        CoveredIsObserved(samples, start, end, hold);
      }
    }
    hide Observed, Covered, TimeSafe, ShowsAll, SortBy, AllSamples, Sorted;
    forall t ensures t in CheckTimes(path, samples, start, end) <==> LookedAt(path, all, start, end, t)
             ensures TimeSafe(path, tracks, t, hold, d) <==> ShowsAll(path, tracks, t, hold, d)
    {
      CheckTimesIff(path, samples, all, start, end, t);
      TimeSafeIff(path, tracks, t, hold, d);
    }
  }
}
