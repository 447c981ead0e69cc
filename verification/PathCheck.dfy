/** The check that a finished crop path keeps every preserved subject in view. */
module PathCheck {
  import opened Wrappers
  import opened CropGeometry
  import opened CropPath
  import opened Sorting

  function AllSamples(tracks: seq<Track>): seq<Sample> {
    if tracks == [] then [] else tracks[0].samples + AllSamples(tracks[1..])
  }

  predicate SampleLe(a: Sample, b: Sample) {
    a.time < b.time || (a.time == b.time && (a.cx < b.cx || (a.cx == b.cx && a.cy <= b.cy)))
  }

  lemma SampleLeIsTotal()
    ensures TotalOrder(SampleLe)
  {
  }

  predicate Near(a: real, b: real, hold: real) {
    Abs(a - b) <= hold + EDGE_EPSILON
  }

  /** The observations reach both scene edges and leave no gap longer than the hold. */
  predicate Observed(samples: seq<Sample>, start: real, end: real, hold: real)
    requires samples != []
  {
    && samples[0].time - start <= hold + EDGE_EPSILON
    && end - samples[|samples| - 1].time <= hold + EDGE_EPSILON
    && (forall i | 0 <= i < |samples| - 1 :: samples[i + 1].time - samples[i].time <= hold + EDGE_EPSILON)
  }

  predicate InScene(t: real, start: real, end: real) {
    start - EDGE_EPSILON <= t <= end + EDGE_EPSILON
  }

  function Midpoint(path: seq<Keyframe>, i: nat): real
    requires i + 1 < |path|
  {
    (path[i].time + path[i + 1].time) / 2.0
  }

  /** Keyframe times, segment midpoints and in-scene observation times. */
  function CheckTimes(path: seq<Keyframe>, samples: seq<Sample>, start: real, end: real): set<real> {
    (set i | 0 <= i < |path| :: path[i].time)
    + (set i | 0 <= i < |path| - 1 :: Midpoint(path, i))
    + (set i | 0 <= i < |samples| && InScene(samples[i].time, start, end) :: samples[i].time)
  }

  /** Index of the first observation at the least distance from `t`. */
  function Nearest(samples: seq<Sample>, t: real): (n: nat)
    requires samples != []
    ensures n < |samples|
    ensures forall i | 0 <= i < |samples| :: Abs(samples[n].time - t) <= Abs(samples[i].time - t)
    ensures forall i | 0 <= i < n :: Abs(samples[n].time - t) < Abs(samples[i].time - t)
  {
    if |samples| == 1 then 0
    else
      var last := |samples| - 1;
      var n := Nearest(samples[..last], t);
      if Abs(samples[last].time - t) < Abs(samples[n].time - t) then last else n
  }

  function NearestSample(track: Track, t: real): Sample
    requires track.samples != []
  {
    track.samples[Nearest(track.samples, t)]
  }

  predicate NearlyObserved(track: Track, t: real, hold: real) {
    track.samples != [] && Near(NearestSample(track, t).time, t, hold)
  }

  predicate TrackSafe(crop: Target, track: Track, t: real, hold: real, d: Display) {
    NearlyObserved(track, t, hold) && BoxContained(crop, SampleBox(NearestSample(track, t)), d)
  }

  predicate TimeSafe(path: seq<Keyframe>, tracks: seq<Track>, t: real, hold: real, d: Display) {
    InterpolatedTarget(path, t).Some?
    && forall track <- tracks :: TrackSafe(InterpolatedTarget(path, t).value, track, t, hold, d)
  }

  ghost predicate PathSafe(path: seq<Keyframe>, tracks: seq<Track>, start: real, end: real, hold: real, d: Display) {
    && |path| >= 2
    && AllSamples(tracks) != []
    && var samples := SortBy(AllSamples(tracks), SampleLe);
      && |samples| > 0
      && Observed(samples, start, end, hold)
      && (forall t <- CheckTimes(path, samples, start, end) :: TimeSafe(path, tracks, t, hold, d))
  }

  method IsObserved(samples: seq<Sample>, start: real, end: real, hold: real) returns (ok: bool)
    requires samples != []
    ensures ok == Observed(samples, start, end, hold)
  {
    if samples[0].time - start > hold + EDGE_EPSILON {
      return false;
    }
    if end - samples[|samples| - 1].time > hold + EDGE_EPSILON {
      return false;
    }
    for i := 0 to |samples| - 1
      invariant forall k | 0 <= k < i :: samples[k + 1].time - samples[k].time <= hold + EDGE_EPSILON
    {
      if samples[i + 1].time - samples[i].time > hold + EDGE_EPSILON {
        return false;
      }
    }
    return true;
  }

  method CollectTimes(path: seq<Keyframe>, samples: seq<Sample>, start: real, end: real) returns (times: set<real>)
    requires |path| >= 2
    ensures times == CheckTimes(path, samples, start, end)
  {
    times := set i | 0 <= i < |path| :: path[i].time;
    ghost var keyframeTimes := times;
    for i := 0 to |path| - 1
      invariant times == keyframeTimes + set k | 0 <= k < i :: Midpoint(path, k)
    {
      times := times + {Midpoint(path, i)};
    }
    ghost var pathTimes := times;
    for i := 0 to |samples|
      invariant times == pathTimes
                  + set k | 0 <= k < i && InScene(samples[k].time, start, end) :: samples[k].time
    {
      if InScene(samples[i].time, start, end) {
        times := times + {samples[i].time};
      }
    }
  }

  /** The nearest observations that fall within the hold; None when a track has no observation. */
  method GatherNearest(tracks: seq<Track>, t: real, hold: real) returns (r: Option<seq<Sample>>)
    ensures r.None? <==> exists k | 0 <= k < |tracks| :: tracks[k].samples == []
    ensures r.Some? ==> |r.value| <= |tracks|
    ensures r.Some? ==> (|r.value| == |tracks| <==> forall k | 0 <= k < |tracks| :: NearlyObserved(tracks[k], t, hold))
    ensures r.Some? && |r.value| == |tracks| ==>
              forall k | 0 <= k < |tracks| :: tracks[k].samples != [] && r.value[k] == NearestSample(tracks[k], t)
  {
    hide NearestSample;
    var observed: seq<Sample> := [];
    for i := 0 to |tracks|
      invariant |observed| <= i
      invariant forall k | 0 <= k < i :: tracks[k].samples != []
      invariant |observed| == i <==> forall k | 0 <= k < i :: NearlyObserved(tracks[k], t, hold)
      invariant |observed| == i ==> forall k | 0 <= k < i :: observed[k] == NearestSample(tracks[k], t)
    {
      if tracks[i].samples == [] {
        return None;
      }
      if NearlyObserved(tracks[i], t, hold) {
        observed := observed + [NearestSample(tracks[i], t)];
      }
    }
    return Some(observed);
  }

  /** One checked time: the interpolated crop against each track's nearest observation. */
  method CheckTime(path: seq<Keyframe>, tracks: seq<Track>, t: real, hold: real, d: Display) returns (ok: bool)
    requires tracks != []
    ensures ok == TimeSafe(path, tracks, t, hold, d)
  {
    var crop := InterpolatedTarget(path, t);
    if crop.None? {
      return false;
    }
    var observed := GatherNearest(tracks, t, hold);
    if observed.None? {
      ghost var k :| 0 <= k < |tracks| && tracks[k].samples == [];
      assert !TrackSafe(crop.value, tracks[k], t, hold, d);
      return false;
    }
    if |observed.value| < |tracks| {
      ghost var k :| 0 <= k < |tracks| && !NearlyObserved(tracks[k], t, hold);
      assert !TrackSafe(crop.value, tracks[k], t, hold, d);
      return false;
    }
    for i := 0 to |observed.value|
      invariant forall k | 0 <= k < i :: TrackSafe(crop.value, tracks[k], t, hold, d)
    {
      if !BoxContained(crop.value, SampleBox(observed.value[i]), d) {
        assert !TrackSafe(crop.value, tracks[i], t, hold, d);
        return false;
      }
    }
    return true;
  }

  method PathPreservesSubjects(path: seq<Keyframe>, tracks: seq<Track>, start: real, end: real, hold: real, d: Display)
    returns (ok: bool)
    ensures ok <==> PathSafe(path, tracks, start, end, hold, d)
  {
    if |path| < 2 {
      return false;
    }
    var samples := SortBy(AllSamples(tracks), SampleLe);
    SortIsPermutation(AllSamples(tracks), SampleLe);
    if samples == [] {
      return false;
    }
    var observed := IsObserved(samples, start, end, hold);
    if !observed {
      return false;
    }
    var times := CollectTimes(path, samples, start, end);
    var rest := times;
    while rest != {}
      invariant rest <= times
      invariant forall t <- times - rest :: TimeSafe(path, tracks, t, hold, d)
      decreases rest
    {
      var t :| t in rest;
      var safe := CheckTime(path, tracks, t, hold, d);
      if !safe {
        return false;
      }
      rest := rest - {t};
    }
    return true;
  }

  // ---- what an accepted path guarantees -------------------------------------------

  lemma {:induction false} TrackSamplesListed(tracks: seq<Track>, i: nat, k: nat)
    requires i < |tracks| && k < |tracks[i].samples|
    ensures tracks[i].samples[k] in AllSamples(tracks)
  {
    if i > 0 {
      TrackSamplesListed(tracks[1..], i - 1, k);
    }
  }

  /**
   An accepted path shows every in-scene observation of every preserved track: at the observation's
   own time its box is inside the interpolated crop.  (Of several observations of one track at one
   time the first is meant.)
   */
  lemma AcceptedPathShowsEverySample(path: seq<Keyframe>, tracks: seq<Track>, start: real, end: real,
                                     hold: real, d: Display, i: nat, k: nat)
    requires PathSafe(path, tracks, start, end, hold, d)
    requires i < |tracks| && k < |tracks[i].samples|
    requires InScene(tracks[i].samples[k].time, start, end)
    requires forall m | 0 <= m < k :: tracks[i].samples[m].time != tracks[i].samples[k].time
    ensures var s := tracks[i].samples[k];
      InterpolatedTarget(path, s.time).Some?
      && BoxContained(InterpolatedTarget(path, s.time).value, SampleBox(s), d)
  {
    var s := tracks[i].samples[k];
    var samples := SortBy(AllSamples(tracks), SampleLe);
    TrackSamplesListed(tracks, i, k);
    SortHasSameElements(AllSamples(tracks), SampleLe);
    var at :| 0 <= at < |samples| && samples[at] == s;
    assert samples[at].time in CheckTimes(path, samples, start, end);
    assert TimeSafe(path, tracks, s.time, hold, d);
    assert TrackSafe(InterpolatedTarget(path, s.time).value, tracks[i], s.time, hold, d);
    assert Nearest(tracks[i].samples, s.time) == k;
  }

  lemma {:induction false} SomeSampleNear(samples: seq<Sample>, start: real, end: real, hold: real, t: real)
    requires samples != [] && Observed(samples, start, end, hold) && start <= t <= end
    requires Sorted(samples, SampleLe) && hold >= 0.0
    ensures exists k :: 0 <= k < |samples| && Near(samples[k].time, t, hold)
  {
    var last := |samples| - 1;
    if t >= samples[last].time {
      assert Near(samples[last].time, t, hold);
    } else if t <= samples[0].time {
      assert Near(samples[0].time, t, hold);
    } else {
      var k := 0;
      while samples[k + 1].time < t
        invariant 0 <= k < last && samples[k].time < t
        decreases last - k
      {
        k := k + 1;
      }
      assert Near(samples[k].time, t, hold);
    }
  }

  /** No instant of the scene is farther than the hold window from an observation. */
  lemma AcceptedPathIsObserved(path: seq<Keyframe>, tracks: seq<Track>, start: real, end: real,
                               hold: real, d: Display, t: real)
    requires PathSafe(path, tracks, start, end, hold, d) && start <= t <= end && hold >= 0.0
    ensures exists s :: s in AllSamples(tracks) && Near(s.time, t, hold)
  {
    var samples := SortBy(AllSamples(tracks), SampleLe);
    SampleLeIsTotal();
    SortIsSorted(AllSamples(tracks), SampleLe);
    SortHasSameElements(AllSamples(tracks), SampleLe);
    SomeSampleNear(samples, start, end, hold, t);
    var k :| 0 <= k < |samples| && Near(samples[k].time, t, hold);
    assert samples[k] in samples;
  }

  /** A path whose two keyframes share one crop shows every in-scene observation in that crop. */
  lemma AcceptedStaticCropHoldsEverySample(path: seq<Keyframe>, tracks: seq<Track>, start: real, end: real,
                                           hold: real, d: Display, i: nat, k: nat)
    requires PathSafe(path, tracks, start, end, hold, d)
    requires |path| == 2 && path[0].target == path[1].target
    requires i < |tracks| && k < |tracks[i].samples|
    requires InScene(tracks[i].samples[k].time, start, end)
    requires forall m | 0 <= m < k :: tracks[i].samples[m].time != tracks[i].samples[k].time
    ensures BoxContained(path[0].target, SampleBox(tracks[i].samples[k]), d)
  {
    var t := tracks[i].samples[k].time;
    AcceptedPathShowsEverySample(path, tracks, start, end, hold, d, i, k);
    assert SearchSegments(path, 1, t) == None;
    assert LerpTarget(path[0].target, path[0].target, Smoothstep(Progress(path[0], path[1], t))) == path[0].target;
  }
}
