/** One scene: its crop path by mode, kept only when the path provably keeps its subjects in view. */
module SceneFraming {
  import opened Wrappers
  import opened CropGeometry
  import opened CropPath
  import opened CropTargets
  import opened PathCheck
  import opened TrackedPath

  const MAX_FACE_TRACKS := 3

  function Sum(values: seq<real>): real {
    if values == [] then 0.0 else Sum(values[..|values| - 1]) + values[|values| - 1]
  }

  function Mean(values: seq<real>): real
    requires values != []
  {
    Sum(values) / |values| as real
  }

  lemma {:induction false} SumAtLeast(values: seq<real>, lo: real)
    requires forall v <- values :: lo <= v
    ensures Scale(|values| as real, lo) <= Sum(values)
  {
    if values != [] {
      var front := values[..|values| - 1];
      assert forall v <- front :: v in values;
      SumAtLeast(front, lo);
      assert values[|values| - 1] in values;
      assert Scale(|front| as real + 1.0, lo) == Scale(|front| as real, lo) + lo;
    }
  }

  lemma {:induction false} SumAtMost(values: seq<real>, hi: real)
    requires forall v <- values :: v <= hi
    ensures Sum(values) <= Scale(|values| as real, hi)
  {
    if values != [] {
      var front := values[..|values| - 1];
      assert forall v <- front :: v in values;
      SumAtMost(front, hi);
      assert values[|values| - 1] in values;
      assert Scale(|front| as real + 1.0, hi) == Scale(|front| as real, hi) + hi;
    }
  }

  /** A mean lies within any bounds on what it averages. */
  lemma MeanIsAtLeast(values: seq<real>, lo: real)
    requires values != [] && forall v <- values :: lo <= v
    ensures lo <= Mean(values)
  {
    var n := |values| as real;
    SumAtLeast(values, lo);
    DivMonotone(Scale(n, lo), Sum(values), n);
    Cancel(lo, n);
  }

  lemma MeanIsAtMost(values: seq<real>, hi: real)
    requires values != [] && forall v <- values :: v <= hi
    ensures Mean(values) <= hi
  {
    var n := |values| as real;
    SumAtMost(values, hi);
    DivMonotone(Sum(values), Scale(n, hi), n);
    Cancel(hi, n);
  }

  /** The average observation of a track. */
  function MeanBox(samples: seq<Sample>): Sample
    requires samples != []
  {
    Sample(0.0, Mean(seq(|samples|, i requires 0 <= i < |samples| => samples[i].cx)),
           Mean(seq(|samples|, i requires 0 <= i < |samples| => samples[i].cy)),
           Mean(seq(|samples|, i requires 0 <= i < |samples| => samples[i].w)),
           Mean(seq(|samples|, i requires 0 <= i < |samples| => samples[i].h)))
  }

  predicate CropMode(mode: Mode) { mode.TrackedCrop? || mode.StaticCrop? || mode.MultiSubjectFit? }

  function FirstFew(tracks: seq<Track>): seq<Track> {
    if |tracks| > MAX_FACE_TRACKS then tracks[..MAX_FACE_TRACKS] else tracks
  }

  function Confidence(persistent: seq<Track>): real {
    if persistent == [] then 0.0 else UnitClamp(persistent[0].meanScore)
  }

  /** The mode, crop, evidence and confidence a static mode resolves to. */
  datatype Still = Still(mode: Mode, target: Target, evidence: seq<Evidence>, confidence: real)

  /** The confidence in the first subject, none without one. */
  predicate FirstConfidence(confidence: real, persistent: seq<Track>) {
    if persistent == [] then confidence == 0.0 else ConfidenceIs(confidence, persistent[0].meanScore)
  }

  /** The center crop, for the reason given. */
  predicate FallsBack(still: Still, mode: Mode, evidence: seq<Evidence>, d: Display)
    requires Positive(d)
  {
    still == Still(mode, CenterTarget(d), evidence, 0.0)
  }

  /** One subject: the crop fitted to the mean of its boxes. */
  ghost predicate ResolvesOne(still: Still, persistent: seq<Track>, config: Config, d: Display)
    requires Positive(d)
  {
    if persistent == [] then FallsBack(still, CenterFallback, [FaceTrackUnstable], d)
    else if persistent[0].samples == [] || Unfit(MeanBox(persistent[0].samples), config, d)
    then FallsBack(still, BackgroundFill, [FaceNearSourceEdge], d)
    else && still.mode.StaticCrop? && still.evidence == [SinglePersistentFace]
         && FirstConfidence(still.confidence, persistent)
         && Toward(still.target, true, MeanBox(persistent[0].samples), config, d)
         && BoxContained(still.target, SampleBox(MeanBox(persistent[0].samples)), d)
  }

  /** Several subjects: the crop fitted to the first three. */
  ghost predicate ResolvesMany(still: Still, few: seq<Track>, fit: MultiFit, persistent: seq<Track>, config: Config,
                               d: Display)
    requires Positive(d)
  {
    && few == (if |persistent| > 3 then persistent[..3] else persistent)
    && (if AllSamples(few) == [] then fit.NoFit?
        else exists u :: UnionOf(u, few) && FitOf(fit, ExpandedBox(u, config), config, d))
    && match fit
       case Fits(target) => && still.mode.MultiSubjectFit? && still.target == target && still.evidence == [MultipleFaces]
                            && FirstConfidence(still.confidence, persistent)
       case TooWide => FallsBack(still, BackgroundFill, [MultipleFaces, ContentCropped, SubjectTooWide], d)
       case NoFit => FallsBack(still, BackgroundFill, [MultipleFaces, ContentCropped], d)
  }

  /** A static mode keeps its name with a crop for its subjects, or falls back to the center crop and says why. */
  ghost predicate Resolves(still: Still, mode: Mode, persistent: seq<Track>, config: Config, d: Display)
    requires Positive(d)
  {
    && (Usable(config) ==> InRange(still.target, config, d))
    && match mode
       case SourceAsIs => still == Still(SourceAsIs, CenterTarget(d), [SourceVertical], 1.0)
       case StaticCrop => ResolvesOne(still, persistent, config, d)
       case MultiSubjectFit => exists few, fit :: ResolvesMany(still, few, fit, persistent, config, d)
       case CenterFallback => && still.mode.CenterFallback? && still.target == CenterTarget(d)
                              && still.evidence == [NoFace] && FirstConfidence(still.confidence, persistent)
       case BackgroundFill => FallsBack(still, BackgroundFill, [], d)
       case TrackedCrop => true
  }

  /** `edges` lie half a width beside `centers`, toward `side`. */
  ghost predicate Beside(edges: seq<real>, centers: seq<real>, widths: seq<real>, side: real) {
    && |edges| == |centers| == |widths|
    && forall i | 0 <= i < |edges| :: edges[i] == centers[i] + Scale(side, widths[i])
  }

  lemma {:induction false} SumBeside(edges: seq<real>, centers: seq<real>, widths: seq<real>, side: real)
    requires Beside(edges, centers, widths, side)
    ensures Sum(edges) == Sum(centers) + Scale(side, Sum(widths))
  {
    if edges != [] {
      var n := |edges| - 1;
      SumBeside(edges[..n], centers[..n], widths[..n], side);
      assert Scale(side, Sum(widths[..n]) + widths[n]) == Scale(side, Sum(widths[..n])) + Scale(side, widths[n]);
    }
  }

  lemma QuotientBeside(a: real, b: real, c: real, side: real, n: real)
    requires n > 0.0 && a == b + Scale(side, c)
    ensures a / n == b / n + Scale(side, c / n)
  {
    Undivide(b, n);
    Undivide(c, n);
    assert (b / n + Scale(side, c / n)) * n == a by {
      assert Scale(side, c / n) * n == Scale(side, c / n * n);
    }
    Cancel(b / n + Scale(side, c / n), n);
  }

  lemma MeanBeside(edges: seq<real>, centers: seq<real>, widths: seq<real>, side: real)
    requires Beside(edges, centers, widths, side) && edges != []
    ensures Mean(edges) == Mean(centers) + Scale(side, Mean(widths))
  {
    SumBeside(edges, centers, widths, side);
    QuotientBeside(Sum(edges), Sum(centers), Sum(widths), side, |edges| as real);
  }

  /** The edges of the mean box lie within any bound on the edges it averages. */
  lemma MeanAtLeast(centers: seq<real>, widths: seq<real>, side: real, lo: real)
    requires |centers| == |widths| > 0
    requires forall i | 0 <= i < |centers| :: lo <= centers[i] + Scale(side, widths[i])
    ensures lo <= Mean(centers) + Scale(side, Mean(widths))
  {
    var edges := seq(|centers|, i requires 0 <= i < |centers| => centers[i] + Scale(side, widths[i]));
    MeanBeside(edges, centers, widths, side);
    MeanIsAtLeast(edges, lo);
  }

  lemma MeanAtMost(centers: seq<real>, widths: seq<real>, side: real, hi: real)
    requires |centers| == |widths| > 0
    requires forall i | 0 <= i < |centers| :: centers[i] + Scale(side, widths[i]) <= hi
    ensures Mean(centers) + Scale(side, Mean(widths)) <= hi
  {
    var edges := seq(|centers|, i requires 0 <= i < |centers| => centers[i] + Scale(side, widths[i]));
    MeanBeside(edges, centers, widths, side);
    MeanIsAtMost(edges, hi);
  }

  /** The mean box lies in every box that surrounds the samples it averages. */
  lemma MeanBoxInHull(samples: seq<Sample>, u: Corners)
    requires samples != [] && forall s <- samples :: Surrounds(u, SampleCorners(s))
    ensures Surrounds(u, SampleCorners(MeanBox(samples)))
  {
    var n := |samples|;
    var cx := seq(n, i requires 0 <= i < n => samples[i].cx);
    var cy := seq(n, i requires 0 <= i < n => samples[i].cy);
    var w := seq(n, i requires 0 <= i < n => samples[i].w);
    var h := seq(n, i requires 0 <= i < n => samples[i].h);
    forall i | 0 <= i < n
      ensures u.left <= cx[i] + Scale(-0.5, w[i]) && cx[i] + Scale(0.5, w[i]) <= u.right
      ensures u.top <= cy[i] + Scale(-0.5, h[i]) && cy[i] + Scale(0.5, h[i]) <= u.bottom
    {
      assert samples[i] in samples;
    }
    MeanAtLeast(cx, w, -0.5, u.left);
    MeanAtMost(cx, w, 0.5, u.right);
    MeanAtLeast(cy, h, -0.5, u.top);
    MeanAtMost(cy, h, 0.5, u.bottom);
  }

  lemma CenterIsInRange(config: Config, d: Display)
    requires Positive(d) && Usable(config)
    ensures InRange(CenterTarget(d), config, d)
  {
    ClampedIsInRange(0.5, 0.5, 1.0, config, d);
  }

  method StaticTarget(mode: Mode, persistent: seq<Track>, config: Config, d: Display) returns (still: Still)
    requires Positive(d) && !mode.TrackedCrop?
    ensures Resolves(still, mode, persistent, config, d)
  {
    if Usable(config) {
      CenterIsInRange(config, d);
    }
    match mode {
      case SourceAsIs => still := Still(mode, CenterTarget(d), [SourceVertical], 1.0);
      case StaticCrop => still := SingleSubject(persistent, config, d);
      case MultiSubjectFit =>
        var few := FirstFew(persistent);
        var fit := FitSubjects(few, config, d);
        match fit {
          case Fits(target) => still := Still(mode, target, [MultipleFaces], Confidence(persistent));
          case TooWide =>
            still := Still(BackgroundFill, CenterTarget(d), [MultipleFaces, ContentCropped, SubjectTooWide], 0.0);
          case NoFit => still := Still(BackgroundFill, CenterTarget(d), [MultipleFaces, ContentCropped], 0.0);
        }
        assert ResolvesMany(still, few, fit, persistent, config, d);
      case CenterFallback => still := Still(mode, CenterTarget(d), [NoFace], Confidence(persistent));
      case BackgroundFill => still := Still(mode, CenterTarget(d), [], 0.0);
    }
  }

  method SingleSubject(persistent: seq<Track>, config: Config, d: Display) returns (still: Still)
    requires Positive(d)
    ensures Resolves(still, StaticCrop, persistent, config, d)
  {
    if Usable(config) {
      CenterIsInRange(config, d);
    }
    if persistent == [] {
      return Still(CenterFallback, CenterTarget(d), [FaceTrackUnstable], 0.0);
    }
    if persistent[0].samples != [] {
      var target := TargetFromBox(MeanBox(persistent[0].samples), config, d);
      if target.Some? {
        return Still(StaticCrop, target.value, [SinglePersistentFace], Confidence(persistent));
      }
    }
    still := Still(BackgroundFill, CenterTarget(d), [FaceNearSourceEdge], 0.0);
  }

  /** What `build_crop_keyframes` may return for a mode and ordered scene edges. */
  ghost predicate Built(path: seq<Keyframe>, mode: Mode, start: real, end: real, persistent: seq<Track>,
                        isHero: bool, config: Config, d: Display, curves: Curves)
  {
    if d.width <= 0.0 || d.height <= 0.0 then
      path == TwoStills(start, end, CenterFallback, Target(0.5, 0.5, 1.0), 0.0,
                        (if isHero then [HeroProtection] else []) + [NoFace])
    else if !mode.TrackedCrop? then
      exists still :: Resolves(still, mode, persistent, config, d)
        && path == TwoStills(start, end, still.mode, still.target, still.confidence,
                             still.evidence + (if isHero then [HeroProtection] else []))
    else Tracked(path, persistent, start, end, isHero, config, d, curves)
  }

  method BuildCropKeyframes(mode: Mode, sceneStart: real, sceneEnd: real, persistent: seq<Track>, isHero: bool,
                            config: Config, d: Display, curves: Curves)
    returns (path: seq<Keyframe>)
    ensures Built(path, mode, Min(sceneStart, sceneEnd), Max(sceneStart, sceneEnd), persistent, isHero, config, d, curves)
  {
    var start, end := Min(sceneStart, sceneEnd), Max(sceneStart, sceneEnd);
    if !Positive(d) {
      path := TwoStills(start, end, CenterFallback, Target(0.5, 0.5, 1.0), 0.0, HeroEvidence(isHero) + [NoFace]);
      return;
    }
    if !mode.TrackedCrop? {
      var still := StaticTarget(mode, persistent, config, d);
      path := TwoStills(start, end, still.mode, still.target, still.confidence, still.evidence + HeroEvidence(isHero));
      return;
    }
    path := TrackedKeyframes(start, end, persistent, isHero, config, d, curves);
  }

  /** The framing decision a scene is assembled from. */
  datatype Decision = Decision(mode: Mode, evidence: seq<Evidence>, protected: bool)

  datatype Scene = Scene(start: real, end: real, framing: Decision, path: seq<Keyframe>)

  /** The tracks whose boxes a crop mode must keep. */
  function Subjects(mode: Mode, persistent: seq<Track>): seq<Track> {
    if mode.MultiSubjectFit? || persistent == [] then persistent else persistent[..1]
  }

  /** Whether the scene's own path keeps its subjects, with the scene's edges in order. */
  ghost predicate Keeps(path: seq<Keyframe>, mode: Mode, start: real, end: real, persistent: seq<Track>,
                        config: Config, d: Display)
  {
    PathSafe(path, if mode.MultiSubjectFit? || persistent == [] then persistent else [persistent[0]],
             Min(start, end), Max(start, end), HoldSeconds(config), d)
  }

  lemma SubjectsAre(mode: Mode, persistent: seq<Track>)
    ensures Subjects(mode, persistent) == if mode.MultiSubjectFit? || persistent == [] then persistent else [persistent[0]]
  {
  }

  /** `build_scene`: a crop mode survives exactly when its path is safe; otherwise the full source is shown. */
  method BuildScene(start: real, end: real, decision: Decision, persistent: seq<Track>, isHero: bool,
                    config: Config, d: Display, curves: Curves)
    returns (scene: Scene)
    ensures scene.start == start && scene.end == end
    ensures exists path ::
              && Built(path, decision.mode, Min(start, end), Max(start, end), persistent, isHero, config, d, curves)
              && if !CropMode(decision.mode) || Keeps(path, decision.mode, start, end, persistent, config, d)
                 then scene.framing == decision && scene.path == path
                 else scene.framing == Decision(BackgroundFill, decision.evidence + [CropLosesSubject]
                                                + (if isHero then [HeroProtection] else []), isHero)
                      && Built(scene.path, BackgroundFill, Min(start, end), Max(start, end), persistent, isHero, config, d, curves)
    ensures CropMode(scene.framing.mode) ==>
              scene.framing == decision && Keeps(scene.path, decision.mode, start, end, persistent, config, d)
  {
    var path := BuildCropKeyframes(decision.mode, start, end, persistent, isHero, config, d, curves);
    scene := Scene(start, end, decision, path);
    SubjectsAre(decision.mode, persistent);
    if CropMode(decision.mode) {
      var safe := PathPreservesSubjects(path, Subjects(decision.mode, persistent), Min(start, end), Max(start, end),
                                        HoldSeconds(config), d);
      if !safe {
        var fallback := BuildCropKeyframes(BackgroundFill, start, end, persistent, isHero, config, d, curves);
        scene := Scene(start, end, FallbackOf(decision, isHero), fallback);
      }
    }
  }

  function FallbackOf(decision: Decision, isHero: bool): Decision {
    Decision(BackgroundFill, decision.evidence + [CropLosesSubject] + HeroEvidence(isHero), isHero)
  }

  /** The scene's crop at time `t`. */
  function CropAt(scene: Scene, t: real): Option<Target> { InterpolatedTarget(scene.path, t) }

  /** What the scene builder guarantees of a scene it leaves in a crop mode. */
  ghost predicate KeptCrop(scene: Scene, persistent: seq<Track>, isHero: bool, config: Config, d: Display, curves: Curves) {
    && CropMode(scene.framing.mode)
    && Keeps(scene.path, scene.framing.mode, scene.start, scene.end, persistent, config, d)
    && Built(scene.path, scene.framing.mode, Min(scene.start, scene.end), Max(scene.start, scene.end), persistent,
             isHero, config, d, curves)
  }

  /** Every in-scene observation of a preserved subject is inside the crop shown at its time. */
  lemma KeptCropShowsSubjects(scene: Scene, persistent: seq<Track>, isHero: bool, config: Config, d: Display,
                              curves: Curves, i: nat, k: nat)
    requires KeptCrop(scene, persistent, isHero, config, d, curves)
    requires i < |Subjects(scene.framing.mode, persistent)| && k < |persistent[i].samples|
    requires Min(scene.start, scene.end) <= persistent[i].samples[k].time <= Max(scene.start, scene.end)
    requires forall m | 0 <= m < k :: persistent[i].samples[m].time != persistent[i].samples[k].time
    ensures var s := persistent[i].samples[k];
      CropAt(scene, s.time).Some? && BoxContained(CropAt(scene, s.time).value, SampleBox(s), d)
  {
    var subjects := Subjects(scene.framing.mode, persistent);
    SubjectsAre(scene.framing.mode, persistent);
    assert subjects[i] == persistent[i];
    AcceptedPathShowsEverySample(scene.path, subjects, Min(scene.start, scene.end), Max(scene.start, scene.end),
                                 HoldSeconds(config), d, i, k);
  }

  /** No instant of a kept scene is farther than the hold window from an observation of a preserved subject. */
  lemma KeptCropIsObserved(scene: Scene, persistent: seq<Track>, isHero: bool, config: Config, d: Display,
                           curves: Curves, t: real)
    requires KeptCrop(scene, persistent, isHero, config, d, curves)
    requires Min(scene.start, scene.end) <= t <= Max(scene.start, scene.end)
    ensures exists s :: s in AllSamples(Subjects(scene.framing.mode, persistent)) && Near(s.time, t, HoldSeconds(config))
  {
    SubjectsAre(scene.framing.mode, persistent);
    AcceptedPathIsObserved(scene.path, Subjects(scene.framing.mode, persistent), Min(scene.start, scene.end),
                           Max(scene.start, scene.end), HoldSeconds(config), d, t);
  }

  /** In the static modes one crop serves the whole scene, and it holds every in-scene observation. */
  lemma KeptStaticCropHoldsSubjects(scene: Scene, persistent: seq<Track>, isHero: bool, config: Config, d: Display,
                              curves: Curves, i: nat, k: nat)
    requires KeptCrop(scene, persistent, isHero, config, d, curves) && !scene.framing.mode.TrackedCrop?
    requires i < |Subjects(scene.framing.mode, persistent)| && k < |persistent[i].samples|
    requires Min(scene.start, scene.end) <= persistent[i].samples[k].time <= Max(scene.start, scene.end)
    requires forall m | 0 <= m < k :: persistent[i].samples[m].time != persistent[i].samples[k].time
    ensures |scene.path| == 2 && scene.path[0].target == scene.path[1].target
    ensures BoxContained(scene.path[0].target, SampleBox(persistent[i].samples[k]), d)
  {
    var subjects := Subjects(scene.framing.mode, persistent);
    SubjectsAre(scene.framing.mode, persistent);
    assert subjects[i] == persistent[i];
    AcceptedStaticCropHoldsEverySample(scene.path, subjects, Min(scene.start, scene.end),
                                       Max(scene.start, scene.end), HoldSeconds(config), d, i, k);
  }

  /** On a wide display, a built path yields an exact 9:16 crop inside the frame at every time. */
  lemma BuiltPathStaysFramed(path: seq<Keyframe>, mode: Mode, start: real, end: real, persistent: seq<Track>,
                             isHero: bool, config: Config, d: Display, curves: Curves, t: real)
    requires Built(path, mode, start, end, persistent, isHero, config, d, curves) && Wide(d) && Usable(config)
    ensures InterpolatedTarget(path, t).Some?
    ensures var c := InterpolatedTarget(path, t).value; var r := CropRect(c, d);
      ClampTarget(c, d) == c && Inside(r, d) && 16.0 * r.w == 9.0 * r.h
  {
    CenterIsInRange(config, d);
    assert path != [] && RangedPath(path, config, d);
    assert FramedPath(path, d);
    InterpolationStaysFramed(path, t, d);
  }
}
