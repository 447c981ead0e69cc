/** What the turns of the tracking loop do, by times, distances and shares alone. */
module TrackedTurns {
  import opened CropGeometry
  import opened CropPath
  import opened CropTargets
  import opened KeyframeLists
  import opened Sorting
  import opened TrackedPath

  predicate Told(evidence: seq<Evidence>, lost: bool, isHero: bool) {
    evidence == [SinglePersistentFace] + (if lost then [DetectionLost] else []) + (if isHero then [HeroProtection] else [])
  }

  /** A face unseen for more than the hold, a second at least, is lost. */
  predicate Lost(seen: real, until: real, config: Config) { until - seen > 1.0 && until - seen > config.minHold }

  /** The end of that hold. */
  predicate HoldEnds(at: real, seen: real, config: Config) {
    at - seen == (if config.minHold > 1.0 then config.minHold else 1.0)
  }

  /** A loss puts the center crop at the end of the hold, unless a keyframe stands less than a millionth before it. */
  ghost predicate LossNoted(f: Follow, g: Follow, seen: real, until: real, isHero: bool, config: Config, d: Display)
    requires Positive(d) && f.keyframes != []
  {
    exists at :: HoldEnds(at, seen, config) &&
      if Lost(seen, until, config) && at - f.keyframes[|f.keyframes| - 1].time > 0.000001
      then && g.current == CenterTarget(d) && !g.panning && g.confidence == 0.0 && Told(g.evidence, true, isHero)
           && g.keyframes == f.keyframes + [Keyframe(at, TrackedCrop, CenterTarget(d), 0.0, g.evidence)]
      else g == f
  }

  lemma LossIsNoted(f: Follow, seen: real, until: real, isHero: bool, config: Config, d: Display)
    requires Positive(d) && f.keyframes != []
    ensures LossNoted(f, if until - seen > HoldSeconds(config) then AfterLoss(f, seen, isHero, config, d) else f,
                      seen, until, isHero, config, d)
  {
    var g := if until - seen > HoldSeconds(config) then AfterLoss(f, seen, isHero, config, d) else f;
    var at := seen + HoldSeconds(config);
    assert HoldEnds(at, seen, config);
    assert [SinglePersistentFace, DetectionLost] == [SinglePersistentFace] + [DetectionLost];
  }

  /** The dead zone: a crop at rest starts to pan beyond it, a panning one rests below half of it. */
  predicate Decides(was: bool, now: bool, far: real, zone: real) {
    if was then (now <==> 2.0 * far >= zone) else (now <==> far > zone)
  }

  /** The part of a pull that is taken when the limit is the `r`-th part of it. */
  predicate EasedShare(share: real, r: real, far: real, limit: real) {
    r * far == limit && share == r * r * (3.0 - 2.0 * r)
  }

  /** The share of a pull that is taken: all of it up to the limit, else an eased one. */
  ghost predicate ShareOf(share: real, far: real, limit: real) {
    if far <= limit || limit <= 0.0 then share == 1.0 else exists r :: EasedShare(share, r, far, limit)
  }

  function Part(share: real, way: real): real { share * way }

  /** The pull of a step: nothing at rest, else the smoothed part of the way to the crop aimed at. */
  predicate Pulls(pull: (real, real), from: Target, aim: Target, part: real, rests: bool) {
    if rests then pull == (0.0, 0.0)
    else pull == (Part(part, aim.centerX - from.centerX), Part(part, aim.centerY - from.centerY))
  }

  /** Half as fast for a hero shot. */
  predicate LimitIs(limit: real, from: Target, dt: real, isHero: bool, config: Config) {
    if isHero then 2.0 * limit == config.maxPan * from.height * dt else limit == config.maxPan * from.height * dt
  }

  /** The center moved by a share of the pull. */
  predicate Shifted(from: Target, center: (real, real), pull: (real, real), share: real) {
    center == (from.centerX + Part(share, pull.0), from.centerY + Part(share, pull.1))
  }

  ghost predicate PansBy(from: Target, center: (real, real), pull: (real, real), dt: real, isHero: bool, config: Config,
                         curves: Curves)
  {
    exists share, limit :: LimitIs(limit, from, dt, isHero, config) && ShareOf(share, curves.hypot(pull.0, pull.1), limit)
                           && Shifted(from, center, pull, share)
  }

  lemma LimitIsPanLimit(from: Target, dt: real, isHero: bool, config: Config)
    ensures LimitIs(PanLimit(from, dt, config, isHero), from, dt, isHero, config)
  {
  }

  lemma ShareIsPanScale(far: real, limit: real)
    ensures ShareOf(PanScale(far, limit), far, limit)
  {
    if far > limit && limit > 0.0 {
      var r := limit / far;
      Undivide(limit, far);
      RatioBelowOne(r, far, limit);
      assert EasedShare(PanScale(far, limit), r, far, limit);
    }
  }

  lemma RatioBelowOne(r: real, far: real, limit: real)
    requires r * far == limit && 0.0 < limit < far
    ensures 0.0 < r < 1.0
  {
    ProductBounds(r, far);
  }

  lemma ProductBounds(r: real, far: real)
    requires far > 0.0
    ensures r >= 1.0 ==> r * far >= far
    ensures r <= 0.0 ==> r * far <= 0.0
  {
    if r >= 1.0 {
      MulNonnegative(r - 1.0, far);
      assert (r - 1.0) * far == r * far - far;
    }
    if r <= 0.0 {
      MulNonnegative(-r, far);
      assert (-r) * far == -(r * far);
    }
  }

  lemma LerpIsPull(from: real, to: real, part: real)
    ensures Lerp(from, to, part) == from + Part(part, to - from)
  {
  }

  lemma PanMoves(from: real, x: real, share: real, pull: real)
    requires pull == x - from
    ensures Lerp(from, x, share) == from + Part(share, pull)
  {
  }

  lemma PannedPans(from: Target, x: real, y: real, dt: real, config: Config, isHero: bool, curves: Curves)
    ensures PansBy(from, Panned(from, x, y, dt, config, isHero, curves), (x - from.centerX, y - from.centerY), dt, isHero,
                   config, curves)
  {
    var pull := (x - from.centerX, y - from.centerY);
    var limit := PanLimit(from, dt, config, isHero);
    var share := PanScale(curves.hypot(pull.0, pull.1), limit);
    LimitIsPanLimit(from, dt, isHero, config);
    ShareIsPanScale(curves.hypot(pull.0, pull.1), limit);
    PanMoves(from.centerX, x, share, pull.0);
    PanMoves(from.centerY, y, share, pull.1);
    hide Lerp, PanScale, ShareOf, PanLimit, LimitIs, Part;
    assert Panned(from, x, y, dt, config, isHero, curves)
        == (Lerp(from.centerX, x, share), Lerp(from.centerY, y, share));
    assert Shifted(from, Panned(from, x, y, dt, config, isHero, curves), pull, share);
  }

  /** The step's crop: the center panned by the pull, with the step's height, clamped. */
  lemma NextCropPans(from: Target, aim: Target, part: real, dt: real, rests: bool, config: Config, d: Display, isHero: bool,
                     curves: Curves)
    returns (pull: (real, real), center: (real, real))
    requires Positive(d)
    ensures Pulls(pull, from, aim, part, rests) && PansBy(from, center, pull, dt, isHero, config, curves)
    ensures NextCrop(from, aim, part, dt, rests, config, d, isHero, curves)
         == ClampTarget(Target(center.0, center.1,
                               NextHeight(from.height, Lerp(from.height, aim.height, part), dt, config, isHero)), d)
  {
    var x := if rests then from.centerX else Lerp(from.centerX, aim.centerX, part);
    var y := if rests then from.centerY else Lerp(from.centerY, aim.centerY, part);
    LerpIsPull(from.centerX, aim.centerX, part);
    LerpIsPull(from.centerY, aim.centerY, part);
    hide Lerp, NextHeight, ClampTarget, PansBy, Panned, Part;
    pull, center := (x - from.centerX, y - from.centerY), Panned(from, x, y, dt, config, isHero, curves);
    PannedPans(from, x, y, dt, config, isHero, curves);
  }

  // ---- one turn ----------------------------------------------------------------------------------

  /** One observation after another: a thousandth of a second at least passes. */
  predicate StepIs(dt: real, gap: real) { if gap > 0.0 then dt == gap else dt == 0.001 }

  /** The crops are apart by more than a ten-thousandth in some coordinate. */
  predicate Apart(a: Target, b: Target) {
    || a.centerX - b.centerX > 0.0001 || b.centerX - a.centerX > 0.0001
    || a.centerY - b.centerY > 0.0001 || b.centerY - a.centerY > 0.0001
    || a.height - b.height > 0.0001 || b.height - a.height > 0.0001
  }

  /** Whether a step toward the crop `aim` pans on. */
  predicate PansOrRests(g: Follow, f': Follow, aim: Target, seen: bool, part: real, config: Config, curves: Curves) {
    if seen then Decides(g.panning, f'.panning, curves.hypot(Part(part, aim.centerX - g.current.centerX),
                                                             Part(part, aim.centerY - g.current.centerY)),
                         config.deadZone * g.current.height)
    else f'.panning == g.panning
  }

  /** The step toward the crop `aim`, the smoothing taking `part` of the way. */
  ghost predicate Steps(g: Follow, f': Follow, aim: Target, seen: bool, part: real, pull: (real, real),
                        center: (real, real), height: real, dt: real, isHero: bool, config: Config, d: Display, curves: Curves)
    requires Positive(d)
  {
    && PansOrRests(g, f', aim, seen, part, config, curves)
    && Pulls(pull, g.current, aim, part, seen && !f'.panning)
    && PansBy(g.current, center, pull, dt, isHero, config, curves)
    && f'.current == ClampTarget(Target(center.0, center.1, height), d)
    && (Usable(config) && InRange(g.current, config, d) ==>
          ZoomsTo(height, g.current.height + Part(part, aim.height - g.current.height), g.current.height, dt, config,
                  isHero))
  }

  ghost predicate StepsBy(g: Follow, f': Follow, aim: Target, seen: bool, part: real, dt: real, isHero: bool,
                          config: Config, d: Display, curves: Curves)
    requires Positive(d)
  {
    exists pull, center, height :: Steps(g, f', aim, seen, part, pull, center, height, dt, isHero, config, d, curves)
  }

  /** A keyframe is added for a crop apart from the last one emitted, the minimum hold after it. */
  ghost predicate EmitsWhenApart(g: Follow, f': Follow, time: real, config: Config)
    requires g.keyframes != []
  {
    var last := g.keyframes[|g.keyframes| - 1];
    f'.keyframes ==
      if time - last.time + 0.000001 >= config.minHold && Apart(f'.current, last.target)
      then g.keyframes + [Keyframe(time, TrackedCrop, f'.current, f'.confidence, f'.evidence)]
      else g.keyframes
  }

  /** What one turn makes of the state, given the crop aimed at. */
  ghost predicate TurnsTo(g: Follow, f': Follow, aim: Target, seen: bool, sample: Sample, dt: real, confidence: real,
                          isHero: bool, config: Config, d: Display, curves: Curves)
    requires Positive(d) && g.keyframes != []
  {
    && Toward(aim, seen, sample, config, d)
    && Told(f'.evidence, !seen, isHero) && f'.confidence == (if seen then confidence else 0.0)
    && StepsBy(g, f', aim, seen, if seen then curves.alpha(dt) else 1.0, dt, isHero, config, d, curves)
    && EmitsWhenApart(g, f', sample.time, config)
  }

  lemma PansOnDecides(g: Follow, f': Follow, aim: Target, seen: bool, part: real, config: Config, curves: Curves)
    requires f'.panning == PansOn(g.current, aim, part, seen, g.panning, config, curves)
    ensures PansOrRests(g, f', aim, seen, part, config, curves)
  {
    LerpIsPull(g.current.centerX, aim.centerX, part);
    LerpIsPull(g.current.centerY, aim.centerY, part);
    hide Lerp, Part;
  }

  lemma HeightZooms(current: real, aim: real, part: real, dt: real, config: Config, isHero: bool)
    requires Usable(config) && dt > 0.0 && config.minCrop <= current <= 1.0
    ensures ZoomsTo(NextHeight(current, Lerp(current, aim, part), dt, config, isHero), current + Part(part, aim - current),
                    current, dt, config, isHero)
  {
    LerpIsPull(current, aim, part);
    NextHeightIsNearest(current, Lerp(current, aim, part), dt, config, isHero);
    hide *;
  }

  lemma StepsAsAimed(g: Follow, f': Follow, aim: Target, seen: bool, sample: Sample, dt: real, confidence: real,
                     isHero: bool, config: Config, d: Display, curves: Curves)
    requires Positive(d) && dt > 0.0 && Aims(g, f', aim, seen, sample, dt, confidence, isHero, config, d, curves)
    ensures StepsBy(g, f', aim, seen, if seen then curves.alpha(dt) else 1.0, dt, isHero, config, d, curves)
  {
    hide Lerp, NextHeight, NextCrop, PansBy, ZoomsTo, Toward, ClampTarget, PansOn, PansOrRests, Pulls, Part;
    var part := if seen then curves.alpha(dt) else 1.0;
    assert part == Alpha(seen, dt, curves);
    var pull, center := NextCropPans(g.current, aim, part, dt, seen && !f'.panning, config, d, isHero, curves);
    PansOnDecides(g, f', aim, seen, part, config, curves);
    var height := NextHeight(g.current.height, Lerp(g.current.height, aim.height, part), dt, config, isHero);
    if Usable(config) && InRange(g.current, config, d) {
      HeightZooms(g.current.height, aim.height, part, dt, config, isHero);
    }
    assert Steps(g, f', aim, seen, part, pull, center, height, dt, isHero, config, d, curves);
  }

  lemma EmitsAsApart(g: Follow, f': Follow, time: real, config: Config)
    requires g.keyframes != [] && Emits(g, f', time, config)
    ensures EmitsWhenApart(g, f', time, config)
  {
    var last := g.keyframes[|g.keyframes| - 1].target;
    assert Differs(f'.current, last) <==> Apart(f'.current, last);
  }

  /** One turn of the loop: a loss noted first, then the step. */
  ghost predicate Turn(f: Follow, f': Follow, sample: Sample, previous: real, confidence: real, isHero: bool,
                       config: Config, d: Display, curves: Curves)
    requires Positive(d) && f.keyframes != []
  {
    exists g: Follow, aim, seen, dt ::
      && g.keyframes != [] && LossNoted(f, g, previous, sample.time, isHero, config, d)
      && StepIs(dt, sample.time - previous)
      && TurnsTo(g, f', aim, seen, sample, dt, confidence, isHero, config, d, curves)
  }

  lemma AimedTurns(g: Follow, f': Follow, aim: Target, seen: bool, sample: Sample, dt: real, confidence: real,
                   isHero: bool, config: Config, d: Display, curves: Curves)
    requires Positive(d) && g.keyframes != [] && dt > 0.0 && Emits(g, f', sample.time, config)
    requires Aims(g, f', aim, seen, sample, dt, confidence, isHero, config, d, curves)
    ensures TurnsTo(g, f', aim, seen, sample, dt, confidence, isHero, config, d, curves) && f'.keyframes != []
  {
    StepsAsAimed(g, f', aim, seen, sample, dt, confidence, isHero, config, d, curves);
    EmitsAsApart(g, f', sample.time, config);
    assert [SinglePersistentFace, DetectionLost] == [SinglePersistentFace] + [DetectionLost];
    hide StepsBy, Toward, PansOn, NextCrop, Emits, EmitsWhenApart;
  }

  lemma TookIsTurn(f: Follow, f': Follow, sample: Sample, previous: real, confidence: real, isHero: bool, config: Config,
                   d: Display, curves: Curves)
    requires Positive(d) && f.keyframes != [] && Took(f, f', sample, previous, confidence, isHero, config, d, curves)
    ensures Turn(f, f', sample, previous, confidence, isHero, config, d, curves) && f'.keyframes != []
  {
    hide LossNoted, TurnsTo, AfterLoss, HoldSeconds, Aims, Emits;
    var gap := sample.time - previous;
    var g := if gap > HoldSeconds(config) then AfterLoss(f, previous, isHero, config, d) else f;
    var dt := StepTime(gap);
    LossIsNoted(f, previous, sample.time, isHero, config, d);
    LossKeeps(f, g, previous, sample.time, isHero, config, d);
    var aim, seen :| Aims(g, f', aim, seen, sample, dt, confidence, isHero, config, d, curves);
    AimedTurns(g, f', aim, seen, sample, dt, confidence, isHero, config, d, curves);
    assert StepIs(dt, gap);
  }

  lemma LossKeeps(f: Follow, g: Follow, seen: real, until: real, isHero: bool, config: Config, d: Display)
    requires Positive(d) && f.keyframes != [] && LossNoted(f, g, seen, until, isHero, config, d)
    ensures g.keyframes != []
  {
  }

  // ---- the whole path ---------------------------------------------------------------------------------

  /** The state at the first observation: its crop, held from the scene start. */
  ghost predicate Begins(f: Follow, first: Target, start: real, confidence: real, isHero: bool) {
    && f.current == first && !f.panning && f.confidence == confidence && Told(f.evidence, false, isHero)
    && f.keyframes == [Keyframe(start, TrackedCrop, first, confidence, f.evidence)]
  }

  ghost predicate TurnAt(trace: seq<Follow>, samples: seq<Sample>, i: int, confidence: real, isHero: bool,
                         config: Config, d: Display, curves: Curves)
    requires Positive(d) && 0 < i < |trace| == |samples|
  {
    trace[i - 1].keyframes != []
    && Turn(trace[i - 1], trace[i], samples[i], samples[i - 1].time, confidence, isHero, config, d, curves)
  }

  /** The states of the loop, one for each observation. */
  ghost predicate Chain(trace: seq<Follow>, samples: seq<Sample>, first: Target, confidence: real, start: real,
                        isHero: bool, config: Config, d: Display, curves: Curves)
    requires Positive(d)
  {
    && |trace| == |samples| > 0 && Begins(trace[0], first, start, confidence, isHero)
    && forall i | 0 < i < |trace| :: TurnAt(trace, samples, i, confidence, isHero, config, d, curves)
  }

  lemma {:induction false} FollowedIsChain(trace: seq<Follow>, samples: seq<Sample>, first: Target, confidence: real,
                                           start: real, isHero: bool, config: Config, d: Display, curves: Curves)
    requires Positive(d)
    requires Followed(trace, samples, FirstState(first, start, confidence, isHero),
                      Turns(confidence, isHero, config, d, curves))
    ensures Chain(trace, samples, first, confidence, start, isHero, config, d, curves) && trace[|trace| - 1].keyframes != []
    decreases |samples|
  {
    hide Turn, Took;
    var last := |samples| - 1;
    if last > 0 {
      FollowedIsChain(trace[..last], samples[..last], first, confidence, start, isHero, config, d, curves);
      TookIsTurn(trace[last - 1], trace[last], samples[last], samples[last - 1].time, confidence, isHero, config, d,
                 curves);
      hide Followed;
      forall i | 0 < i < |trace| ensures TurnAt(trace, samples, i, confidence, isHero, config, d, curves) {
        if i < last {
          assert TurnAt(trace[..last], samples[..last], i, confidence, isHero, config, d, curves);
        }
      }
    }
  }

  /** The scene end: a loss noted after the last observation, then the last crop once more, if over a millionth later. */
  ghost predicate Ends(f: Follow, all: seq<Keyframe>, seen: real, end: real, isHero: bool, config: Config, d: Display)
    requires Positive(d) && f.keyframes != []
  {
    exists g: Follow ::
      && g.keyframes != [] && LossNoted(f, g, seen, end, isHero, config, d)
      && all == if end - g.keyframes[|g.keyframes| - 1].time > 0.000001
                then g.keyframes + [Keyframe(end, TrackedCrop, g.current, g.confidence, g.evidence)]
                else g.keyframes
  }

  lemma ClosingIsEnd(f: Follow, seen: real, end: real, isHero: bool, config: Config, d: Display)
    requires Positive(d) && f.keyframes != []
    ensures Ends(f, Closing(f, seen, end, isHero, config, d), seen, end, isHero, config, d)
  {
    LossIsNoted(f, seen, end, isHero, config, d);
    hide LossNoted;
  }

  /** The path of a subject, from the first crop to the scene end. */
  ghost predicate PathByTurns(trace: seq<Follow>, all: seq<Keyframe>, samples: seq<Sample>, first: Target, confidence: real,
                              start: real, end: real, isHero: bool, config: Config, d: Display, curves: Curves)
    requires Positive(d) && samples != []
  {
    && Chain(trace, samples, first, confidence, start, isHero, config, d, curves)
    && trace[|trace| - 1].keyframes != []
    && Ends(trace[|trace| - 1], all, samples[|samples| - 1].time, end, isHero, config, d)
  }

  /** Every tracked path thins and caps keyframes that such turns emit. */
  lemma TrackedByTurns(path: seq<Keyframe>, samples: seq<Sample>, first: Target, confidence: real, start: real, end: real,
                       isHero: bool, config: Config, d: Display, curves: Curves)
    returns (trace: seq<Follow>, all: seq<Keyframe>)
    requires Positive(d) && samples != []
    requires FromSamples(path, samples, first, confidence, start, end, isHero, config, d, curves)
    ensures PathByTurns(trace, all, samples, first, confidence, start, end, isHero, config, d, curves)
    ensures var merged := SortBy(Merged(all), TimeLe);
      all != [] && merged != [] && CappedFrom(path, merged, config.maxKeyframes)
  {
    hide Merged, SortBy, CappedFrom, Chain, Ends;
    trace :| |trace| > 0
             && Followed(trace, samples, FirstState(first, start, confidence, isHero),
                         Turns(confidence, isHero, config, d, curves))
             && trace[|trace| - 1].keyframes != []
             && ClosedFrom(path, trace[|trace| - 1], samples[|samples| - 1].time, end, isHero, config, d);
    var f := trace[|trace| - 1];
    all := Closing(f, samples[|samples| - 1].time, end, isHero, config, d);
    FollowedIsChain(trace, samples, first, confidence, start, isHero, config, d, curves);
    ClosingIsEnd(f, samples[|samples| - 1].time, end, isHero, config, d);
  }

  // ---- a subject's path ---------------------------------------------------------------------------------

  /** By time, then by position, then by size. */
  predicate Precedes(a: Sample, b: Sample) {
    if a.time != b.time then a.time < b.time
    else if a.cx != b.cx then a.cx < b.cx
    else if a.cy != b.cy then a.cy < b.cy
    else if a.h != b.h then a.h < b.h
    else a.w <= b.w
  }

  /** The samples in that order. */
  ghost predicate InOrder(samples: seq<Sample>, of: seq<Sample>) {
    multiset(samples) == multiset(of) && forall i, k | 0 <= i < k < |samples| :: Precedes(samples[i], samples[k])
  }

  lemma SceneSamplesInOrder(track: Track)
    ensures InOrder(SceneSamples(track), track.samples)
  {
    SampleOrderIsTotal();
    SortIsSorted(track.samples, SampleOrder);
    SortIsPermutation(track.samples, SampleOrder);
    hide SortBy;
    forall i, k | 0 <= i < k < |SceneSamples(track)| ensures Precedes(SceneSamples(track)[i], SceneSamples(track)[k]) {
      assert SampleOrder(SceneSamples(track)[i], SceneSamples(track)[k]);
    }
  }

  /** How a subject's path comes about. */
  ghost predicate SubjectByTurns(path: seq<Keyframe>, all: seq<Keyframe>, trace: seq<Follow>, samples: seq<Sample>,
                                 first: Target, confidence: real, subject: Track, start: real, end: real, isHero: bool,
                                 config: Config, d: Display, curves: Curves)
    requires Positive(d)
  {
    && samples != [] && InOrder(samples, subject.samples) && ConfidenceIs(confidence, subject.meanScore)
    && Toward(first, true, samples[0], config, d)
    && PathByTurns(trace, all, samples, first, confidence, start, end, isHero, config, d, curves)
    && all != [] && SortBy(Merged(all), TimeLe) != [] && CappedFrom(path, SortBy(Merged(all), TimeLe), config.maxKeyframes)
  }

  lemma SubjectIsTracked(path: seq<Keyframe>, subject: Track, start: real, end: real, isHero: bool, config: Config,
                         d: Display, curves: Curves)
    returns (all: seq<Keyframe>, trace: seq<Follow>, samples: seq<Sample>, first: Target, confidence: real)
    requires Positive(d) && TracksSubject(path, subject, start, end, isHero, config, d, curves)
    ensures SubjectByTurns(path, all, trace, samples, first, confidence, subject, start, end, isHero, config, d, curves)
  {
    hide FromSamples, Toward, PathByTurns, InOrder, GoodPath, SceneSamples, SortBy, Merged, CappedFrom;
    samples, confidence := SceneSamples(subject), UnitClamp(subject.meanScore);
    SceneSamplesInOrder(subject);
    first :| Toward(first, true, samples[0], config, d)
             && FromSamples(path, samples, first, UnitClamp(subject.meanScore), start, end, isHero, config, d, curves);
    trace, all := TrackedByTurns(path, samples, first, confidence, start, end, isHero, config, d, curves);
  }
}
