/** The smoothed, rate-limited crop path that follows one tracked subject. */
module TrackedPath {
  import opened CropGeometry
  import opened CropPath
  import opened CropTargets
  import opened KeyframeLists
  import opened Sorting

  const MIN_DT := 0.001
  const HERO_PAN_SCALE := 0.5
  const HERO_ZOOM_TOLERANCE := 0.02
  const HYSTERESIS_RELEASE := 0.5
  const DEDUP_EPSILON := 0.0001

  /** The transcendental parts of the smoothing: `1 - exp(-6 dt)` and the Euclidean length. */
  datatype Curves = Curves(alpha: real -> real, hypot: (real, real) -> real)

  function HoldSeconds(config: Config): real { Max(config.minHold, 1.0) }

  /** `framing_for_bounded_distance`. */
  function Ease(distance: real): real {
    if distance <= 0.0 then 0.0 else if distance >= 1.0 then 1.0 else Smoothstep(distance)
  }

  // ---- how far a crop height may move ---------------------------------------------

  function Reach(rate: real, dt: real): real { rate * dt }

  lemma ReachGrows(rate: real, a: real, b: real)
    requires rate >= 0.0 && a <= b
    ensures Reach(rate, a) <= Reach(rate, b)
  {
    MulNonnegative(rate, b - a);
  }

  lemma ReachAdds(rate: real, a: real, b: real)
    ensures Reach(rate, a + b) == Reach(rate, a) + Reach(rate, b)
  {
  }

  /** No detection-loss reset falls in the closed interval. */
  ghost predicate Unreset(resets: set<real>, from: real, to: real) {
    forall r <- resets :: !(from <= r <= to)
  }

  /** Keyframes with no reset between them differ in height by at most the zoom rate times their distance. */
  ghost predicate ZoomBounded(path: seq<Keyframe>, resets: set<real>, rate: real) {
    forall i, k | 0 <= i < k < |path| && Unreset(resets, path[i].time, path[k].time) ::
      Abs(path[k].target.height - path[i].target.height) <= Reach(rate, path[k].time - path[i].time)
  }

  /** The same bound from every keyframe to the crop `current` at time `now`. */
  ghost predicate ZoomBoundedTo(path: seq<Keyframe>, resets: set<real>, rate: real, current: Target, now: real) {
    forall i | 0 <= i < |path| && Unreset(resets, path[i].time, now) ::
      Abs(current.height - path[i].target.height) <= Reach(rate, now - path[i].time)
  }

  // ---- one sample -----------------------------------------------------------------

  /** The next crop height: hero zooms above tolerance are refused, others limited by the rate. */
  function NextHeight(current: real, smooth: real, dt: real, config: Config, isHero: bool): real {
    var delta := smooth - current;
    var limit := Reach(config.maxZoom, dt);
    var step :=
      if isHero && Abs(delta) > HERO_ZOOM_TOLERANCE then 0.0
      else if Abs(delta) > limit then (if delta > 0.0 then limit else -limit)
      else delta;
    Min(1.0, Max(config.minCrop, current + step))
  }

  lemma NextHeightIsLimited(current: real, smooth: real, dt: real, config: Config, isHero: bool)
    requires Usable(config) && dt >= 0.0 && config.minCrop <= current <= 1.0
    ensures var h := NextHeight(current, smooth, dt, config, isHero);
      && config.minCrop <= h <= 1.0
      && Abs(h - current) <= Reach(config.maxZoom, dt)
      && (isHero ==> Abs(h - current) <= HERO_ZOOM_TOLERANCE)
      && (Abs(smooth - current) <= Reach(config.maxZoom, dt) && !isHero && config.minCrop <= smooth <= 1.0 ==> h == smooth)
  {
    MulNonnegative(config.maxZoom, dt);
  }

  /** A height the crop may have after a step: allowed, and within the zoom rate of the one before. */
  predicate Reachable(h: real, current: real, dt: real, config: Config) {
    config.minCrop <= h <= 1.0 && current - config.maxZoom * dt <= h <= current + config.maxZoom * dt
  }

  /** Of all heights the crop may have, `height` is the one nearest to `wanted`. */
  ghost predicate NearestReachable(height: real, wanted: real, current: real, dt: real, config: Config) {
    && Reachable(height, current, dt, config)
    && forall h | Reachable(h, current, dt, config) :: Off(height, wanted) <= Off(h, wanted)
  }

  function Off(h: real, wanted: real): real { if h <= wanted then wanted - h else h - wanted }

  /** The height of a step: a hero shot refuses a change of over two hundredths, else the crop comes as near as it may. */
  ghost predicate ZoomsTo(height: real, wanted: real, current: real, dt: real, config: Config, isHero: bool) {
    if isHero && Off(current, wanted) > 0.02 then height == current
    else NearestReachable(height, wanted, current, dt, config)
  }

  lemma NextHeightIsNearest(current: real, wanted: real, dt: real, config: Config, isHero: bool)
    requires Usable(config) && dt >= 0.0 && config.minCrop <= current <= 1.0
    ensures ZoomsTo(NextHeight(current, wanted, dt, config, isHero), wanted, current, dt, config, isHero)
  {
    MulNonnegative(config.maxZoom, dt);
    var reach := Reach(config.maxZoom, dt);
    assert reach == config.maxZoom * dt;
    var next := NextHeight(current, wanted, dt, config, isHero);
    forall h | Reachable(h, current, dt, config) && !(isHero && Off(current, wanted) > 0.02)
      ensures Reachable(next, current, dt, config) && Off(next, wanted) <= Off(h, wanted)
    {
      LimitedIsNearest(current, wanted, reach, config.minCrop, h);
    }
    assert Reachable(current, current, dt, config);
  }

  lemma LimitedIsNearest(current: real, wanted: real, reach: real, least: real, h: real)
    requires reach >= 0.0 && least <= current <= 1.0 && least <= h <= 1.0 && current - reach <= h <= current + reach
    ensures var delta := wanted - current;
      var step := if Abs(delta) > reach then (if delta > 0.0 then reach else -reach) else delta;
      var next := Min(1.0, Max(least, current + step));
      least <= next <= 1.0 && current - reach <= next <= current + reach && Off(next, wanted) <= Off(h, wanted)
  {
  }

  /** A hero shot keeps its height exactly when more is wanted than it tolerates, or nothing can be had. */
  lemma HeroKeepsHeightIff(current: real, wanted: real, dt: real, config: Config)
    requires Usable(config) && dt >= 0.0 && config.minCrop <= current <= 1.0
    ensures NextHeight(current, wanted, dt, config, true) == current
       <==> Off(current, wanted) > 0.02 || wanted == current || Reach(config.maxZoom, dt) == 0.0
            || (current == 1.0 && wanted > 1.0) || (current == config.minCrop && wanted < config.minCrop)
  {
    MulNonnegative(config.maxZoom, dt);
  }

  /** Whether the dead zone with hysteresis lets the crop pan. */
  function Panning(panning: bool, displacement: real, deadZone: real): bool {
    if panning then displacement >= deadZone * HYSTERESIS_RELEASE else displacement > deadZone
  }

  predicate Between(a: real, m: real, b: real) { Min(a, b) <= m <= Max(a, b) }

  lemma LerpIsBetween(a: real, b: real, e: real)
    requires 0.0 <= e <= 1.0
    ensures Between(a, Lerp(a, b, e), b)
  {
    if a <= b {
      MulNonnegative(b - a, e);
      MulNonnegative(b - a, 1.0 - e);
      assert (b - a) * (1.0 - e) == (b - a) - (b - a) * e;
    } else {
      MulNonnegative(a - b, e);
      MulNonnegative(a - b, 1.0 - e);
      assert (a - b) * (1.0 - e) == (a - b) + (b - a) * e;
    }
  }

  lemma EaseInUnit(distance: real)
    ensures 0.0 <= Ease(distance) <= 1.0
  {
    if 0.0 < distance < 1.0 {
      SmoothstepInUnit(distance);
    }
  }

  /** The crop height never overshoots the height it moves to. */
  lemma HeightIsBetween(current: real, target: real, alpha: real, dt: real, config: Config, isHero: bool)
    requires Usable(config) && dt >= 0.0 && config.minCrop <= current <= 1.0 && config.minCrop <= target <= 1.0
    requires 0.0 <= alpha <= 1.0
    ensures Between(current, NextHeight(current, Lerp(current, target, alpha), dt, config, isHero), target)
  {
    MulNonnegative(config.maxZoom, dt);
    LerpIsBetween(current, target, alpha);
  }

  // ---- the pan step ---------------------------------------------------------------

  /** How far the crop may pan in a step, by the configured velocity. */
  function PanLimit(current: Target, dt: real, config: Config, isHero: bool): real {
    var limit := config.maxPan * current.height * dt;
    if isHero then limit * HERO_PAN_SCALE else limit
  }

  /** The share of a pan that is taken. */
  function PanScale(distance: real, limit: real): real {
    if distance > limit && limit > 0.0 && distance > 0.0 then Ease(limit / distance) else 1.0
  }

  /** The center a pan to `(x, y)` reaches. */
  function Panned(current: Target, x: real, y: real, dt: real, config: Config, isHero: bool, curves: Curves): (real, real) {
    var scale := PanScale(curves.hypot(x - current.centerX, y - current.centerY), PanLimit(current, dt, config, isHero));
    (Lerp(current.centerX, x, scale), Lerp(current.centerY, y, scale))
  }

  lemma PannedIsBetween(current: Target, x: real, y: real, dt: real, config: Config, isHero: bool, curves: Curves)
    ensures var to := Panned(current, x, y, dt, config, isHero, curves);
      Between(current.centerX, to.0, x) && Between(current.centerY, to.1, y)
  {
    var distance := curves.hypot(x - current.centerX, y - current.centerY);
    var limit := PanLimit(current, dt, config, isHero);
    if distance > limit && limit > 0.0 && distance > 0.0 {
      EaseInUnit(limit / distance);
    }
    LerpIsBetween(current.centerX, x, PanScale(distance, limit));
    LerpIsBetween(current.centerY, y, PanScale(distance, limit));
  }

  /** A pan step along the line to `(x, y)`, eased when it is longer than the limit. */
  method Pan(current: Target, x: real, y: real, dt: real, config: Config, isHero: bool, curves: Curves)
    returns (newX: real, newY: real)
    ensures (newX, newY) == Panned(current, x, y, dt, config, isHero, curves)
  {
    newX, newY := x, y;
    assert Lerp(current.centerX, x, 1.0) == x && Lerp(current.centerY, y, 1.0) == y;
    var distance := curves.hypot(x - current.centerX, y - current.centerY);
    var maxPan := PanLimit(current, dt, config, isHero);
    if distance > maxPan && maxPan > 0.0 && distance > 0.0 {
      var eased := Ease(maxPan / distance);
      newX, newY := Lerp(current.centerX, x, eased), Lerp(current.centerY, y, eased);
    }
  }

  /** `t` is the crop fitted to the sample, or the center crop when none fits. */
  ghost predicate Toward(t: Target, seen: bool, sample: Sample, config: Config, d: Display)
    requires Positive(d)
  {
    if seen then
      exists c :: BestHeight(c, HeightCandidates(BaseHeight(sample.w, sample.h, config), config), sample, config, d)
                  && t == CropFor(sample, c, config, d)
    else t == CenterTarget(d) && Unfit(sample, config, d)
  }

  /** The clamped crop whose unclamped center lies between the current crop and the one aimed at. */
  ghost predicate StepsToward(current: Target, next: Target, aim: Target, still: bool, d: Display)
    requires Positive(d)
  {
    exists x, y, h ::
      && next == ClampTarget(Target(x, y, h), d)
      && Between(current.centerX, x, aim.centerX) && Between(current.centerY, y, aim.centerY)
      && (still ==> x == current.centerX && y == current.centerY)
  }

  /** The height of one step: rate-limited, and between the heights it moves from and to. */
  ghost predicate HeightMoves(current: Target, next: Target, aim: Target, dt: real, config: Config, d: Display,
                              isHero: bool, curves: Curves)
  {
    && InRange(next, config, d)
    && Abs(next.height - current.height) <= Reach(config.maxZoom, dt)
    && (isHero ==> Abs(next.height - current.height) <= HERO_ZOOM_TOLERANCE)
    && (0.0 <= curves.alpha(dt) <= 1.0 ==> Between(current.height, next.height, aim.height))
  }

  lemma HeightStep(current: Target, target: Target, x: real, y: real, alpha: real, dt: real, config: Config, d: Display,
                   isHero: bool, curves: Curves)
    requires Usable(config) && Positive(d) && dt > 0.0 && InRange(current, config, d) && InRange(target, config, d)
    requires 0.0 <= curves.alpha(dt) <= 1.0 ==> 0.0 <= alpha <= 1.0
    ensures var height := NextHeight(current.height, Lerp(current.height, target.height, alpha), dt, config, isHero);
      HeightMoves(current, ClampTarget(Target(x, y, height), d), target, dt, config, d, isHero, curves)
  {
    var smooth := Lerp(current.height, target.height, alpha);
    NextHeightIsLimited(current.height, smooth, dt, config, isHero);
    ClampedIsInRange(x, y, NextHeight(current.height, smooth, dt, config, isHero), config, d);
    if 0.0 <= curves.alpha(dt) <= 1.0 {
      HeightIsBetween(current.height, target.height, alpha, dt, config, isHero);
    }
  }

  /** The smoothing factor of a step: a crop falls back to the center at once. */
  function Alpha(seen: bool, dt: real, curves: Curves): real { if seen then curves.alpha(dt) else 1.0 }

  /** Whether the crop pans after a step whose smoothed displacement is compared with the dead zone. */
  function PansOn(current: Target, aim: Target, alpha: real, seen: bool, wasPanning: bool, config: Config, curves: Curves)
    : bool
  {
    if !seen then wasPanning
    else
      var displacement := curves.hypot(Lerp(current.centerX, aim.centerX, alpha) - current.centerX,
                                       Lerp(current.centerY, aim.centerY, alpha) - current.centerY);
      Panning(wasPanning, displacement, config.deadZone * current.height)
  }

  /** The crop after a step: its center still, or panned toward the smoothed one; its height rate-limited. */
  function NextCrop(current: Target, aim: Target, alpha: real, dt: real, still: bool, config: Config, d: Display,
                    isHero: bool, curves: Curves): Target
    requires Positive(d)
  {
    var x := if still then current.centerX else Lerp(current.centerX, aim.centerX, alpha);
    var y := if still then current.centerY else Lerp(current.centerY, aim.centerY, alpha);
    var to := Panned(current, x, y, dt, config, isHero, curves);
    ClampTarget(Target(to.0, to.1, NextHeight(current.height, Lerp(current.height, aim.height, alpha), dt, config, isHero)), d)
  }

  /** A step never overshoots the crop it aims at, and stays put inside the dead zone. */
  lemma NextCropStepsToward(current: Target, aim: Target, alpha: real, dt: real, still: bool, config: Config, d: Display,
                            isHero: bool, curves: Curves)
    requires Positive(d) && 0.0 <= alpha <= 1.0
    ensures StepsToward(current, NextCrop(current, aim, alpha, dt, still, config, d, isHero, curves), aim, still, d)
  {
    LerpIsBetween(current.centerX, aim.centerX, alpha);
    LerpIsBetween(current.centerY, aim.centerY, alpha);
    var x := if still then current.centerX else Lerp(current.centerX, aim.centerX, alpha);
    var y := if still then current.centerY else Lerp(current.centerY, aim.centerY, alpha);
    PannedIsBetween(current, x, y, dt, config, isHero, curves);
    var to := Panned(current, x, y, dt, config, isHero, curves);
    assert Between(current.centerX, to.0, aim.centerX) && Between(current.centerY, to.1, aim.centerY);
  }

  /** The height wanted: the share of the way that the smoothing takes, all of it when the crop falls back. */
  function Smoothed(from: real, to: real, seen: bool, dt: real, curves: Curves): real {
    if seen then from + curves.alpha(dt) * (to - from) else to
  }

  lemma SmoothedIsLerp(from: real, to: real, seen: bool, dt: real, curves: Curves)
    ensures Smoothed(from, to, seen, dt, curves) == Lerp(from, to, Alpha(seen, dt, curves))
  {
  }

  lemma StepZooms(current: Target, aim: Target, x: real, y: real, seen: bool, dt: real, config: Config, d: Display,
                  isHero: bool, curves: Curves)
    requires Usable(config) && Positive(d) && dt > 0.0 && InRange(current, config, d)
    ensures var wanted := Lerp(current.height, aim.height, Alpha(seen, dt, curves));
      ZoomsTo(ClampTarget(Target(x, y, NextHeight(current.height, wanted, dt, config, isHero)), d).height,
              Smoothed(current.height, aim.height, seen, dt, curves), current.height, dt, config, isHero)
  {
    hide Lerp, NextHeight, ClampTarget, ZoomsTo, Smoothed;
    SmoothedIsLerp(current.height, aim.height, seen, dt, curves);
    var wanted := Lerp(current.height, aim.height, Alpha(seen, dt, curves));
    NextHeightIsNearest(current.height, wanted, dt, config, isHero);
    NextHeightIsLimited(current.height, wanted, dt, config, isHero);
    ClampKeepsHeight(Target(x, y, NextHeight(current.height, wanted, dt, config, isHero)), d);
  }

  /** The height of a step's crop is the reachable one nearest to the height the smoothing wants. */
  lemma NextCropZooms(current: Target, aim: Target, seen: bool, dt: real, still: bool, config: Config, d: Display,
                      isHero: bool, curves: Curves)
    requires Usable(config) && Positive(d) && dt > 0.0 && InRange(current, config, d)
    ensures ZoomsTo(NextCrop(current, aim, Alpha(seen, dt, curves), dt, still, config, d, isHero, curves).height,
                    Smoothed(current.height, aim.height, seen, dt, curves), current.height, dt, config, isHero)
  {
    hide Lerp, NextHeight, ClampTarget, ZoomsTo, Smoothed, Panned, Alpha;
    var alpha := Alpha(seen, dt, curves);
    var x := if still then current.centerX else Lerp(current.centerX, aim.centerX, alpha);
    var y := if still then current.centerY else Lerp(current.centerY, aim.centerY, alpha);
    var to := Panned(current, x, y, dt, config, isHero, curves);
    StepZooms(current, aim, to.0, to.1, seen, dt, config, d, isHero, curves);
  }

  /** The smoothed step from the current crop toward the crop of the sample. */
  method Advance(current: Target, sample: Sample, dt: real, wasPanning: bool, config: Config, d: Display,
                 isHero: bool, curves: Curves)
    returns (next: Target, panning: bool, seen: bool, ghost aim: Target)
    requires Positive(d) && dt > 0.0
    ensures Toward(aim, seen, sample, config, d)
    ensures panning == PansOn(current, aim, Alpha(seen, dt, curves), seen, wasPanning, config, curves)
    ensures next == NextCrop(current, aim, Alpha(seen, dt, curves), dt, seen && !panning, config, d, isHero, curves)
    ensures Usable(config) && InRange(current, config, d) ==>
              ZoomsTo(next.height, Smoothed(current.height, aim.height, seen, dt, curves), current.height, dt, config, isHero)
    ensures Usable(config) && InRange(current, config, d) ==> HeightMoves(current, next, aim, dt, config, d, isHero, curves)
  {
    hide NextHeight, ZoomsTo, Smoothed, ClampTarget, Framed;
    var fitted := TargetFromBox(sample, config, d);
    seen := fitted.Some?;
    var target := if seen then fitted.value else CenterTarget(d);
    aim := target;
    var alpha := if seen then curves.alpha(dt) else 1.0;
    var x, y;
    x, y, panning := PanToward(current, target, alpha, dt, seen, wasPanning, config, isHero, curves);
    var height := NextHeight(current.height, Lerp(current.height, target.height, alpha), dt, config, isHero);
    next := ClampTarget(Target(x, y, height), d);
    if Usable(config) && InRange(current, config, d) {
      ClampedIsInRange(0.5, 0.5, 1.0, config, d);
      HeightStep(current, target, x, y, alpha, dt, config, d, isHero, curves);
      StepZooms(current, target, x, y, seen, dt, config, d, isHero, curves);
    }
  }

  /** The smoothed center: unmoved inside the dead zone, otherwise panned toward the target's. */
  method PanToward(current: Target, target: Target, alpha: real, dt: real, seen: bool, wasPanning: bool,
                   config: Config, isHero: bool, curves: Curves)
    returns (x: real, y: real, panning: bool)
    ensures panning == PansOn(current, target, alpha, seen, wasPanning, config, curves)
    ensures (x, y) == if seen && !panning then Panned(current, current.centerX, current.centerY, dt, config, isHero, curves)
                      else Panned(current, Lerp(current.centerX, target.centerX, alpha),
                                  Lerp(current.centerY, target.centerY, alpha), dt, config, isHero, curves)
  {
    var smoothX := Lerp(current.centerX, target.centerX, alpha);
    var smoothY := Lerp(current.centerY, target.centerY, alpha);
    panning := wasPanning;
    if seen {
      var displacement := curves.hypot(smoothX - current.centerX, smoothY - current.centerY);
      var deadZone := config.deadZone * current.height;
      if panning {
        if displacement < deadZone * HYSTERESIS_RELEASE {
          panning := false;
        }
      } else if displacement > deadZone {
        panning := true;
      }
      if !panning {
        smoothX, smoothY := current.centerX, current.centerY;
      }
    }
    x, y := Pan(current, smoothX, smoothY, dt, config, isHero, curves);
  }

  predicate Differs(a: Target, b: Target) {
    || Abs(a.centerX - b.centerX) > DEDUP_EPSILON
    || Abs(a.centerY - b.centerY) > DEDUP_EPSILON
    || Abs(a.height - b.height) > DEDUP_EPSILON
  }

  // ---- the loop's state -------------------------------------------------------------

  /** `current` and the keyframes emitted so far; `now` is the time of the last sample taken. */
  datatype Follow = Follow(current: Target, panning: bool, keyframes: seq<Keyframe>,
                           evidence: seq<Evidence>, confidence: real)

  function LastEmit(f: Follow): real
    requires f.keyframes != []
  {
    f.keyframes[|f.keyframes| - 1].time
  }

  /** Keyframe times are ordered, from the scene start up to `now`; spread out when the hold is. */
  ghost predicate Timed(path: seq<Keyframe>, start: real, now: real, config: Config) {
    && path != [] && path[0].time == start && path[|path| - 1].time <= now
    && Ascending(path)
    && (config.minHold > 2.0 * EDGE_EPSILON ==> Rising(path, EDGE_EPSILON))
  }

  ghost predicate Zoomed(f: Follow, resets: set<real>, now: real, config: Config) {
    && (forall r <- resets :: r <= now)
    && ZoomBounded(f.keyframes, resets, config.maxZoom)
    && ZoomBoundedTo(f.keyframes, resets, config.maxZoom, f.current, now)
  }

  /** What is known of the samples: whether they lie in the scene, at distinct times. */
  datatype Premise = Premise(start: real, inScene: bool, distinct: bool)

  ghost predicate RangedPath(path: seq<Keyframe>, config: Config, d: Display) {
    forall k <- path :: InRange(k.target, config, d)
  }

  /** What the loop keeps; `resets` are the times of the loss keyframes. */
  ghost predicate Sound(p: Premise, f: Follow, resets: set<real>, now: real, config: Config, d: Display) {
    && f.keyframes != []
    && (p.inScene ==> Timed(f.keyframes, p.start, now, config))
    && (Usable(config) ==> InRange(f.current, config, d) && RangedPath(f.keyframes, config, d))
    && (p.inScene && p.distinct && Usable(config) ==> Zoomed(f, resets, now, config))
  }

  lemma AppendTimed(path: seq<Keyframe>, k: Keyframe, start: real, now: real, config: Config)
    requires Timed(path, start, now, config) && path[|path| - 1].time <= k.time
    requires config.minHold > 2.0 * EDGE_EPSILON ==> path[|path| - 1].time + EDGE_EPSILON < k.time
    ensures Timed(path + [k], start, k.time, config)
  {
    var longer := path + [k];
    forall i, m | 0 <= i < m < |longer| ensures longer[i].time <= longer[m].time {
      assert i < |path| - 1 ==> path[i].time <= path[|path| - 1].time;
    }
    if config.minHold > 2.0 * EDGE_EPSILON {
      forall i, m | 0 <= i < m < |longer| ensures longer[i].time + EDGE_EPSILON < longer[m].time {
        assert i < |path| - 1 ==> path[i].time + EDGE_EPSILON < path[|path| - 1].time;
      }
    }
  }

  lemma AppendCurrentBounded(f: Follow, k: Keyframe, resets: set<real>, now: real, rate: real)
    requires ZoomBounded(f.keyframes, resets, rate) && ZoomBoundedTo(f.keyframes, resets, rate, f.current, now)
    requires k.time == now && k.target == f.current
    ensures ZoomBounded(f.keyframes + [k], resets, rate)
  {
    var longer := f.keyframes + [k];
    forall i, m | 0 <= i < m < |longer| && Unreset(resets, longer[i].time, longer[m].time)
      ensures Abs(longer[m].target.height - longer[i].target.height) <= Reach(rate, longer[m].time - longer[i].time)
    {
      assert longer[i] == f.keyframes[i];
      assert m < |f.keyframes| ==> longer[m] == f.keyframes[m];
    }
  }

  lemma AppendCurrentZoomed(f: Follow, k: Keyframe, resets: set<real>, now: real, config: Config)
    requires Zoomed(f, resets, now, config) && k.time == now && k.target == f.current
    ensures Zoomed(f.(keyframes := f.keyframes + [k]), resets, now, config)
  {
    AppendCurrentBounded(f, k, resets, now, config.maxZoom);
    var longer := f.keyframes + [k];
    forall i | 0 <= i < |longer| && Unreset(resets, longer[i].time, now)
      ensures Abs(f.current.height - longer[i].target.height) <= Reach(config.maxZoom, now - longer[i].time)
    {
      if i == |f.keyframes| {
        assert Reach(config.maxZoom, 0.0) == 0.0;
      } else {
        assert longer[i] == f.keyframes[i];
      }
    }
  }

  lemma Emitting(p: Premise, f: Follow, k: Keyframe, resets: set<real>, now: real, config: Config, d: Display)
    requires Sound(p, f, resets, now, config, d) && k.time == now && k.target == f.current
    requires config.minHold > 2.0 * EDGE_EPSILON ==> LastEmit(f) + EDGE_EPSILON < now
    ensures Sound(p, f.(keyframes := f.keyframes + [k]), resets, now, config, d)
  {
    if p.inScene {
      AppendTimed(f.keyframes, k, p.start, now, config);
      if p.distinct && Usable(config) {
        AppendCurrentZoomed(f, k, resets, now, config);
      }
    }
  }

  lemma AppendResetZoomed(f: Follow, k: Keyframe, resets: set<real>, now: real, later: real, config: Config)
    requires Zoomed(f, resets, now, config) && now <= k.time <= later
    requires forall i | 0 <= i < |f.keyframes| :: f.keyframes[i].time <= k.time
    ensures Zoomed(f.(current := k.target, keyframes := f.keyframes + [k]), resets + {k.time}, later, config)
  {
    var longer, resets' := f.keyframes + [k], resets + {k.time};
    assert k.time in resets';
    forall i, m | 0 <= i < m < |longer| && Unreset(resets', longer[i].time, longer[m].time)
      ensures Abs(longer[m].target.height - longer[i].target.height)
           <= Reach(config.maxZoom, longer[m].time - longer[i].time)
    {
      assert Unreset(resets, longer[i].time, longer[m].time);
      assert m < |f.keyframes|;
    }
    forall i | 0 <= i < |longer| ensures !Unreset(resets', longer[i].time, later) {
      assert longer[i].time <= k.time <= later;
    }
  }

  /** A detection loss: the full-height center crop, from which no zoom bound is owed. */
  lemma Losing(p: Premise, f: Follow, k: Keyframe, resets: set<real>, now: real, later: real, config: Config, d: Display)
    requires Sound(p, f, resets, now, config, d) && Positive(d)
    requires k.target == CenterTarget(d) && LastEmit(f) + EDGE_EPSILON < k.time && now <= k.time <= later
    ensures var f' := f.(current := k.target, keyframes := f.keyframes + [k]);
      Sound(p, f', resets + {k.time}, later, config, d)
      && (p.inScene ==> JustReset(f', resets + {k.time}, later))
  {
    if Usable(config) {
      ClampedIsInRange(0.5, 0.5, 1.0, config, d);
    }
    if p.inScene {
      AppendTimed(f.keyframes, k, p.start, now, config);
      forall i | 0 <= i < |f.keyframes| ensures f.keyframes[i].time <= k.time {
        assert i < |f.keyframes| - 1 ==> f.keyframes[i].time <= LastEmit(f);
      }
      if p.distinct && Usable(config) {
        AppendResetZoomed(f, k, resets, now, later, config);
      }
    }
    assert k.time in resets + {k.time};
  }

  /** The last keyframe is a loss keyframe, so nothing up to `now` is free of a reset. */
  ghost predicate JustReset(f: Follow, resets: set<real>, now: real) {
    forall i | 0 <= i < |f.keyframes| :: !Unreset(resets, f.keyframes[i].time, now)
  }

  lemma Moving(p: Premise, f: Follow, next: Target, resets: set<real>, now: real, later: real, config: Config, d: Display)
    requires Sound(p, f, resets, now, config, d) && now <= later
    requires Usable(config) ==> InRange(next, config, d)
    requires p.inScene && p.distinct && Usable(config) && !JustReset(f, resets, now) ==>
               Abs(next.height - f.current.height) <= Reach(config.maxZoom, later - now)
    ensures Sound(p, f.(current := next), resets, later, config, d)
  {
    if p.inScene && p.distinct && Usable(config) {
      MovingZoomed(f, next, resets, now, later, config);
    }
  }

  /** Soundness is about the keyframes and the current crop alone. */
  lemma SoundDependsOn(p: Premise, f: Follow, g: Follow, resets: set<real>, now: real, config: Config, d: Display)
    requires f.keyframes == g.keyframes && f.current == g.current
    ensures Sound(p, f, resets, now, config, d) ==> Sound(p, g, resets, now, config, d)
    ensures JustReset(f, resets, now) ==> JustReset(g, resets, now)
  {
  }

  lemma MovingZoomed(f: Follow, next: Target, resets: set<real>, now: real, later: real, config: Config)
    requires Zoomed(f, resets, now, config) && now <= later
    requires !JustReset(f, resets, now) ==>
               Abs(next.height - f.current.height) <= Reach(config.maxZoom, later - now)
    ensures Zoomed(f.(current := next), resets, later, config)
  {
    forall i | 0 <= i < |f.keyframes| && Unreset(resets, f.keyframes[i].time, later)
      ensures Abs(next.height - f.keyframes[i].target.height) <= Reach(config.maxZoom, later - f.keyframes[i].time)
    {
      assert Unreset(resets, f.keyframes[i].time, now);
      ReachAdds(config.maxZoom, now - f.keyframes[i].time, later - now);
    }
  }

  // ---- the loop -------------------------------------------------------------------

  /** The state after a detection loss that follows an observation at `lastSeen`. */
  function AfterLoss(f: Follow, lastSeen: real, isHero: bool, config: Config, d: Display): Follow
    requires Positive(d) && f.keyframes != []
  {
    var holdEnd := lastSeen + HoldSeconds(config);
    var evidence := [SinglePersistentFace, DetectionLost] + HeroEvidence(isHero);
    if holdEnd <= LastEmit(f) + EDGE_EPSILON then f
    else Follow(CenterTarget(d), false, f.keyframes + [Keyframe(holdEnd, TrackedCrop, CenterTarget(d), 0.0, evidence)],
                evidence, 0.0)
  }

  /** The loss keyframe after a gap longer than the hold, unless one was emitted since. */
  method NoteLoss(f: Follow, lastSeen: real, isHero: bool, config: Config, d: Display,
                  ghost p: Premise, ghost resets: set<real>, ghost later: real)
    returns (f': Follow, ghost resets': set<real>)
    requires Positive(d) && lastSeen + HoldSeconds(config) <= later && Sound(p, f, resets, lastSeen, config, d)
    ensures f' == AfterLoss(f, lastSeen, isHero, config, d)
    ensures if lastSeen + HoldSeconds(config) <= LastEmit(f) + EDGE_EPSILON then f' == f && resets' == resets && !p.inScene
            else Sound(p, f', resets', later, config, d) && (p.inScene ==> JustReset(f', resets', later))
                 && resets' == resets + {lastSeen + HoldSeconds(config)} && |f'.keyframes| == |f.keyframes| + 1
  {
    hide Rising, Ascending;
    var holdEnd := lastSeen + HoldSeconds(config);
    f', resets' := f, resets;
    if holdEnd > LastEmit(f) + EDGE_EPSILON {
      var evidence := [SinglePersistentFace, DetectionLost] + HeroEvidence(isHero);
      var k := Keyframe(holdEnd, TrackedCrop, CenterTarget(d), 0.0, evidence);
      Losing(p, f, k, resets, lastSeen, later, config, d);
      f' := Follow(CenterTarget(d), false, f.keyframes + [k], evidence, 0.0);
      resets' := resets + {holdEnd};
    }
  }

  function HeroEvidence(isHero: bool): seq<Evidence> { if isHero then [HeroProtection] else [] }

  /** The crop moves to `next` at the sample; a keyframe follows when the hold is over and the crop differs. */
  method MoveAndEmit(f: Follow, next: Target, time: real, config: Config, ghost d: Display,
                     ghost p: Premise, ghost resets: set<real>, ghost now: real)
    returns (f': Follow)
    requires Sound(p, f, resets, now, config, d) && now <= time
    requires Usable(config) ==> InRange(next, config, d)
    requires p.inScene && p.distinct && Usable(config) && !JustReset(f, resets, now) ==>
               Abs(next.height - f.current.height) <= Reach(config.maxZoom, time - now)
    ensures Sound(p, f', resets, time, config, d)
    ensures f' == f.(current := next, keyframes := f'.keyframes)
    ensures f'.keyframes ==
              if time - LastEmit(f) >= config.minHold - EDGE_EPSILON
                 && Differs(next, f.keyframes[|f.keyframes| - 1].target)
              then f.keyframes + [Keyframe(time, TrackedCrop, next, f.confidence, f.evidence)]
              else f.keyframes
  {
    Moving(p, f, next, resets, now, time, config, d);
    f' := f.(current := next);
    if time - LastEmit(f) >= config.minHold - EDGE_EPSILON
       && Differs(next, f.keyframes[|f.keyframes| - 1].target) {
      var k := Keyframe(time, TrackedCrop, next, f.confidence, f.evidence);
      Emitting(p, f', k, resets, time, config, d);
      f' := f'.(keyframes := f.keyframes + [k]);
    }
  }

  function StepEvidence(seen: bool, isHero: bool): seq<Evidence> {
    (if seen then [SinglePersistentFace] else [SinglePersistentFace, DetectionLost]) + HeroEvidence(isHero)
  }

  /** Either no time has been skipped since `now`, or a loss keyframe has just been emitted. */
  ghost predicate Caught(p: Premise, f: Follow, resets: set<real>, now: real, time: real, dt: real) {
    && now <= time
    && (p.inScene && p.distinct ==> time - now == dt || JustReset(f, resets, now))
  }

  /** The step's evidence, and its crop, smoothed toward the crop of the sample. */
  ghost predicate Aims(f: Follow, f': Follow, aim: Target, seen: bool, sample: Sample, dt: real, confidence: real,
                       isHero: bool, config: Config, d: Display, curves: Curves)
    requires Positive(d)
  {
    && Toward(aim, seen, sample, config, d)
    && f'.evidence == StepEvidence(seen, isHero) && f'.confidence == (if seen then confidence else 0.0)
    && f'.panning == PansOn(f.current, aim, Alpha(seen, dt, curves), seen, f.panning, config, curves)
    && f'.current == NextCrop(f.current, aim, Alpha(seen, dt, curves), dt, seen && !f'.panning, config, d, isHero, curves)
  }

  /** The new crop is emitted when the hold is over and it differs from the last one emitted. */
  predicate Emits(f: Follow, f': Follow, time: real, config: Config)
    requires f.keyframes != []
  {
    f'.keyframes ==
      if time - LastEmit(f) >= config.minHold - EDGE_EPSILON
         && Differs(f'.current, f.keyframes[|f.keyframes| - 1].target)
      then f.keyframes + [Keyframe(time, TrackedCrop, f'.current, f'.confidence, f'.evidence)]
      else f.keyframes
  }

  /** From `f`, the smoothed crop moves toward the sample's, and a keyframe may follow. */
  ghost predicate Stepped(f: Follow, f': Follow, sample: Sample, dt: real, confidence: real, isHero: bool, config: Config,
                          d: Display, curves: Curves)
    requires Positive(d) && f.keyframes != []
  {
    && (exists aim, seen :: Aims(f, f', aim, seen, sample, dt, confidence, isHero, config, d, curves))
    && Emits(f, f', sample.time, config)
  }

  /** The smoothed crop at one sample. */
  method Smooth(f: Follow, sample: Sample, dt: real, confidence: real, isHero: bool, config: Config, d: Display, curves: Curves)
    returns (g: Follow, next: Target, ghost aim: Target, seen: bool)
    requires Positive(d) && dt > 0.0
    ensures g.keyframes == f.keyframes && g.current == f.current
    ensures forall g': Follow | g' == g.(current := next, keyframes := g'.keyframes) ::
              Aims(f, g', aim, seen, sample, dt, confidence, isHero, config, d, curves)
    ensures Usable(config) && InRange(f.current, config, d) ==>
              InRange(next, config, d) && Abs(next.height - f.current.height) <= Reach(config.maxZoom, dt)
  {
    var panning;
    next, panning, seen, aim := Advance(f.current, sample, dt, f.panning, config, d, isHero, curves);
    g := f.(panning := panning, evidence := StepEvidence(seen, isHero), confidence := if seen then confidence else 0.0);
  }

  /** The smoothed crop at one sample, and its keyframe. */
  method StepTo(f: Follow, sample: Sample, dt: real, confidence: real, isHero: bool, config: Config, d: Display,
                curves: Curves, ghost p: Premise, ghost resets: set<real>, ghost now: real)
    returns (f': Follow)
    requires Positive(d) && dt > 0.0 && Sound(p, f, resets, now, config, d)
    requires Caught(p, f, resets, now, sample.time, dt)
    ensures Sound(p, f', resets, sample.time, config, d)
    ensures Stepped(f, f', sample, dt, confidence, isHero, config, d, curves)
  {
    var g, next, aim, seen := Smooth(f, sample, dt, confidence, isHero, config, d, curves);
    SoundDependsOn(p, f, g, resets, now, config, d);
    f' := MoveAndEmit(g, next, sample.time, config, d, p, resets, now);
    assert f' == g.(current := next, keyframes := f'.keyframes);
    assert Aims(f, f', aim, seen, sample, dt, confidence, isHero, config, d, curves);
  }

  /** One turn of the loop: a loss first when the gap exceeds the hold, then a step toward the sample. */
  ghost predicate Took(f: Follow, f': Follow, sample: Sample, previous: real, confidence: real, isHero: bool,
                       config: Config, d: Display, curves: Curves)
    requires Positive(d) && f.keyframes != []
  {
    var gap := sample.time - previous;
    Stepped(if gap > HoldSeconds(config) then AfterLoss(f, previous, isHero, config, d) else f, f', sample,
            StepTime(gap), confidence, isHero, config, d, curves)
  }

  function StepTime(gap: real): real { if gap <= 0.0 then MIN_DT else gap }

  /** The loss keyframe when the gap before a sample exceeds the hold. */
  method HandleGap(f: Follow, previous: real, time: real, isHero: bool, config: Config, d: Display,
                   ghost p: Premise, ghost resets: set<real>)
    returns (g: Follow, ghost resets': set<real>, ghost now: real)
    requires Positive(d) && previous <= time && (p.distinct ==> previous < time)
    requires Sound(p, f, resets, previous, config, d)
    ensures g == if time - previous > HoldSeconds(config) then AfterLoss(f, previous, isHero, config, d) else f
    ensures Sound(p, g, resets', now, config, d) && Caught(p, g, resets', now, time, StepTime(time - previous))
    ensures p.inScene ==> resets' == resets + LossAfter(previous, time, config)
  {
    g, resets', now := f, resets, previous;
    if time - previous > HoldSeconds(config) {
      g, resets' := NoteLoss(f, previous, isHero, config, d, p, resets, time);
      now := if |g.keyframes| > |f.keyframes| then time else previous;
    }
  }

  /** One turn of the loop over the later samples. */
  method TakeSample(f: Follow, sample: Sample, previous: real, confidence: real, isHero: bool, config: Config,
                    d: Display, curves: Curves, ghost p: Premise, ghost resets: set<real>)
    returns (f': Follow, ghost resets': set<real>)
    requires Positive(d) && previous <= sample.time && (p.distinct ==> previous < sample.time)
    requires Sound(p, f, resets, previous, config, d)
    ensures Sound(p, f', resets', sample.time, config, d)
    ensures Took(f, f', sample, previous, confidence, isHero, config, d, curves)
    ensures p.inScene ==> resets' == resets + LossAfter(previous, sample.time, config)
  {
    var g;
    ghost var now;
    g, resets', now := HandleGap(f, previous, sample.time, isHero, config, d, p, resets);
    f' := StepTo(g, sample, StepTime(sample.time - previous), confidence, isHero, config, d, curves, p, resets', now);
  }

  /** The end of the hold after an observation, when the next comes later than that. */
  function LossAfter(seen: real, next: real, config: Config): set<real> {
    if next - seen > HoldSeconds(config) then {seen + HoldSeconds(config)} else {}
  }

  /** The detection losses between the samples. */
  function LossTimes(samples: seq<Sample>, config: Config): set<real> {
    if |samples| <= 1 then {}
    else LossTimes(samples[..|samples| - 1], config)
         + LossAfter(samples[|samples| - 2].time, samples[|samples| - 1].time, config)
  }

  /** The detection losses of the whole scene. */
  function SceneLosses(samples: seq<Sample>, end: real, config: Config): set<real>
    requires samples != []
  {
    LossTimes(samples, config) + LossAfter(samples[|samples| - 1].time, end, config)
  }

  /** Samples in time order, as the premise says. */
  ghost predicate Ordered(samples: seq<Sample>, end: real, p: Premise) {
    && (forall i, k | 0 <= i < k < |samples| ::
          samples[i].time <= samples[k].time && (p.distinct ==> samples[i].time < samples[k].time))
    && (p.inScene && samples != [] ==> p.start <= samples[0].time && samples[|samples| - 1].time <= end)
  }

  function FirstState(first: Target, start: real, confidence: real, isHero: bool): Follow {
    var evidence := [SinglePersistentFace] + HeroEvidence(isHero);
    Follow(first, false, [Keyframe(start, TrackedCrop, first, confidence, evidence)], evidence, confidence)
  }

  /** The turns of the loop over one subject's samples. */
  ghost function Turns(confidence: real, isHero: bool, config: Config, d: Display, curves: Curves)
    : (Follow, Follow, Sample, real) -> bool
    requires Positive(d)
  {
    (f: Follow, f': Follow, sample: Sample, previous: real) =>
      f.keyframes != [] && Took(f, f', sample, previous, confidence, isHero, config, d, curves)
  }

  /** The states of a loop, one per sample. */
  predicate Followed(trace: seq<Follow>, samples: seq<Sample>, first: Follow, turn: (Follow, Follow, Sample, real) -> bool)
    decreases |samples|
  {
    && |trace| == |samples| > 0
    && var last := |samples| - 1;
      if last == 0 then trace[0] == first
      else Followed(trace[..last], samples[..last], first, turn)
           && turn(trace[last - 1], trace[last], samples[last], samples[last - 1].time)
  }

  /** Where the loop stands after the first `n` samples. */
  predicate Reached(n: nat, f: Follow, resets: set<real>, trace: seq<Follow>, samples: seq<Sample>, first: Follow,
                    turn: (Follow, Follow, Sample, real) -> bool, config: Config, p: Premise)
  {
    && 0 < n <= |samples|
    && (p.inScene ==> resets == LossTimes(samples[..n], config))
    && Followed(trace, samples[..n], first, turn) && trace[n - 1] == f
  }

  lemma FirstIsSound(samples: seq<Sample>, first: Target, confidence: real, isHero: bool, config: Config, d: Display,
                     p: Premise, end: real)
    requires Positive(d) && samples != [] && Ordered(samples, end, p)
    requires Usable(config) ==> InRange(first, config, d)
    ensures Sound(p, FirstState(first, p.start, confidence, isHero), {}, samples[0].time, config, d)
  {
    if p.inScene && Usable(config) {
      ReachGrows(config.maxZoom, 0.0, samples[0].time - p.start);
    }
  }

  lemma LossesGrow(samples: seq<Sample>, n: nat, config: Config)
    requires 0 < n < |samples|
    ensures LossTimes(samples[..n + 1], config)
         == LossTimes(samples[..n], config) + LossAfter(samples[n - 1].time, samples[n].time, config)
  {
    assert samples[..n + 1][..n] == samples[..n];
  }

  lemma FollowOn(trace: seq<Follow>, samples: seq<Sample>, i: nat, f: Follow, first: Follow,
                 turn: (Follow, Follow, Sample, real) -> bool)
    requires 0 < i < |samples| && Followed(trace, samples[..i], first, turn)
    requires turn(trace[i - 1], f, samples[i], samples[i - 1].time)
    ensures Followed(trace + [f], samples[..i + 1], first, turn)
  {
    assert (trace + [f])[..i] == trace && samples[..i + 1][..i] == samples[..i];
  }

  lemma ReachedNext(n: nat, f: Follow, resets: set<real>, f': Follow, resets': set<real>, trace: seq<Follow>,
                    samples: seq<Sample>, first: Follow, turn: (Follow, Follow, Sample, real) -> bool, config: Config,
                    p: Premise)
    requires n < |samples| && Reached(n, f, resets, trace, samples, first, turn, config, p)
    requires turn(f, f', samples[n], samples[n - 1].time)
    requires p.inScene ==> resets' == resets + LossAfter(samples[n - 1].time, samples[n].time, config)
    ensures Reached(n + 1, f', resets', trace + [f'], samples, first, turn, config, p)
  {
    LossesGrow(samples, n, config);
    FollowOn(trace, samples, n, f', first, turn);
  }

  /** Where the loop stands, with what it keeps. */
  ghost predicate Stands(n: nat, f: Follow, resets: set<real>, trace: seq<Follow>, samples: seq<Sample>, first: Follow,
                         turn: (Follow, Follow, Sample, real) -> bool, config: Config, d: Display, p: Premise)
  {
    Reached(n, f, resets, trace, samples, first, turn, config, p) && Sound(p, f, resets, samples[n - 1].time, config, d)
  }

  method TakeNext(n: nat, f: Follow, samples: seq<Sample>, confidence: real, isHero: bool, config: Config, d: Display,
                  curves: Curves, ghost first: Follow, ghost p: Premise, ghost resets: set<real>, ghost trace: seq<Follow>)
    returns (f': Follow, ghost resets': set<real>)
    requires Positive(d) && 0 < n < |samples|
    requires samples[n - 1].time <= samples[n].time && (p.distinct ==> samples[n - 1].time < samples[n].time)
    requires Stands(n, f, resets, trace, samples, first, Turns(confidence, isHero, config, d, curves), config, d, p)
    ensures Stands(n + 1, f', resets', trace + [f'], samples, first, Turns(confidence, isHero, config, d, curves), config, d, p)
  {
    f', resets' := TakeSample(f, samples[n], samples[n - 1].time, confidence, isHero, config, d, curves, p, resets);
    ReachedNext(n, f, resets, f', resets', trace, samples, first, Turns(confidence, isHero, config, d, curves), config, p);
  }

  /** The loop over a subject's samples, from the crop fitted to the first of them. */
  method FollowSamples(samples: seq<Sample>, first: Target, confidence: real, start: real, isHero: bool,
                       config: Config, d: Display, curves: Curves, ghost p: Premise, ghost end: real)
    returns (f: Follow, ghost resets: set<real>, ghost trace: seq<Follow>)
    requires Positive(d) && samples != [] && p.start == start && Ordered(samples, end, p)
    requires Usable(config) ==> InRange(first, config, d)
    ensures Stands(|samples|, f, resets, trace, samples, FirstState(first, start, confidence, isHero),
                   Turns(confidence, isHero, config, d, curves), config, d, p)
  {
    hide Rising, Ascending;
    f := FirstState(first, start, confidence, isHero);
    ghost var f0 := f;
    resets, trace := {}, [f];
    FirstIsSound(samples, first, confidence, isHero, config, d, p, end);
    for i := 1 to |samples|
      invariant Stands(i, f, resets, trace, samples, f0, Turns(confidence, isHero, config, d, curves), config, d, p)
    {
      var g;
      g, resets := TakeNext(i, f, samples, confidence, isHero, config, d, curves, f0, p, resets, trace);
      f, trace := g, trace + [g];
    }
  }

  /** The loss keyframe after the last sample, if the scene goes on for longer than the hold. */
  method LoseAtEnd(f: Follow, lastTime: real, end: real, isHero: bool, config: Config, d: Display,
                   ghost p: Premise, ghost resets: set<real>)
    returns (g: Follow, ghost resets': set<real>)
    requires Positive(d) && (p.inScene ==> lastTime <= end) && Sound(p, f, resets, lastTime, config, d)
    ensures Sound(p, g, resets', end, config, d)
    ensures g == if end - lastTime > HoldSeconds(config) then AfterLoss(f, lastTime, isHero, config, d) else f
    ensures p.inScene ==> resets' == resets + LossAfter(lastTime, end, config)
  {
    g, resets' := f, resets;
    if end - lastTime > HoldSeconds(config) {
      g, resets' := NoteLoss(f, lastTime, isHero, config, d, p, resets, end);
      if |g.keyframes| > |f.keyframes| {
        return;
      }
    }
    if p.inScene {
      if Usable(config) {
        ReachGrows(config.maxZoom, 0.0, end - lastTime);
      }
      Moving(p, g, g.current, resets', lastTime, end, config, d);
    }
  }

  /** All keyframes of a scene whose loop ended in state `f`: the loss at its end, and its closing crop. */
  function Closing(f: Follow, lastTime: real, end: real, isHero: bool, config: Config, d: Display): seq<Keyframe>
    requires Positive(d) && f.keyframes != []
  {
    var g := if end - lastTime > HoldSeconds(config) then AfterLoss(f, lastTime, isHero, config, d) else f;
    if end > LastEmit(g) + EDGE_EPSILON then
      g.keyframes + [Keyframe(end, TrackedCrop, g.current, g.confidence, g.evidence)]
    else g.keyframes
  }

  /** The closing keyframes: a loss after the last sample, then the scene end. */
  method CloseScene(f: Follow, lastTime: real, end: real, isHero: bool, config: Config, d: Display,
                    ghost p: Premise, ghost resets: set<real>)
    returns (keyframes: seq<Keyframe>, ghost resets': set<real>)
    requires Positive(d) && (p.inScene ==> lastTime <= end) && Sound(p, f, resets, lastTime, config, d)
    ensures keyframes == Closing(f, lastTime, end, isHero, config, d)
    ensures keyframes != [] && (Usable(config) ==> RangedPath(keyframes, config, d))
    ensures p.inScene ==> Timed(keyframes, p.start, end, config) && end - EDGE_EPSILON <= keyframes[|keyframes| - 1].time
    ensures p.inScene && p.distinct && Usable(config) ==> ZoomBounded(keyframes, resets', config.maxZoom)
    ensures p.inScene ==> resets' == resets + LossAfter(lastTime, end, config)
  {
    var g;
    g, resets' := LoseAtEnd(f, lastTime, end, isHero, config, d, p, resets);
    keyframes := g.keyframes;
    if end > LastEmit(g) + EDGE_EPSILON {
      var k := Keyframe(end, TrackedCrop, g.current, g.confidence, g.evidence);
      Emitting(p, g, k, resets', end, config, d);
      keyframes := g.keyframes + [k];
    }
  }

  lemma SelectionKeeps(path: seq<Keyframe>, from: seq<Keyframe>, kept: seq<nat>, resets: set<real>, rate: real)
    requires Selects(path, from, kept)
    ensures Rising(from, EDGE_EPSILON) ==> Rising(path, EDGE_EPSILON)
    ensures ZoomBounded(from, resets, rate) ==> ZoomBounded(path, resets, rate)
    ensures forall k <- path :: k in from
  {
    forall i | 0 <= i < |path| ensures path[i] == from[kept[i]] && kept[i] < |from| {
    }
    if ZoomBounded(from, resets, rate) {
      forall i, k | 0 <= i < k < |path| && Unreset(resets, path[i].time, path[k].time)
        ensures Abs(path[k].target.height - path[i].target.height) <= Reach(rate, path[k].time - path[i].time)
      {
        assert kept[i] < kept[k];
      }
    }
  }

  /** Rising times inside the scene, from its start to within epsilon of its end. */
  ghost predicate Spans(path: seq<Keyframe>, start: real, end: real, config: Config) {
    && path != [] && Rising(path, EDGE_EPSILON)
    && (forall k <- path :: start <= k.time <= end)
    && (config.minHold > 2.0 * EDGE_EPSILON ==> path[0].time == start)
    && end - EDGE_EPSILON <= path[|path| - 1].time
  }

  lemma TimedSpan(path: seq<Keyframe>, start: real, end: real, config: Config)
    requires Timed(path, start, end, config)
    ensures forall k <- path :: start <= k.time <= end
  {
    forall k | k in path ensures start <= k.time <= end {
      var i :| 0 <= i < |path| && path[i] == k;
      assert i > 0 ==> path[0].time <= path[i].time;
      assert i < |path| - 1 ==> path[i].time <= path[|path| - 1].time;
    }
  }

  method MergePath(keyframes: seq<Keyframe>, config: Config, ghost p: Premise, ghost end: real, ghost resets: set<real>)
    returns (path: seq<Keyframe>)
    requires keyframes != []
    requires p.inScene ==> Timed(keyframes, p.start, end, config) && end - EDGE_EPSILON <= keyframes[|keyframes| - 1].time
    ensures path == SortBy(Merged(keyframes), TimeLe) && path != [] && forall k <- path :: k in keyframes
    ensures p.inScene ==> Spans(path, p.start, end, config)
    ensures p.inScene && ZoomBounded(keyframes, resets, config.maxZoom) ==> ZoomBounded(path, resets, config.maxZoom)
  {
    ghost var kept;
    path, kept := Finalize(keyframes);
    if p.inScene {
      SelectionKeeps(path, keyframes, kept, resets, config.maxZoom);
      TimedSpan(keyframes, p.start, end, config);
    }
  }

  /** Only the evidence of the first keyframe differs. */
  predicate SameShape(path: seq<Keyframe>, plain: seq<Keyframe>) {
    |path| == |plain|
    && forall i | 0 <= i < |path| :: path[i].time == plain[i].time && path[i].target == plain[i].target
  }

  lemma ShapeRange(path: seq<Keyframe>, plain: seq<Keyframe>, config: Config, d: Display)
    requires SameShape(path, plain) && RangedPath(plain, config, d)
    ensures RangedPath(path, config, d)
  {
    forall k | k in path ensures InRange(k.target, config, d) {
      var i :| 0 <= i < |path| && path[i] == k;
      assert plain[i] in plain;
    }
  }

  lemma ShapeSpans(path: seq<Keyframe>, plain: seq<Keyframe>, start: real, end: real, config: Config)
    requires SameShape(path, plain) && Spans(plain, start, end, config)
    ensures Spans(path, start, end, config)
  {
    forall k | k in path ensures start <= k.time <= end {
      var i :| 0 <= i < |path| && path[i] == k;
      assert plain[i] in plain;
    }
  }

  lemma ShapeZoom(path: seq<Keyframe>, plain: seq<Keyframe>, resets: set<real>, rate: real)
    requires SameShape(path, plain) && ZoomBounded(plain, resets, rate)
    ensures ZoomBounded(path, resets, rate)
  {
  }

  lemma CappedShape(path: seq<Keyframe>, merged: seq<Keyframe>, kept: seq<nat>, config: Config,
                    d: Display, p: Premise, end: real, resets: set<real>)
    requires merged != [] && path != [] && Selects(path[0 := merged[0]], merged, kept)
    requires path[0] == merged[0] || path[0] == Flagged(merged[0])
    requires |kept| == |path| && kept[0] == 0 && kept[|kept| - 1] == |merged| - 1
    ensures p.inScene && Spans(merged, p.start, end, config) ==> Spans(path, p.start, end, config)
    ensures ZoomBounded(merged, resets, config.maxZoom) ==> ZoomBounded(path, resets, config.maxZoom)
    ensures RangedPath(merged, config, d) ==> RangedPath(path, config, d)
    ensures path[0].time == merged[0].time && path[|path| - 1].time == merged[|merged| - 1].time
  {
    var plain := path[0 := merged[0]];
    assert plain[|plain| - 1] == merged[|merged| - 1];
    assert SameShape(path, plain);
    SelectionKeeps(plain, merged, kept, resets, config.maxZoom);
    if p.inScene && Spans(merged, p.start, end, config) {
      ShapeSpans(path, plain, p.start, end, config);
    }
    if ZoomBounded(merged, resets, config.maxZoom) {
      ShapeZoom(path, plain, resets, config.maxZoom);
    }
    if RangedPath(merged, config, d) {
      ShapeRange(path, plain, config, d);
    }
  }

  method CapPath(merged: seq<Keyframe>, config: Config, d: Display, ghost p: Premise, ghost end: real,
                 ghost resets: set<real>)
    returns (path: seq<Keyframe>)
    requires merged != [] && (p.inScene ==> Spans(merged, p.start, end, config))
    ensures path != [] && CappedFrom(path, merged, config.maxKeyframes)
    ensures p.inScene ==> Spans(path, p.start, end, config)
    ensures path[0].time == merged[0].time && path[|path| - 1].time == merged[|merged| - 1].time
    ensures ZoomBounded(merged, resets, config.maxZoom) ==> ZoomBounded(path, resets, config.maxZoom)
    ensures RangedPath(merged, config, d) ==> RangedPath(path, config, d)
  {
    ghost var kept;
    path, kept := CapKeyframes(merged, config.maxKeyframes);
    CappedShape(path, merged, kept, config, d, p, end, resets);
  }

  /** What is promised of a scene's tracked path, as far as the premise and the settings carry. */
  ghost predicate GoodPath(path: seq<Keyframe>, resets: set<real>, p: Premise, end: real, config: Config, d: Display) {
    && path != []
    && (config.maxKeyframes >= 2 ==> |path| <= config.maxKeyframes)
    && (p.inScene ==> Spans(path, p.start, end, config))
    && (Usable(config) ==> RangedPath(path, config, d))
    && (p.inScene && p.distinct && Usable(config) ==> ZoomBounded(path, resets, config.maxZoom))
  }

  /** The keyframes of a loop that ended in state `f`, closed, merged and capped. */
  ghost predicate ClosedFrom(path: seq<Keyframe>, f: Follow, lastTime: real, end: real, isHero: bool, config: Config, d: Display)
    requires Positive(d) && f.keyframes != []
  {
    var merged := SortBy(Merged(Closing(f, lastTime, end, isHero, config, d)), TimeLe);
    merged != [] && CappedFrom(path, merged, config.maxKeyframes)
  }

  /** The path comes from the states of the loop over the samples. */
  ghost predicate FromSamples(path: seq<Keyframe>, samples: seq<Sample>, first: Target, confidence: real, start: real,
                              end: real, isHero: bool, config: Config, d: Display, curves: Curves)
    requires Positive(d) && samples != []
  {
    exists trace: seq<Follow> ::
      && Followed(trace, samples, FirstState(first, start, confidence, isHero),
                  Turns(confidence, isHero, config, d, curves))
      && var f := trace[|trace| - 1];
        f.keyframes != [] && ClosedFrom(path, f, samples[|samples| - 1].time, end, isHero, config, d)
  }

  /** From the loop's last state to the path. */
  method FinishPath(f: Follow, lastTime: real, end: real, isHero: bool, config: Config, d: Display,
                    ghost p: Premise, ghost resets: set<real>)
    returns (path: seq<Keyframe>, ghost resets': set<real>)
    requires Positive(d) && (p.inScene ==> lastTime <= end) && Sound(p, f, resets, lastTime, config, d)
    ensures ClosedFrom(path, f, lastTime, end, isHero, config, d)
    ensures GoodPath(path, resets', p, end, config, d)
    ensures p.inScene ==> resets' == resets + LossAfter(lastTime, end, config)
  {
    var keyframes;
    keyframes, resets' := CloseScene(f, lastTime, end, isHero, config, d, p, resets);
    var merged := MergePath(keyframes, config, p, end, resets');
    path := CapPath(merged, config, d, p, end, resets');
  }

  lemma ReachedAll(f: Follow, resets: set<real>, trace: seq<Follow>, samples: seq<Sample>, first: Follow,
                   turn: (Follow, Follow, Sample, real) -> bool, config: Config, p: Premise)
    requires samples != [] && Reached(|samples|, f, resets, trace, samples, first, turn, config, p)
    ensures Followed(trace, samples, first, turn) && trace[|trace| - 1] == f
    ensures p.inScene ==> resets == LossTimes(samples, config)
  {
    assert samples[..|samples|] == samples;
  }

  /** What the resets are matters only to samples inside the scene. */
  lemma GoodFor(path: seq<Keyframe>, resets: set<real>, losses: set<real>, p: Premise, end: real, config: Config, d: Display)
    requires GoodPath(path, resets, p, end, config, d) && (p.inScene ==> resets == losses)
    ensures GoodPath(path, losses, p, end, config, d)
  {
  }

  method PathOfSamples(samples: seq<Sample>, first: Target, confidence: real, start: real, end: real, isHero: bool,
                       config: Config, d: Display, curves: Curves, ghost p: Premise)
    returns (path: seq<Keyframe>)
    requires Positive(d) && samples != [] && p.start == start && Ordered(samples, end, p)
    requires Usable(config) ==> InRange(first, config, d)
    ensures GoodPath(path, SceneLosses(samples, end, config), p, end, config, d)
    ensures FromSamples(path, samples, first, confidence, start, end, isHero, config, d, curves)
  {
    var f;
    ghost var resets, trace, all;
    f, resets, trace := FollowSamples(samples, first, confidence, start, isHero, config, d, curves, p, end);
    path, all := FinishPath(f, samples[|samples| - 1].time, end, isHero, config, d, p, resets);
    ReachedAll(f, resets, trace, samples, FirstState(first, start, confidence, isHero),
               Turns(confidence, isHero, config, d, curves), config, p);
    GoodFor(path, all, SceneLosses(samples, end, config), p, end, config, d);
  }

  predicate SampleOrder(a: Sample, b: Sample) {
    a.time < b.time || (a.time == b.time && (a.cx < b.cx || (a.cx == b.cx && (a.cy < b.cy || (a.cy == b.cy &&
      (a.h < b.h || (a.h == b.h && a.w <= b.w)))))))
  }

  lemma SampleOrderIsTotal()
    ensures TotalOrder(SampleOrder)
  {
  }

  ghost predicate DistinctTimes(samples: seq<Sample>) {
    Pairwise(samples, OtherTime)
  }

  predicate OtherTime(a: Sample, b: Sample) { a.time != b.time }

  /** The premise a track's samples meet in a scene. */
  ghost function PremiseOf(samples: seq<Sample>, start: real, end: real): Premise {
    Premise(start, forall s <- samples :: start <= s.time <= end, DistinctTimes(samples))
  }

  lemma SortedSamples(samples: seq<Sample>, start: real, end: real)
    ensures |SortBy(samples, SampleOrder)| == |samples|
    ensures Ordered(SortBy(samples, SampleOrder), end, PremiseOf(samples, start, end))
  {
    var s := SortBy(samples, SampleOrder);
    SampleOrderIsTotal();
    SortIsSorted(samples, SampleOrder);
    SortIsPermutation(samples, SampleOrder);
    SortHasSameElements(samples, SampleOrder);
    if DistinctTimes(samples) {
      SortIsPairwise(samples, SampleOrder, OtherTime);
      assert DistinctTimes(s);
    }
    forall i, k | 0 <= i < k < |s| ensures s[i].time <= s[k].time {
      assert SampleOrder(s[i], s[k]);
    }
    assert s != [] ==> s[0] in s && s[|s| - 1] in s;
  }

  function TwoStills(start: real, end: real, mode: Mode, target: Target, confidence: real, evidence: seq<Evidence>)
    : seq<Keyframe>
  {
    [Keyframe(start, mode, target, confidence, evidence), Keyframe(end, mode, target, confidence, evidence)]
  }

  /** The mean score, brought into [0, 1]. */
  predicate ConfidenceIs(confidence: real, score: real) {
    if score < 0.0 then confidence == 0.0 else if score > 1.0 then confidence == 1.0 else confidence == score
  }

  function UnitClamp(x: real): real { Min(1.0, Max(0.0, x)) }

  function SceneSamples(track: Track): seq<Sample> { SortBy(track.samples, SampleOrder) }

  /** The path of a subject whose first observation has a crop: as the loop builds it, and good. */
  ghost predicate TracksSubject(path: seq<Keyframe>, subject: Track, start: real, end: real, isHero: bool, config: Config,
                                d: Display, curves: Curves)
    requires Positive(d)
  {
    var samples := SceneSamples(subject);
    && samples != []
    && GoodPath(path, SceneLosses(samples, end, config), PremiseOf(subject.samples, start, end), end, config, d)
    && exists first ::
         && Toward(first, true, samples[0], config, d)
         && FromSamples(path, samples, first, UnitClamp(subject.meanScore), start, end, isHero, config, d, curves)
  }

  /**
   The tracked path of a scene.  Without a subject, or when no crop fits its first observation, the
   center crop is held from scene start to scene end; otherwise the path is good: inside the scene
   if its samples are, and then, between distinct times, with rate-limited zoom wherever no
   detection loss intervenes.
   */
  ghost predicate Tracked(path: seq<Keyframe>, persistent: seq<Track>, start: real, end: real, isHero: bool,
                          config: Config, d: Display, curves: Curves)
    requires Positive(d)
  {
    if persistent == [] || persistent[0].samples == [] then
      path == TwoStills(start, end, CenterFallback, CenterTarget(d), 0.0,
                        [SinglePersistentFace, FaceTrackUnstable] + (if isHero then [HeroProtection] else []))
    else
      var samples := SceneSamples(persistent[0]);
      && samples != []
      && if Unfit(samples[0], config, d)
         then path == TwoStills(start, end, BackgroundFill, CenterTarget(d), 0.0,
                                [SinglePersistentFace, FaceNearSourceEdge] + (if isHero then [HeroProtection] else []))
         else TracksSubject(path, persistent[0], start, end, isHero, config, d, curves)
  }

  /** `_tracked_keyframes`. */
  method TrackedKeyframes(start: real, end: real, persistent: seq<Track>, isHero: bool, config: Config, d: Display,
                          curves: Curves)
    returns (path: seq<Keyframe>)
    requires Positive(d)
    ensures Tracked(path, persistent, start, end, isHero, config, d, curves)
  {
    hide TwoStills;
    if persistent == [] || persistent[0].samples == [] {
      path := TwoStills(start, end, CenterFallback, CenterTarget(d), 0.0,
                        [SinglePersistentFace, FaceTrackUnstable] + HeroEvidence(isHero));
      return;
    }
    var samples := SortBy(persistent[0].samples, SampleOrder);
    SortedSamples(persistent[0].samples, start, end);
    var first := TargetFromBox(samples[0], config, d);
    if first.None? {
      path := TwoStills(start, end, BackgroundFill, CenterTarget(d), 0.0,
                        [SinglePersistentFace, FaceNearSourceEdge] + HeroEvidence(isHero));
      return;
    }
    path := PathOfSamples(samples, first.value, UnitClamp(persistent[0].meanScore), start, end, isHero,
                          config, d, curves, PremiseOf(persistent[0].samples, start, end));
    assert Toward(first.value, true, samples[0], config, d);
  }
}
