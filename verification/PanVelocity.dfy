/** How fast the tracked crop moves: its eased pan, and what the clamp makes of it. */
module PanVelocity {
  import opened CropGeometry
  import opened CropPath
  import opened CropTargets
  import opened TrackedPath

  // ---- the eased pan -----------------------------------------------------------------------------

  /** How far a pan of `distance` goes. */
  function Moved(distance: real, limit: real): real { PanScale(distance, limit) * distance }

  /** A limit eased at the ratio `r` of limit and distance. */
  function Eased(limit: real, r: real): real { limit * (r * (3.0 - 2.0 * r)) }

  lemma RatioInUnit(distance: real, limit: real) returns (r: real)
    requires 0.0 < limit < distance
    ensures r == limit / distance && 0.0 < r < 1.0 && r * distance == limit
  {
    r := limit / distance;
    assert r * distance == limit;
    if r >= 1.0 {
      MulNonnegative(r - 1.0, distance);
    }
    if r <= 0.0 {
      MulNonnegative(-r, distance);
    }
  }

  lemma SmoothstepMoves(r: real, distance: real, limit: real)
    requires r * distance == limit
    ensures Smoothstep(r) * distance == Eased(limit, r)
  {
    calc {
      Smoothstep(r) * distance;
      r * r * (3.0 - 2.0 * r) * distance;
      (r * distance) * (r * (3.0 - 2.0 * r));
    }
  }

  /** A pan beyond the limit is eased by their ratio, any other is taken whole. */
  lemma EasedStep(distance: real, limit: real) returns (r: real)
    requires 0.0 < limit < distance
    ensures 0.0 < r < 1.0 && r * distance == limit && Moved(distance, limit) == Eased(limit, r)
  {
    r := RatioInUnit(distance, limit);
    SmoothstepMoves(r, distance, limit);
    assert PanScale(distance, limit) == Smoothstep(r);
  }

  lemma WholeStep(distance: real, limit: real)
    requires !(0.0 < limit < distance)
    ensures Moved(distance, limit) == distance
  {
  }

  lemma ProductPositive(a: real, b: real)
    requires a > 0.0 && b > 0.0
    ensures a * b > 0.0
  {
  }

  /** Easing goes beyond the limit exactly above the ratio of one half. */
  lemma Remainder(limit: real, r: real)
    requires limit > 0.0 && 0.0 < r < 1.0
    ensures Eased(limit, r) <= limit <==> r <= 0.5
  {
    var a, b := 1.0 - r, 2.0 * r - 1.0;
    assert r * (3.0 - 2.0 * r) == 1.0 + a * b;
    assert limit * (1.0 + a * b) == limit + limit * (a * b);
    if r <= 0.5 {
      MulNonnegative(a, -b);
      MulNonnegative(limit, a * -b);
    } else {
      ProductPositive(a, b);
      ProductPositive(limit, a * b);
    }
  }

  lemma HalfOf(distance: real, limit: real, r: real)
    requires distance > 0.0 && r * distance == limit
    ensures r <= 0.5 <==> 2.0 * limit <= distance
  {
    var b := 2.0 * r - 1.0;
    assert b * distance == 2.0 * limit - distance;
    if r <= 0.5 {
      MulNonnegative(-b, distance);
    } else {
      ProductPositive(b, distance);
    }
  }

  /**
   The easing does not keep the pan velocity: a pan goes beyond the limit exactly when its distance
   lies strictly between the limit and twice the limit, or when the limit is not positive.
   */
  lemma PanVelocityIsKeptIff(distance: real, limit: real)
    requires distance >= 0.0
    ensures Moved(distance, limit) <= limit <==> distance <= limit || (limit > 0.0 && 2.0 * limit <= distance)
  {
    hide *;
    if 0.0 < limit < distance {
      var r := EasedStep(distance, limit);
      Remainder(limit, r);
      HalfOf(distance, limit, r);
    } else {
      WholeStep(distance, limit);
    }
  }

  lemma EasedAtMost(limit: real, r: real)
    requires limit > 0.0
    ensures Eased(limit, r) <= 1.125 * limit
  {
    var rest := 2.0 * ((r - 0.75) * (r - 0.75));
    assert 1.125 - r * (3.0 - 2.0 * r) == rest;
    MulNonnegative(limit, rest);
  }

  /** No pan goes beyond a positive limit by more than an eighth of it. */
  lemma PanExceedsByAnEighthAtMost(distance: real, limit: real)
    requires limit > 0.0 && distance >= 0.0
    ensures Moved(distance, limit) <= 1.125 * limit
  {
    hide *;
    if limit < distance {
      var r := EasedStep(distance, limit);
      EasedAtMost(limit, r);
    } else {
      WholeStep(distance, limit);
    }
  }

  // ---- the length of a pan -------------------------------------------------------------------------

  function Square(u: real): real { u * u }

  /** The length of a vector, and what `hypot` computes of it. */
  ghost predicate Euclidean(hypot: (real, real) -> real) {
    forall u, v :: hypot(u, v) >= 0.0 && Square(hypot(u, v)) == Square(u) + Square(v)
  }

  lemma SquareGrows(a: real, b: real)
    requires 0.0 <= a < b
    ensures Square(a) < Square(b)
  {
    ProductPositive(b - a, a + b);
    assert (b - a) * (a + b) == b * b - a * a;
  }

  lemma RootsAgree(a: real, b: real)
    requires a >= 0.0 && b >= 0.0 && Square(a) == Square(b)
    ensures a == b
  {
    if a < b {
      SquareGrows(a, b);
    } else if b < a {
      SquareGrows(b, a);
    }
  }

  lemma SquareOfShare(u: real, k: real)
    ensures Square(Share(k, u)) == Share(Square(k), Square(u))
  {
  }

  lemma ShareAdds(k: real, a: real, b: real)
    ensures Share(k, a + b) == Share(k, a) + Share(k, b)
  {
  }

  /** Scaling a vector scales its length. */
  lemma LengthScales(hypot: (real, real) -> real, u: real, v: real, k: real)
    requires Euclidean(hypot) && k >= 0.0
    ensures hypot(Share(k, u), Share(k, v)) == Share(k, hypot(u, v))
  {
    SquareOfShare(u, k);
    SquareOfShare(v, k);
    SquareOfShare(hypot(u, v), k);
    ShareAdds(Square(k), Square(u), Square(v));
    MulNonnegative(k, hypot(u, v));
    assert Square(hypot(Share(k, u), Share(k, v))) == Square(Share(k, hypot(u, v))) by {
      hide Square, Share;
    }
    RootsAgree(hypot(Share(k, u), Share(k, v)), Share(k, hypot(u, v)));
  }

  lemma LengthOnAxis(hypot: (real, real) -> real, u: real)
    requires Euclidean(hypot) && u >= 0.0
    ensures hypot(u, 0.0) == u
  {
    assert Square(0.0) == 0.0;
    RootsAgree(hypot(u, 0.0), u);
  }

  lemma LerpMoves(a: real, b: real, e: real)
    ensures Lerp(a, b, e) - a == Share(e, b - a)
  {
  }

  lemma ScaleInUnit(distance: real, limit: real)
    ensures 0.0 <= PanScale(distance, limit) <= 1.0
  {
    if distance > limit && limit > 0.0 && distance > 0.0 {
      EaseInUnit(limit / distance);
    }
  }

  /** How far the smoothed center lies from the crop's, and so the pan that is wanted. */
  function Distance(current: Target, x: real, y: real, curves: Curves): real {
    curves.hypot(x - current.centerX, y - current.centerY)
  }

  /** The length of a pan step is that of the eased pan. */
  lemma PannedLength(current: Target, x: real, y: real, dt: real, config: Config, isHero: bool, curves: Curves)
    requires Euclidean(curves.hypot)
    ensures var to := Panned(current, x, y, dt, config, isHero, curves);
      Distance(current, to.0, to.1, curves)
        == Moved(Distance(current, x, y, curves), PanLimit(current, dt, config, isHero))
  {
    var k := PanScale(Distance(current, x, y, curves), PanLimit(current, dt, config, isHero));
    ScaleInUnit(Distance(current, x, y, curves), PanLimit(current, dt, config, isHero));
    LerpMoves(current.centerX, x, k);
    LerpMoves(current.centerY, y, k);
    hide PanScale, PanLimit, Euclidean, Lerp;
    LengthScales(curves.hypot, x - current.centerX, y - current.centerY, k);
  }

  // ---- the step as emitted -------------------------------------------------------------------------

  /** The center a step pans to before the clamp. */
  function Pull(current: Target, aim: Target, alpha: real, still: bool): (real, real) {
    if still then (current.centerX, current.centerY)
    else (Lerp(current.centerX, aim.centerX, alpha), Lerp(current.centerY, aim.centerY, alpha))
  }

  /** The crop of a step before the clamp. */
  function Unclamped(current: Target, aim: Target, alpha: real, dt: real, still: bool, config: Config, isHero: bool,
                     curves: Curves): Target
  {
    var pull := Pull(current, aim, alpha, still);
    var to := Panned(current, pull.0, pull.1, dt, config, isHero, curves);
    Target(to.0, to.1, NextHeight(current.height, Lerp(current.height, aim.height, alpha), dt, config, isHero))
  }

  lemma NextCropClamps(current: Target, aim: Target, alpha: real, dt: real, still: bool, config: Config, d: Display,
                       isHero: bool, curves: Curves)
    requires Positive(d)
    ensures NextCrop(current, aim, alpha, dt, still, config, d, isHero, curves)
         == ClampTarget(Unclamped(current, aim, alpha, dt, still, config, isHero, curves), d)
  {
  }

  /**
   When the panned crop lies in the frame the clamp keeps it, so the step as emitted keeps the pan velocity
   exactly when the wanted pan is within the limit or at least twice a positive one.
   */
  lemma EmittedPanIsKeptIff(current: Target, aim: Target, alpha: real, dt: real, still: bool, config: Config, d: Display,
                            isHero: bool, curves: Curves)
    requires Wide(d) && Euclidean(curves.hypot)
    requires Framed(Unclamped(current, aim, alpha, dt, still, config, isHero, curves), d)
    ensures var next := NextCrop(current, aim, alpha, dt, still, config, d, isHero, curves);
      var pull, limit := Pull(current, aim, alpha, still), PanLimit(current, dt, config, isHero);
      var distance := Distance(current, pull.0, pull.1, curves);
      && Distance(current, next.centerX, next.centerY, curves) == Moved(distance, limit)
      && (Distance(current, next.centerX, next.centerY, curves) <= limit
          <==> distance <= limit || (limit > 0.0 && 2.0 * limit <= distance))
  {
    var pull, limit := Pull(current, aim, alpha, still), PanLimit(current, dt, config, isHero);
    var distance := Distance(current, pull.0, pull.1, curves);
    assert distance >= 0.0;
    NextCropClamps(current, aim, alpha, dt, still, config, d, isHero, curves);
    FramedIffClampFixes(Unclamped(current, aim, alpha, dt, still, config, isHero, curves), d);
    PannedLength(current, pull.0, pull.1, dt, config, isHero, curves);
    PanVelocityIsKeptIff(distance, limit);
  }

  lemma SmallerIsFramed(t: Target, height: real, d: Display)
    requires Wide(d) && Framed(t, d) && 0.0 < height <= t.height
    ensures Framed(t.(height := height), d)
  {
    MulNonnegative(t.height - height, d.height);
    assert Scale(t.height, d.height) - Scale(height, d.height) == (t.height - height) * d.height;
    ScaledHeight(height, d.height);
    SmallerInside(Scale(t.centerX, d.width), Scale(t.centerY, d.height), Scale(t.height, d.height),
                  Scale(height, d.height), d);
  }

  lemma SmallerInside(cx: real, cy: real, h: real, h': real, d: Display)
    requires 0.0 <= h' <= h && Inside(Around(cx, cy, h), d)
    ensures Inside(Around(cx, cy, h'), d)
  {
  }

  lemma PullIsFramed(current: Target, aim: Target, alpha: real, still: bool, d: Display)
    requires Framed(current, d) && Framed(aim, d) && current.height == aim.height && 0.0 <= alpha <= 1.0
    ensures var pull := Pull(current, aim, alpha, still); Framed(Target(pull.0, pull.1, current.height), d)
  {
    if !still {
      LerpIsFramed(current, aim, alpha, d);
      assert Lerp(current.height, aim.height, alpha) == current.height;
    }
  }

  lemma PannedCenterIsFramed(current: Target, height: real, x: real, y: real, dt: real, config: Config, isHero: bool,
                             d: Display, curves: Curves)
    requires Framed(current.(height := height), d) && Framed(Target(x, y, height), d)
    ensures var to := Panned(current, x, y, dt, config, isHero, curves); Framed(Target(to.0, to.1, height), d)
  {
    var k := PanScale(Distance(current, x, y, curves), PanLimit(current, dt, config, isHero));
    ScaleInUnit(Distance(current, x, y, curves), PanLimit(current, dt, config, isHero));
    LerpIsFramed(current.(height := height), Target(x, y, height), k, d);
    assert Lerp(height, height, k) == height;
  }

  /** A step that is no larger than the crops it moves from and to is panned inside the frame. */
  lemma NoGrowthStaysFramed(current: Target, aim: Target, alpha: real, dt: real, still: bool, config: Config, d: Display,
                            isHero: bool, curves: Curves)
    requires Wide(d) && Usable(config) && Framed(current, d) && Framed(aim, d) && 0.0 <= alpha <= 1.0
    requires var height := NextHeight(current.height, Lerp(current.height, aim.height, alpha), dt, config, isHero);
      height <= current.height && height <= aim.height
    ensures Framed(Unclamped(current, aim, alpha, dt, still, config, isHero, curves), d)
  {
    var height := NextHeight(current.height, Lerp(current.height, aim.height, alpha), dt, config, isHero);
    SmallerIsFramed(current, height, d);
    SmallerIsFramed(aim, height, d);
    PullIsFramed(current.(height := height), aim.(height := height), alpha, still, d);
    var pull := Pull(current, aim, alpha, still);
    PannedCenterIsFramed(current, height, pull.0, pull.1, dt, config, isHero, d, curves);
  }

  // ---- what the clamp adds -----------------------------------------------------------------------------

  /** Along one axis of length `full`, the center of a clamped crop `size` long. */
  function Settled(center: real, size: real, full: real): real {
    var kept := Min(size, full);
    Min(Max(center - size / 2.0, 0.0), full - kept) + kept / 2.0
  }

  lemma SettledMoves(from: real, to: real, size: real, size': real, full: real)
    requires full > 0.0 && size >= 0.0 && size' >= 0.0 && Settled(from, size, full) == from
    ensures Abs(Settled(to, size', full) - from) <= Abs(to - from) + Max(0.0, size' - size) / 2.0
  {
  }

  /** A crop's center in pixels moved from `a` to `b`, at most as far as `aim` and a share of the growth. */
  predicate MovesWithin(a: real, b: real, aim: real, growth: real, share: real) {
    Abs(b - a) <= Abs(aim - a) + Max(0.0, growth) * share
  }

  lemma SettledMovesWithin(from: real, to: real, h: real, h': real, full: real, wide: bool)
    requires full > 0.0 && h >= 0.0 && h' >= 0.0
    requires Settled(from, if wide then h * 9.0 / 16.0 else h, full) == from
    ensures MovesWithin(from, Settled(to, if wide then h' * 9.0 / 16.0 else h', full), to, h' - h,
                        if wide then 9.0 / 32.0 else 0.5)
  {
    if wide {
      SettledMoves(from, to, h * 9.0 / 16.0, h' * 9.0 / 16.0, full);
    } else {
      SettledMoves(from, to, h, h', full);
    }
  }

  lemma ClampedCenters(cx: real, cy: real, h: real, d: Display)
    requires Positive(d)
    ensures var r := ClampCrop(Around(cx, cy, h), d);
      r.x + r.w / 2.0 == Settled(cx, h * 9.0 / 16.0, d.width) && r.y + r.h / 2.0 == Settled(cy, h, d.height)
  {
  }

  lemma Unscale(a: real, b: real)
    requires b > 0.0
    ensures Scale(a / b, b) == a
  {
    Undivide(a, b);
  }

  lemma ClampSettles(t: Target, d: Display)
    requires Positive(d)
    ensures var c, h := ClampTarget(t, d), Scale(t.height, d.height);
      && Scale(c.centerX, d.width) == Settled(Scale(t.centerX, d.width), h * 9.0 / 16.0, d.width)
      && Scale(c.centerY, d.height) == Settled(Scale(t.centerY, d.height), h, d.height)
  {
    var r := CropRect(t, d);
    ClampedCenters(Scale(t.centerX, d.width), Scale(t.centerY, d.height), Scale(t.height, d.height), d);
    Unscale(r.x + r.w / 2.0, d.width);
    Unscale(r.y + r.h / 2.0, d.height);
  }

  lemma ScaledNonnegative(a: real, b: real)
    requires a >= 0.0 && b >= 0.0
    ensures Scale(a, b) >= 0.0
  {
    MulNonnegative(a, b);
  }

  /**
   In pixels, clamping adds to the pan of a settled crop at most half of what the crop grows by;
   a crop that shrinks or keeps its size moves no further than it was panned.
   */
  lemma ClampAddsHalfTheGrowth(current: Target, x: real, y: real, height: real, d: Display)
    requires Positive(d) && ClampTarget(current, d) == current && current.height >= 0.0 && height >= 0.0
    ensures var next := ClampTarget(Target(x, y, height), d);
      var growth := Scale(height, d.height) - Scale(current.height, d.height);
      && MovesWithin(Scale(current.centerX, d.width), Scale(next.centerX, d.width), Scale(x, d.width), growth, 9.0 / 32.0)
      && MovesWithin(Scale(current.centerY, d.height), Scale(next.centerY, d.height), Scale(y, d.height), growth, 0.5)
  {
    hide ClampTarget, Settled, MovesWithin, Scale;
    ClampSettles(current, d);
    ClampSettles(Target(x, y, height), d);
    ScaledNonnegative(current.height, d.height);
    ScaledNonnegative(height, d.height);
    var h, h' := Scale(current.height, d.height), Scale(height, d.height);
    SettledMovesWithin(Scale(current.centerX, d.width), Scale(x, d.width), h, h', d.width, true);
    SettledMovesWithin(Scale(current.centerY, d.height), Scale(y, d.height), h, h', d.height, false);
  }

  /** The bound is reached: at the edge of the frame a crop that only grows moves by half its growth. */
  lemma GrowthMovesTheCrop()
    ensures var d, current := Display(9.0, 16.0), Target(0.25, 0.5, 0.5);
      && ClampTarget(current, d) == current
      && ClampTarget(Target(0.25, 0.5, 1.0), d) == Target(0.5, 0.5, 1.0)
      && Scale(0.5, d.width) - Scale(0.25, d.width) == (Scale(1.0, d.height) - Scale(0.5, d.height)) * 9.0 / 32.0
  {
  }

  // ---- a step that is too fast -----------------------------------------------------------------------

  /** The settings as shipped. */
  const Defaults := Config(0.35, 0.12, 0.1, 0.38, 0.18, 0.55, 0.15, 0.5, 40)

  const FullHd := Display(1920.0, 1080.0)

  const Here := Target(0.4, 0.5, 0.5)

  /** A quarter of a second allows a pan of 0.06875; four thirds of that are wanted. */
  const WANTED := 0.275 / 3.0

  /** The crop aimed at, when a share `alpha` of the way is the wanted pan. */
  function There(alpha: real): Target
    requires alpha > 0.0
  {
    Target(0.4 + WANTED / alpha, 0.5, 0.5)
  }

  lemma FactorNonnegative(a: real, b: real)
    requires a * b >= 0.0 && b > 0.0
    ensures a >= 0.0
  {
  }

  lemma AtMostTwice(a: real, b: real)
    requires a >= 0.0 && b >= 0.5
    ensures 0.0 <= a / b <= 2.0 * a
  {
    var q := a / b;
    assert q * b == a;
    FactorNonnegative(q, b);
    MulNonnegative(b - 0.5, 2.0 * a);
    assert (2.0 * a - q) * b == (b - 0.5) * (2.0 * a);
    FactorNonnegative(2.0 * a - q, b);
  }

  lemma LerpReaches(a: real, offset: real, e: real)
    ensures Lerp(a, a + offset, e) == a + offset * e
  {
    assert a + offset - a == offset;
  }

  lemma ThereIsNear(alpha: real)
    requires 0.5 <= alpha <= 1.0
    ensures 0.0 <= WANTED / alpha <= 2.0 * WANTED
    ensures Pull(Here, There(alpha), alpha, false) == (0.4 + WANTED, 0.5)
    ensures Lerp(Here.height, There(alpha).height, alpha) == 0.5
  {
    AtMostTwice(WANTED, alpha);
    Undivide(WANTED, alpha);
    hide Lerp;
    LerpReaches(0.4, WANTED / alpha, alpha);
    LerpReaches(0.5, 0.0, alpha);
    assert Lerp(0.4, There(alpha).centerX, alpha) == 0.4 + WANTED;
    assert Lerp(0.5, 0.5, alpha) == 0.5;
  }

  lemma NearIsFramed(x: real)
    requires 0.2 <= x <= 0.8
    ensures Framed(Target(x, 0.5, 0.5), FullHd)
  {
    assert Scale(x, 1920.0) == 1920.0 * x && Scale(0.5, 1080.0) == 540.0;
  }

  lemma WantedIsEased()
    ensures PanLimit(Here, 0.25, Defaults, false) == 0.06875 && Moved(WANTED, 0.06875) == 0.07734375
  {
    var r := EasedStep(WANTED, 0.06875);
    assert r == 0.75;
  }

  /**
   With the settings as shipped, on a full-HD frame: a crop that starts to pan toward a subject a few
   hundredths of the frame away moves, after the clamp, an eighth farther than its velocity allows.
   */
  lemma PanVelocityIsExceeded(curves: Curves)
    requires Euclidean(curves.hypot) && 0.5 <= curves.alpha(0.25) <= 1.0
    ensures var alpha := Alpha(true, 0.25, curves); var aim := There(alpha);
      var next := NextCrop(Here, aim, alpha, 0.25, false, Defaults, FullHd, false, curves);
      && Framed(Here, FullHd) && Framed(aim, FullHd) && PansOn(Here, aim, alpha, true, false, Defaults, curves)
      && next.height == Here.height && Framed(next, FullHd)
      && Distance(Here, next.centerX, next.centerY, curves) == 1.125 * PanLimit(Here, 0.25, Defaults, false)
  {
    var alpha := curves.alpha(0.25);
    ThereIsNear(alpha);
    NearIsFramed(0.4);
    NearIsFramed(0.4 + WANTED / alpha);
    LengthOnAxis(curves.hypot, WANTED);
    WantedIsEased();
    FastStep(alpha, curves);
  }

  lemma FastStep(alpha: real, curves: Curves)
    requires Euclidean(curves.hypot) && 0.5 <= alpha <= 1.0
    requires Framed(Here, FullHd) && Framed(There(alpha), FullHd)
    requires Pull(Here, There(alpha), alpha, false) == (0.4 + WANTED, 0.5)
    requires curves.hypot(WANTED, 0.0) == WANTED && Lerp(Here.height, There(alpha).height, alpha) == 0.5
    requires PanLimit(Here, 0.25, Defaults, false) == 0.06875 && Moved(WANTED, 0.06875) == 0.07734375
    ensures var next := NextCrop(Here, There(alpha), alpha, 0.25, false, Defaults, FullHd, false, curves);
      && next.height == 0.5 && Framed(next, FullHd)
      && Distance(Here, next.centerX, next.centerY, curves) == 0.07734375
  {
    var whole := Unclamped(Here, There(alpha), alpha, 0.25, false, Defaults, false, curves);
    assert whole.height == 0.5;
    NoGrowthStaysFramed(Here, There(alpha), alpha, 0.25, false, Defaults, FullHd, false, curves);
    EmittedPanIsKeptIff(Here, There(alpha), alpha, 0.25, false, Defaults, FullHd, false, curves);
    NextCropClamps(Here, There(alpha), alpha, 0.25, false, Defaults, FullHd, false, curves);
    FramedIffClampFixes(whole, FullHd);
    assert Distance(Here, 0.4 + WANTED, 0.5, curves) == WANTED;
  }
}
