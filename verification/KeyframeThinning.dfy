/** What capping a path takes from it, keyframe by keyframe, by the movement of the crop alone. */
module KeyframeThinning {
  import opened CropPath
  import opened KeyframeLists

  function Gap(a: real, b: real): real { if a <= b then b - a else a - b }

  /** How far the crop moves and grows into keyframe `i` and out of it. */
  function Sway(path: seq<Keyframe>, i: int): real
    requires 0 < i < |path| - 1
  {
    var a, b, c := path[i - 1].target, path[i].target, path[i + 1].target;
    Gap(a.centerX, b.centerX) + Gap(b.centerX, c.centerX) + Gap(a.centerY, b.centerY) + Gap(b.centerY, c.centerY)
    + Gap(a.height, b.height) + Gap(b.height, c.height)
  }

  lemma PathDeltaIsSway(path: seq<Keyframe>, i: nat)
    requires 0 < i < |path| - 1
    ensures PathDelta(path, i) == Sway(path, i)
  {
  }

  /** Inner keyframe `k` sways less than all before it, and no more than those behind it, up to a millionth. */
  ghost predicate LeastSway(path: seq<Keyframe>, k: int) {
    && 0 < k < |path| - 1
    && (forall i | 0 < i < k :: Sway(path, k) < Sway(path, i))
    && (forall i | k < i < |path| - 1 :: Sway(path, k) <= Sway(path, i) + 0.000001)
  }

  ghost predicate LeastBefore(path: seq<Keyframe>, k: int, n: int)
    requires n < |path|
  {
    && 0 < k < n
    && (forall i | 0 < i < k :: Sway(path, k) < Sway(path, i))
    && (forall i | k < i < n :: Sway(path, k) <= Sway(path, i) + 0.000001)
  }

  lemma ScanOn(path: seq<Keyframe>, best: nat, n: nat)
    requires n + 1 < |path| && LeastBefore(path, best, n)
    ensures LeastBefore(path, if Sway(path, n) < Sway(path, best) - 0.000001 then n else best, n + 1)
  {
    hide Sway;
  }

  lemma {:induction false} WeakestIsLeast(path: seq<Keyframe>, n: nat)
    requires 2 <= n < |path|
    ensures LeastBefore(path, WeakestBefore(path, n), n)
  {
    if n > 2 {
      var best := WeakestBefore(path, n - 1);
      WeakestIsLeast(path, n - 1);
      PathDeltaIsSway(path, n - 1);
      PathDeltaIsSway(path, best);
      ScanOn(path, best, n - 1);
      hide Sway, PathDelta, LeastBefore;
    }
  }

  /** `after` is `before` without the `k`-th keyframe. */
  ghost predicate Drops(before: seq<Keyframe>, after: seq<Keyframe>, k: int) {
    && 0 <= k < |before| && |after| == |before| - 1
    && (forall i | 0 <= i < k :: after[i] == before[i])
    && (forall i | k <= i < |after| :: after[i] == before[i + 1])
  }

  ghost predicate DropsLeast(before: seq<Keyframe>, after: seq<Keyframe>) {
    exists k :: LeastSway(before, k) && Drops(before, after, k)
  }

  lemma WithoutWeakestDrops(path: seq<Keyframe>)
    requires |path| > 2
    ensures DropsLeast(path, WithoutWeakest(path))
  {
    var best := WeakestBefore(path, |path| - 1);
    WeakestIsLeast(path, |path| - 1);
    hide Sway, WeakestBefore;
    assert LeastSway(path, best) && Drops(path, WithoutWeakest(path), best);
  }

  /** More keyframes than allowed, of which the next link drops one. */
  ghost predicate Thins(before: seq<Keyframe>, after: seq<Keyframe>, cap: int) {
    |before| > cap && DropsLeast(before, after)
  }

  /** One keyframe after the other is dropped until as many are left as allowed. */
  ghost predicate ThinsDown(chain: seq<seq<Keyframe>>, first: seq<Keyframe>, last: seq<Keyframe>, cap: int) {
    && chain != [] && chain[0] == first && chain[|chain| - 1] == last
    && (|last| <= cap || |last| <= 2)
    && (forall i | 0 < i < |chain| :: Thins(chain[i - 1], chain[i], cap))
  }

  lemma {:induction false} ThinnedByDrops(path: seq<Keyframe>, cap: int) returns (chain: seq<seq<Keyframe>>)
    ensures ThinsDown(chain, path, Thinned(path, cap), cap)
    decreases |path|
  {
    hide DropsLeast;
    chain := [path];
    if |path| > cap && |path| > 2 {
      var next := WithoutWeakest(path);
      WithoutWeakestDrops(path);
      var rest := ThinnedByDrops(next, cap);
      chain := [path] + rest;
      assert Thins(path, next, cap);
      LinkOn(path, rest, next, Thinned(path, cap), cap);
    }
  }

  lemma LinkOn(path: seq<Keyframe>, rest: seq<seq<Keyframe>>, next: seq<Keyframe>, last: seq<Keyframe>, cap: int)
    requires ThinsDown(rest, next, last, cap) && Thins(path, next, cap)
    ensures ThinsDown([path] + rest, path, last, cap)
  {
    hide Thins;
    var chain := [path] + rest;
    forall i | 0 < i < |chain| ensures Thins(chain[i - 1], chain[i], cap) {
      assert chain[i] == rest[i - 1] && (i > 1 ==> chain[i - 1] == rest[i - 2]);
    }
  }

  /** The first keyframe says that the path was thinned, once. */
  ghost predicate SaysSo(k: Keyframe, plain: Keyframe) {
    k == plain.(evidence := k.evidence)
    && k.evidence == if Simplified in plain.evidence then plain.evidence else plain.evidence + [Simplified]
  }

  /** A capped path comes from the keyframes by such drops, and but for the evidence of its first it is what they leave. */
  lemma CappedByDrops(path: seq<Keyframe>, keyframes: seq<Keyframe>, cap: int) returns (chain: seq<seq<Keyframe>>)
    requires keyframes != [] && CappedFrom(path, keyframes, cap)
    ensures if cap < 2 || |keyframes| <= cap then path == keyframes
            else && |path| == cap && SaysSo(path[0], keyframes[0])
                 && ThinsDown(chain, keyframes, path[0 := keyframes[0]], cap)
  {
    chain := ThinnedByDrops(keyframes, cap);
    hide ThinsDown, Thinned;
  }
}
