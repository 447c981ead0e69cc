/** Merging and thinning the keyframes of one scene. */
module KeyframeLists {
  import opened CropGeometry
  import opened CropPath
  import opened Sorting

  /** Every later time is more than `gap` above every earlier one. */
  ghost predicate Rising(path: seq<Keyframe>, gap: real) {
    forall i, k | 0 <= i < k < |path| :: path[i].time + gap < path[k].time
  }

  /** `kept` lists, in order, the positions of `from` that `path` consists of. */
  ghost predicate Selects(path: seq<Keyframe>, from: seq<Keyframe>, kept: seq<nat>) {
    && |kept| == |path|
    && (forall i | 0 <= i < |kept| :: kept[i] < |from| && path[i] == from[kept[i]])
    && (forall i, k | 0 <= i < k < |kept| :: kept[i] < kept[k])
  }

  lemma SelectNext(path: seq<Keyframe>, from: seq<Keyframe>, kept: seq<nat>, i: nat)
    requires Selects(path, from, kept) && i < |from| && (kept != [] ==> kept[|kept| - 1] < i)
    ensures Selects(path + [from[i]], from, kept + [i])
  {
    var longer := kept + [i];
    forall k, m | 0 <= k < m < |longer| ensures longer[k] < longer[m] {
      assert k < |kept| - 1 ==> kept[k] < kept[|kept| - 1];
    }
  }

  lemma SelectWithout(path: seq<Keyframe>, from: seq<Keyframe>, kept: seq<nat>, j: nat)
    requires Selects(path, from, kept) && j < |path|
    ensures Selects(path[..j] + path[j + 1..], from, kept[..j] + kept[j + 1..])
  {
    var shorter := kept[..j] + kept[j + 1..];
    forall k, m | 0 <= k < m < |shorter| ensures shorter[k] < shorter[m] {
      assert shorter[k] == kept[if k < j then k else k + 1];
      assert shorter[m] == kept[if m < j then m else m + 1];
    }
  }

  predicate TimeLe(a: Keyframe, b: Keyframe) { a.time <= b.time }

  /** The loop's step: keyframe `i` replaces the last kept one or follows it. */
  function MergeNext(path: seq<Keyframe>, k: Keyframe): seq<Keyframe> {
    if path != [] && Abs(k.time - path[|path| - 1].time) <= EDGE_EPSILON then path[|path| - 1 := k]
    else path + [k]
  }

  /** The kept keyframes after the whole loop, and their positions. */
  function Merged(keyframes: seq<Keyframe>): seq<Keyframe> {
    if keyframes == [] then []
    else MergeNext(Merged(keyframes[..|keyframes| - 1]), keyframes[|keyframes| - 1])
  }

  ghost function MergedPositions(keyframes: seq<Keyframe>): seq<nat>
    ensures |MergedPositions(keyframes)| == |Merged(keyframes)|
  {
    if keyframes == [] then []
    else
      var last := |keyframes| - 1;
      var before, kept := Merged(keyframes[..last]), MergedPositions(keyframes[..last]);
      if |MergeNext(before, keyframes[last])| == |before| then kept[..|kept| - 1] + [last] else kept + [last]
  }

  lemma RisingNext(path: seq<Keyframe>, k: Keyframe)
    requires Rising(path, EDGE_EPSILON) && (path != [] ==> path[|path| - 1].time <= k.time)
    ensures var more := MergeNext(path, k); more != [] && Rising(more, EDGE_EPSILON) && more[|more| - 1] == k
  {
  }

  lemma {:induction false} MergedIsRising(keyframes: seq<Keyframe>)
    requires Ascending(keyframes)
    ensures Rising(Merged(keyframes), EDGE_EPSILON)
    ensures keyframes != [] ==>
              Merged(keyframes) != [] && Merged(keyframes)[|Merged(keyframes)| - 1] == keyframes[|keyframes| - 1]
  {
    if keyframes != [] {
      var last := |keyframes| - 1;
      var before := Merged(keyframes[..last]);
      MergedIsRising(keyframes[..last]);
      assert before != [] ==> before[|before| - 1] == keyframes[last - 1];
      hide MergeNext;
      RisingNext(before, keyframes[last]);
    }
  }

  lemma {:induction false} MergedSelects(keyframes: seq<Keyframe>)
    ensures Selects(Merged(keyframes), keyframes, MergedPositions(keyframes))
  {
    if keyframes != [] {
      var last := |keyframes| - 1;
      var front := keyframes[..last];
      MergedSelects(front);
      var before, kept := Merged(front), MergedPositions(front);
      assert Selects(before, keyframes, kept);
      if |MergeNext(before, keyframes[last])| == |before| {
        var n := |before| - 1;
        SelectWithout(before, keyframes, kept, n);
        assert before[..n] + before[n + 1..] == before[..n] && kept[..n] + kept[n + 1..] == kept[..n];
        SelectNext(before[..n], keyframes, kept[..n], last);
        assert Merged(keyframes) == before[..n] + [keyframes[last]];
      } else {
        SelectNext(before, keyframes, kept, last);
      }
    }
  }

  lemma FarIsAppended(path: seq<Keyframe>, k: Keyframe)
    requires path != [] ==> path[|path| - 1].time + EDGE_EPSILON < k.time
    ensures MergeNext(path, k) == path + [k]
  {
  }

  lemma RisingFront(keyframes: seq<Keyframe>)
    requires keyframes != [] && Rising(keyframes, EDGE_EPSILON)
    ensures var front := keyframes[..|keyframes| - 1];
      Rising(front, EDGE_EPSILON)
      && (front != [] ==> front[|front| - 1].time + EDGE_EPSILON < keyframes[|keyframes| - 1].time)
  {
  }

  lemma {:induction false} MergedKeepsRising(keyframes: seq<Keyframe>)
    requires Rising(keyframes, EDGE_EPSILON)
    ensures Merged(keyframes) == keyframes
  {
    if keyframes != [] {
      var last := |keyframes| - 1;
      RisingFront(keyframes);
      MergedKeepsRising(keyframes[..last]);
      FarIsAppended(keyframes[..last], keyframes[last]);
      assert keyframes == keyframes[..last] + [keyframes[last]];
    }
  }

  method MergeClose(keyframes: seq<Keyframe>) returns (path: seq<Keyframe>)
    ensures path == Merged(keyframes)
  {
    path := [];
    for i := 0 to |keyframes|
      invariant path == Merged(keyframes[..i])
    {
      assert keyframes[..i + 1][..i] == keyframes[..i];
      path := MergeNext(path, keyframes[i]);
    }
    assert keyframes[..|keyframes|] == keyframes;
  }

  lemma FinalizedElements(keyframes: seq<Keyframe>)
    requires keyframes != []
    ensures var path := SortBy(Merged(keyframes), TimeLe);
      path != [] && Ascending(path) && forall k <- path :: k in keyframes
  {
    hide Merged, SortBy, Ascending;
    MergedElements(keyframes);
    SortedMerge(Merged(keyframes));
  }

  lemma FinalizedSelects(keyframes: seq<Keyframe>)
    requires keyframes != [] && Ascending(keyframes)
    ensures var path := SortBy(Merged(keyframes), TimeLe);
      && path != [] && Selects(path, keyframes, MergedPositions(keyframes)) && Rising(path, EDGE_EPSILON)
      && path[|path| - 1] == keyframes[|keyframes| - 1]
  {
    hide Merged, MergedPositions, SortBy, Selects;
    MergedIsRising(keyframes);
    MergedSelects(keyframes);
    SortedIsUnchanged(Merged(keyframes), TimeLe);
  }

  lemma FinalizedRising(keyframes: seq<Keyframe>)
    requires Rising(keyframes, EDGE_EPSILON)
    ensures SortBy(Merged(keyframes), TimeLe) == keyframes
  {
    hide Merged, SortBy;
    MergedKeepsRising(keyframes);
    SortedIsUnchanged(keyframes, TimeLe);
  }

  /**
   `_finalize`: a keyframe within epsilon of the one before replaces it.  On ordered keyframes the
   sort that follows has nothing to do.
   */
  method Finalize(keyframes: seq<Keyframe>) returns (path: seq<Keyframe>, ghost kept: seq<nat>)
    requires keyframes != []
    ensures path == SortBy(Merged(keyframes), TimeLe)
    ensures path != [] && Ascending(path) && forall k <- path :: k in keyframes
    ensures Ascending(keyframes) ==> Selects(path, keyframes, kept) && Rising(path, EDGE_EPSILON)
    ensures Ascending(keyframes) ==> path[|path| - 1] == keyframes[|keyframes| - 1]
    ensures Rising(keyframes, EDGE_EPSILON) ==> path == keyframes
  {
    hide *;
    path := MergeClose(keyframes);
    kept := MergedPositions(keyframes);
    path := SortBy(path, TimeLe);
    FinalizedElements(keyframes);
    if Ascending(keyframes) {
      FinalizedSelects(keyframes);
    }
    if Rising(keyframes, EDGE_EPSILON) {
      FinalizedRising(keyframes);
    }
  }

  lemma {:induction false} MergedElements(keyframes: seq<Keyframe>)
    ensures forall k <- Merged(keyframes) :: k in keyframes
    ensures keyframes != [] ==> Merged(keyframes) != []
  {
    if keyframes != [] {
      var last := |keyframes| - 1;
      var before := Merged(keyframes[..last]);
      MergedElements(keyframes[..last]);
      forall k | k in MergeNext(before, keyframes[last]) ensures k in keyframes {
        assert k in before || k == keyframes[last];
        assert k in before ==> k in keyframes[..last];
      }
    }
  }

  lemma SortedMerge(path: seq<Keyframe>)
    ensures Ascending(SortBy(path, TimeLe)) && forall k <- SortBy(path, TimeLe) :: k in path
    ensures path != [] ==> SortBy(path, TimeLe) != []
  {
    SortHasSameElements(path, TimeLe);
    SortIsPermutation(path, TimeLe);
    SortIsSorted(path, TimeLe);
    assert Sorted(SortBy(path, TimeLe), TimeLe);
  }

  function TargetDistance(a: Target, b: Target): real {
    Abs(a.centerX - b.centerX) + Abs(a.centerY - b.centerY) + Abs(a.height - b.height)
  }

  /** How much the path moves into and out of keyframe `i`. */
  function PathDelta(path: seq<Keyframe>, i: nat): real
    requires 0 < i < |path| - 1
  {
    TargetDistance(path[i - 1].target, path[i].target) + TargetDistance(path[i].target, path[i + 1].target)
  }

  /** The inner keyframe before `n` that the scan settles on: a later one must be weaker by more than epsilon. */
  function WeakestBefore(path: seq<Keyframe>, n: nat): (best: nat)
    requires 2 <= n < |path|
    ensures 0 < best < n
  {
    if n == 2 then 1
    else
      var best := WeakestBefore(path, n - 1);
      if PathDelta(path, n - 1) < PathDelta(path, best) - EDGE_EPSILON then n - 1 else best
  }

  function WithoutWeakest(path: seq<Keyframe>): (shorter: seq<Keyframe>)
    requires |path| > 2
    ensures |shorter| == |path| - 1
  {
    var best := WeakestBefore(path, |path| - 1);
    path[..best] + path[best + 1..]
  }

  /** Weakest first, inner keyframes go until `cap` are left. */
  function Thinned(path: seq<Keyframe>, cap: int): seq<Keyframe>
    decreases |path|
  {
    if |path| <= cap || |path| <= 2 then path else Thinned(WithoutWeakest(path), cap)
  }

  ghost predicate NoneWeaker(delta: nat -> real, best: nat, n: nat) {
    forall i: nat | 0 < i < n :: delta(best) <= delta(i) + EDGE_EPSILON
  }

  lemma StillNoneWeaker(delta: nat -> real, best: nat, n: nat)
    requires 0 < best < n && NoneWeaker(delta, best, n)
    ensures NoneWeaker(delta, if delta(n) < delta(best) - EDGE_EPSILON then n else best, n + 1)
  {
  }

  /** `PathDelta`, wherever it is defined. */
  function DeltaAt(path: seq<Keyframe>): nat -> real {
    (i: nat) => if 0 < i < |path| - 1 then PathDelta(path, i) else 0.0
  }

  lemma {:induction false} NoneIsWeaker(path: seq<Keyframe>, n: nat)
    requires 2 <= n < |path|
    ensures NoneWeaker(DeltaAt(path), WeakestBefore(path, n), n)
  {
    if n > 2 {
      NoneIsWeaker(path, n - 1);
      StillNoneWeaker(DeltaAt(path), WeakestBefore(path, n - 1), n - 1);
      assert DeltaAt(path)(n - 1) == PathDelta(path, n - 1);
      assert DeltaAt(path)(WeakestBefore(path, n - 1)) == PathDelta(path, WeakestBefore(path, n - 1));
    }
  }

  /** The scan for the weakest inner keyframe: none is weaker by more than epsilon. */
  method Weakest(path: seq<Keyframe>) returns (best: nat)
    requires |path| > 2
    ensures best == WeakestBefore(path, |path| - 1)
    ensures NoneWeaker(DeltaAt(path), best, |path| - 1)
  {
    best := 1;
    for i := 2 to |path| - 1
      invariant best == WeakestBefore(path, i)
    {
      if PathDelta(path, i) < PathDelta(path, best) - EDGE_EPSILON {
        best := i;
      }
    }
    NoneIsWeaker(path, |path| - 1);
  }

  function Flagged(k: Keyframe): Keyframe {
    if Simplified in k.evidence then k else k.(evidence := k.evidence + [Simplified])
  }

  ghost predicate IsSelection(path: seq<Keyframe>, from: seq<Keyframe>) { exists kept :: Selects(path, from, kept) }

  /**
   All keyframes when they are few enough; otherwise as many as allowed, thinned weakest first, both
   ends kept, the first one flagged.
   */
  ghost predicate CappedFrom(path: seq<Keyframe>, keyframes: seq<Keyframe>, cap: int)
    requires keyframes != []
  {
    if cap < 2 || |keyframes| <= cap then path == keyframes
    else
      && |path| == cap && path[0] == Flagged(keyframes[0]) && path[cap - 1] == keyframes[|keyframes| - 1]
      && path[0 := keyframes[0]] == Thinned(keyframes, cap) && IsSelection(path[0 := keyframes[0]], keyframes)
  }

  /** `_cap_keyframes`: inner keyframes go, weakest first, until the cap holds; the ends stay. */
  method CapKeyframes(keyframes: seq<Keyframe>, cap: int) returns (path: seq<Keyframe>, ghost kept: seq<nat>)
    requires keyframes != []
    ensures CappedFrom(path, keyframes, cap)
    ensures path != [] && (path[0] == keyframes[0] || path[0] == Flagged(keyframes[0]))
    ensures Selects(path[0 := keyframes[0]], keyframes, kept)
    ensures |kept| == |path| && kept[0] == 0 && kept[|kept| - 1] == |keyframes| - 1
  {
    kept := seq(|keyframes|, i => i);
    if cap < 2 || |keyframes| <= cap {
      path := keyframes;
      assert path[0 := keyframes[0]] == path;
      return;
    }
    var working;
    working, kept := Thin(keyframes, cap);
    path := working[0 := Flagged(working[0])];
    assert path[0 := keyframes[0]] == working;
  }

  /** `kept` are the places of a selection that includes both ends. */
  ghost predicate KeepsEnds(path: seq<Keyframe>, from: seq<Keyframe>, kept: seq<nat>) {
    && from != [] && |kept| == |path| > 1 && Selects(path, from, kept)
    && kept[0] == 0 && kept[|kept| - 1] == |from| - 1
  }

  lemma DropWeakest(path: seq<Keyframe>, from: seq<Keyframe>, kept: seq<nat>) returns (fewer: seq<nat>)
    requires |path| > 2 && KeepsEnds(path, from, kept)
    ensures KeepsEnds(WithoutWeakest(path), from, fewer)
  {
    var best := WeakestBefore(path, |path| - 1);
    SelectWithout(path, from, kept, best);
    fewer := kept[..best] + kept[best + 1..];
    assert fewer[|fewer| - 1] == kept[|kept| - 1];
  }

  method Thin(keyframes: seq<Keyframe>, cap: int) returns (working: seq<Keyframe>, ghost kept: seq<nat>)
    requires 2 <= cap < |keyframes|
    ensures working == Thinned(keyframes, cap)
    ensures |working| == cap && KeepsEnds(working, keyframes, kept)
  {
    working := keyframes;
    kept := seq(|keyframes|, i => i);
    while |working| > cap
      invariant Thinned(working, cap) == Thinned(keyframes, cap)
      invariant cap <= |working| && KeepsEnds(working, keyframes, kept)
    {
      var best := Weakest(working);
      kept := DropWeakest(working, keyframes, kept);
      working := working[..best] + working[best + 1..];
    }
  }
}
