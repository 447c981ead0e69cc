/** Turning the cuts inside a span into contiguous scenes of a minimum length. */
module SceneCuts {
  import opened Rounding
  import opened Sorting
  import opened Wrappers

  const EPSILON := 0.000001

  datatype Scene = Scene(start: real, end: real)

  function Length(s: Scene): real { s.end - s.start }

  predicate RealLe(a: real, b: real) { a <= b }

  predicate Interior(cut: real, start: real, end: real) { start + EPSILON < cut < end - EPSILON }

  /** The distinct cuts strictly inside the span. */
  function InteriorCuts(cuts: seq<real>, start: real, end: real): seq<real> {
    if cuts == [] then []
    else
      var rest := InteriorCuts(cuts[1..], start, end);
      if Interior(cuts[0], start, end) && cuts[0] !in rest then [cuts[0]] + rest else rest
  }

  predicate Different(a: real, b: real) { a != b }

  lemma {:induction false} InteriorCutsDistinct(cuts: seq<real>, start: real, end: real)
    ensures Pairwise(InteriorCuts(cuts, start, end), Different)
    ensures forall c :: c in InteriorCuts(cuts, start, end) <==> c in cuts && Interior(c, start, end)
  {
    if cuts != [] {
      InteriorCutsDistinct(cuts[1..], start, end);
      assert cuts == [cuts[0]] + cuts[1..];
    }
  }

  function Boundaries(cuts: seq<real>, start: real, end: real): seq<real> {
    [start] + SortBy(InteriorCuts(cuts, start, end), RealLe) + [end]
  }

  function ScenesBetween(boundaries: seq<real>): seq<Scene>
    requires boundaries != []
  {
    seq(|boundaries| - 1, i requires 0 <= i < |boundaries| - 1 => Scene(boundaries[i], boundaries[i + 1]))
  }

  /** Contiguous scenes of positive length from `start` to `end`, their inner boundaries taken from `cuts`. */
  ghost predicate Tiles(scenes: seq<Scene>, start: real, end: real, cuts: seq<real>) {
    && scenes != [] && scenes[0].start == start && scenes[|scenes| - 1].end == end
    && (forall i | 0 <= i < |scenes| :: scenes[i].start < scenes[i].end)
    && (forall i | 0 < i < |scenes| :: scenes[i - 1].end == scenes[i].start && scenes[i].start in cuts)
  }

  lemma BoundariesAscend(cuts: seq<real>, start: real, end: real)
    requires start < end
    ensures var b := Boundaries(cuts, start, end);
      && (forall i, k | 0 <= i < k < |b| :: b[i] < b[k])
      && (forall i | 0 < i < |b| - 1 :: b[i] in cuts)
  {
    var inner := InteriorCuts(cuts, start, end);
    var sorted := SortBy(inner, RealLe);
    InteriorCutsDistinct(cuts, start, end);
    SortIsSorted(inner, RealLe);
    SortIsPairwise(inner, RealLe, Different);
    SortHasSameElements(inner, RealLe);
    var b := Boundaries(cuts, start, end);
    forall i, k | 0 <= i < k < |b| ensures b[i] < b[k] {
      if 0 < i {
        assert b[i] == sorted[i - 1] && sorted[i - 1] in sorted;
      }
      if k < |b| - 1 {
        assert b[k] == sorted[k - 1] && sorted[k - 1] in sorted;
      }
      if 0 < i && k < |b| - 1 {
        assert RealLe(sorted[i - 1], sorted[k - 1]) && Different(sorted[i - 1], sorted[k - 1]);
      }
    }
    forall i | 0 < i < |b| - 1 ensures b[i] in cuts {
      assert b[i] == sorted[i - 1] && sorted[i - 1] in sorted;
    }
  }

  /** Scene `i` starts at `c`, its predecessor ending there. */
  predicate PartsAt(scenes: seq<Scene>, i: int, c: real) { 0 < i < |scenes| && scenes[i].start == c }

  /** The unmerged scenes part at exactly the cuts more than a millionth of a second inside the span. */
  lemma CutPartsScenesIff(cuts: seq<real>, start: real, end: real, c: real)
    requires start < end
    ensures (exists i :: PartsAt(ScenesBetween(Boundaries(cuts, start, end)), i, c))
            <==> c in cuts && c - start > 0.000001 && end - c > 0.000001
  {
    var inner := InteriorCuts(cuts, start, end);
    var sorted := SortBy(inner, RealLe);
    var scenes := ScenesBetween(Boundaries(cuts, start, end));
    InteriorCutsDistinct(cuts, start, end);
    SortHasSameElements(inner, RealLe);
    if c in sorted {
      var i :| 0 <= i < |sorted| && sorted[i] == c;
      assert PartsAt(scenes, i + 1, c);
    }
    forall i | PartsAt(scenes, i, c) ensures c in sorted {
      assert sorted[i - 1] == c;
    }
  }

  lemma CutScenesTile(cuts: seq<real>, start: real, end: real)
    requires start < end
    ensures Tiles(ScenesBetween(Boundaries(cuts, start, end)), start, end, cuts)
  {
    BoundariesAscend(cuts, start, end);
  }

  // ---- merging -----------------------------------------------------------------------------

  /** The first of the shortest scenes. */
  function Shortest(scenes: seq<Scene>): (k: nat)
    requires scenes != []
    ensures k < |scenes|
    ensures forall i | 0 <= i < |scenes| :: Length(scenes[k]) <= Length(scenes[i])
    ensures forall i | 0 <= i < k :: Length(scenes[k]) < Length(scenes[i])
  {
    var last := |scenes| - 1;
    if last == 0 then 0
    else
      var k := Shortest(scenes[..last]);
      assert forall i | 0 <= i < last :: scenes[..last][i] == scenes[i];
      if Length(scenes[last]) < Length(scenes[k]) then last else k
  }

  /** The shorter neighbour of scene `k`, the earlier one in a tie. */
  function Neighbour(scenes: seq<Scene>, k: nat): (n: nat)
    requires k < |scenes| && |scenes| > 1
    ensures n < |scenes| && (n == k - 1 || n == k + 1)
    ensures 0 < k < |scenes| - 1 ==>
              Length(scenes[n]) <= Length(scenes[k - 1]) && Length(scenes[n]) <= Length(scenes[k + 1])
  {
    if k == 0 then 1
    else if k == |scenes| - 1 then k - 1
    else if Length(scenes[k - 1]) <= Length(scenes[k + 1]) then k - 1 else k + 1
  }

  /** Scenes `i` and `i + 1` as one. */
  function Fuse(scenes: seq<Scene>, i: nat): seq<Scene>
    requires i + 1 < |scenes|
  {
    scenes[..i] + [Scene(scenes[i].start, scenes[i + 1].end)] + scenes[i + 2..]
  }

  /** The shortest scene merged into its shorter neighbour. */
  function MergeShortest(scenes: seq<Scene>): (r: seq<Scene>)
    requires |scenes| > 1
    ensures |r| == |scenes| - 1
  {
    var k := Shortest(scenes);
    var n := Neighbour(scenes, k);
    Fuse(scenes, if k < n then k else n)
  }

  predicate LongEnough(s: Scene, least: real) { Length(s) >= least - EPSILON }

  function Reduced(scenes: seq<Scene>, least: real): seq<Scene>
    requires scenes != []
    decreases |scenes|
  {
    if |scenes| == 1 || LongEnough(scenes[Shortest(scenes)], least) then scenes
    else Reduced(MergeShortest(scenes), least)
  }

  lemma FuseTiles(scenes: seq<Scene>, start: real, end: real, cuts: seq<real>, i: nat)
    requires Tiles(scenes, start, end, cuts) && i + 1 < |scenes|
    ensures Tiles(Fuse(scenes, i), start, end, cuts)
  {
    var fused := Fuse(scenes, i);
    assert scenes[i].end == scenes[i + 1].start;
    forall k | 0 < k < |fused| ensures fused[k - 1].end == fused[k].start && fused[k].start in cuts {
      if k <= i {
        assert fused[k - 1] == scenes[k - 1] && fused[k].start == scenes[k].start;
      } else {
        assert fused[k - 1].end == scenes[k].end && fused[k] == scenes[k + 1];
      }
    }
  }

  /** The merged scenes tile the span, keep to input cuts, and all have the minimum length unless one is left. */
  lemma {:induction false} ReducedTiles(scenes: seq<Scene>, least: real, start: real, end: real, cuts: seq<real>)
    requires Tiles(scenes, start, end, cuts)
    ensures Tiles(Reduced(scenes, least), start, end, cuts)
    ensures |Reduced(scenes, least)| == 1 || forall s <- Reduced(scenes, least) :: LongEnough(s, least)
    decreases |scenes|
  {
    if |scenes| > 1 && !LongEnough(scenes[Shortest(scenes)], least) {
      var k := Shortest(scenes);
      var n := Neighbour(scenes, k);
      FuseTiles(scenes, start, end, cuts, if k < n then k else n);
      ReducedTiles(MergeShortest(scenes), least, start, end, cuts);
    }
  }

  /** Scenes that all have the minimum length are left alone. */
  lemma ReducedKeeps(scenes: seq<Scene>, least: real)
    requires scenes != [] && forall s <- scenes :: LongEnough(s, least)
    ensures Reduced(scenes, least) == scenes
  {
    assert scenes[Shortest(scenes)] in scenes;
  }

  // ---- what merging does, by durations alone -------------------------------------------------

  /** No scene is shorter than the `k`-th, and none before it as short. */
  ghost predicate FirstShortest(scenes: seq<Scene>, k: nat) {
    && k < |scenes|
    && (forall i | 0 <= i < |scenes| :: scenes[k].end - scenes[k].start <= scenes[i].end - scenes[i].start)
    && (forall i | 0 <= i < k :: scenes[k].end - scenes[k].start < scenes[i].end - scenes[i].start)
  }

  /** Scene `k` gives way toward its earlier neighbour: the only one, or one not longer than the later. */
  ghost predicate JoinsEarlier(scenes: seq<Scene>, k: nat)
    requires k < |scenes|
  {
    k > 0 && (k == |scenes| - 1
              || scenes[k - 1].end - scenes[k - 1].start <= scenes[k + 1].end - scenes[k + 1].start)
  }

  /** `after` is `before` without the boundary between scenes `i - 1` and `i`. */
  ghost predicate DropsBoundary(before: seq<Scene>, after: seq<Scene>, i: nat) {
    && 0 < i < |before| && |after| == |before| - 1
    && (forall m | 0 <= m < i - 1 :: after[m] == before[m])
    && after[i - 1].start == before[i - 1].start && after[i - 1].end == before[i].end
    && (forall m | i <= m < |after| :: after[m] == before[m + 1])
  }

  /** The first shortest scene, the `k`-th, is too short and joins its shorter neighbour, the earlier in a tie. */
  ghost predicate MergesAt(before: seq<Scene>, after: seq<Scene>, least: real, k: nat) {
    && FirstShortest(before, k) && before[k].end - before[k].start < least - 0.000001
    && DropsBoundary(before, after, if JoinsEarlier(before, k) then k else k + 1)
  }

  ghost predicate Merges(before: seq<Scene>, after: seq<Scene>, least: real) {
    exists k: nat :: MergesAt(before, after, least, k)
  }

  ghost predicate Settled(scenes: seq<Scene>, least: real) {
    |scenes| == 1 || forall s <- scenes :: s.end - s.start >= least - 0.000001
  }

  /** A chain of merges that goes on until every scene is long enough or one is left. */
  ghost predicate MergesDown(chain: seq<seq<Scene>>, first: seq<Scene>, last: seq<Scene>, least: real) {
    && chain != [] && chain[0] == first && chain[|chain| - 1] == last && Settled(last, least)
    && forall i | 0 < i < |chain| :: Merges(chain[i - 1], chain[i], least)
  }

  lemma ShortestIsFirst(scenes: seq<Scene>)
    requires scenes != []
    ensures FirstShortest(scenes, Shortest(scenes))
  {
    var k := Shortest(scenes);
    forall i | 0 <= i < |scenes| ensures scenes[k].end - scenes[k].start <= scenes[i].end - scenes[i].start {
      assert Length(scenes[k]) <= Length(scenes[i]);
    }
    forall i | 0 <= i < k ensures scenes[k].end - scenes[k].start < scenes[i].end - scenes[i].start {
      assert Length(scenes[k]) < Length(scenes[i]);
    }
  }

  lemma FuseDropsBoundary(scenes: seq<Scene>, i: nat)
    requires i + 1 < |scenes|
    ensures DropsBoundary(scenes, Fuse(scenes, i), i + 1)
  {
    var fused := Fuse(scenes, i);
    forall m | i + 1 <= m < |fused| ensures fused[m] == scenes[m + 1] {
      assert fused[m] == scenes[i + 2..][m - i - 1];
    }
  }

  lemma NeighbourIs(scenes: seq<Scene>, k: nat)
    requires k < |scenes| && |scenes| > 1
    ensures (Neighbour(scenes, k) < k) == JoinsEarlier(scenes, k)
  {
  }

  lemma MergeShortestMerges(scenes: seq<Scene>, least: real)
    requires |scenes| > 1 && !LongEnough(scenes[Shortest(scenes)], least)
    ensures Merges(scenes, MergeShortest(scenes), least)
  {
    var k := Shortest(scenes);
    var n := Neighbour(scenes, k);
    assert scenes[k].end - scenes[k].start < least - 0.000001;
    ShortestIsFirst(scenes);
    NeighbourIs(scenes, k);
    FuseDropsBoundary(scenes, if k < n then k else n);
    hide FirstShortest, DropsBoundary, JoinsEarlier, Neighbour, Fuse, Shortest;
    assert MergesAt(scenes, MergeShortest(scenes), least, k);
  }

  /** The reduced scenes come from the given ones by such a chain. */
  lemma {:induction false} ReducedByMerges(scenes: seq<Scene>, least: real) returns (chain: seq<seq<Scene>>)
    requires scenes != []
    ensures MergesDown(chain, scenes, Reduced(scenes, least), least)
    decreases |scenes|
  {
    if |scenes| == 1 || LongEnough(scenes[Shortest(scenes)], least) {
      chain := [scenes];
    } else {
      var next := MergeShortest(scenes);
      MergeShortestMerges(scenes, least);
      hide Merges;
      var rest := ReducedByMerges(next, least);
      chain := [scenes] + rest;
      forall i | 0 < i < |chain| ensures Merges(chain[i - 1], chain[i], least) {
        assert chain[i] == rest[i - 1] && (i > 1 ==> chain[i - 1] == rest[i - 2]);
      }
    }
  }

  function RoundScenes(scenes: seq<Scene>): (r: seq<Scene>)
    ensures |r| == |scenes|
  {
    seq(|scenes|, i requires 0 <= i < |scenes| => Scene(Round6(scenes[i].start), Round6(scenes[i].end)))
  }

  /** The loop that merges until every scene is long enough. */
  method MergeScenes(initial: seq<Scene>, least: real) returns (scenes: seq<Scene>)
    requires initial != []
    ensures scenes == Reduced(initial, least)
  {
    scenes := initial;
    while |scenes| > 1
      invariant scenes != [] && Reduced(scenes, least) == Reduced(initial, least)
      decreases |scenes|
    {
      var shortest := Shortest(scenes);
      if LongEnough(scenes[shortest], least) {
        return;
      }
      var neighbour := Neighbour(scenes, shortest);
      var merge := if shortest < neighbour then shortest else neighbour;
      scenes := scenes[..merge] + [Scene(scenes[merge].start, scenes[merge + 1].end)] + scenes[merge + 2..];
    }
  }

  /** `segment_scenes`; before rounding its scenes are `exact`, reached from the cut ones by the merges of `chain`. */
  method SegmentScenes(start: real, end: real, cuts: seq<real>, least: real)
    returns (r: Result<seq<Scene>, string>, ghost exact: seq<Scene>, ghost chain: seq<seq<Scene>>)
    ensures r.Err? <==> end <= start || least < 0.0
    ensures r.Ok? ==>
              && Tiles(exact, start, end, cuts) && r.value == RoundScenes(exact)
              && (|exact| == 1 || forall s <- exact :: LongEnough(s, least))
              && MergesDown(chain, ScenesBetween(Boundaries(cuts, start, end)), exact, least)
  {
    exact, chain := [], [];
    if end <= start {
      return Err("span end must be greater than span start"), exact, chain;
    }
    if least < 0.0 {
      return Err("min_scene_seconds must be non-negative"), exact, chain;
    }
    CutScenesTile(cuts, start, end);
    var initial := ScenesBetween(Boundaries(cuts, start, end));
    ReducedTiles(initial, least, start, end, cuts);
    var scenes := MergeScenes(initial, least);
    exact := scenes;
    chain := ReducedByMerges(initial, least);
    r := Ok(RoundScenes(scenes));
  }

  /** Rounding keeps neighbouring scenes contiguous and the scenes from running backward. */
  lemma RoundedScenesTouch(exact: seq<Scene>, start: real, end: real, cuts: seq<real>)
    requires Tiles(exact, start, end, cuts)
    ensures var r := RoundScenes(exact);
      && r[0].start == Round6(start) && r[|r| - 1].end == Round6(end)
      && (forall i | 0 < i < |r| :: r[i - 1].end == r[i].start)
      && (forall i | 0 <= i < |r| :: r[i].start <= r[i].end)
  {
    forall i | 0 <= i < |exact| ensures Round6(exact[i].start) <= Round6(exact[i].end) {
      Round6IsMonotone(exact[i].start, exact[i].end);
    }
  }
}
