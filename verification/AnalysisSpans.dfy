/** The spans of source time an analysis may decode. */
module AnalysisSpans {
  import opened Rounding
  import opened Sorting
  import opened Wrappers

  const EPSILON := 0.000001

  datatype Span = Span(block: int, start: real, end: real)

  datatype Refusal = InvalidArgument | InvalidSpan | ScopeExceeded

  predicate ValidSpan(s: Span) { 0.0 <= s.start < s.end }

  function Normalize(s: Span): Span { Span(s.block, Round6(s.start), Round6(s.end)) }

  predicate SpanLe(a: Span, b: Span) {
    a.block < b.block || (a.block == b.block && (a.start < b.start || (a.start == b.start && a.end <= b.end)))
  }

  lemma SpanLeIsTotal()
    ensures TotalOrder(SpanLe)
  {
  }

  /** `inner` lies within `outer` and in the same block. */
  predicate Within(inner: Span, outer: Span) {
    inner.block == outer.block && outer.start <= inner.start && inner.end <= outer.end
  }

  /** Apart and in order: another block, or later by more than epsilon. */
  predicate Ahead(a: Span, b: Span) {
    a.block < b.block || (a.block == b.block && a.end + EPSILON < b.start)
  }

  /** The instant `t` lies in the span, up to a margin. */
  predicate Reaches(s: Span, block: int, t: real, margin: real) {
    s.block == block && s.start - margin <= t <= s.end + margin
  }

  ghost predicate Covered(parts: seq<Span>, cover: seq<Span>) {
    forall p <- parts :: exists m <- cover :: Within(p, m)
  }

  predicate InSpan(s: Span, t: real) { s.start <= t <= s.end }

  ghost predicate Backed(parts: seq<Span>, block: int, t: real, margin: real) {
    exists p <- parts :: Reaches(p, block, t, margin)
  }

  /** No instant of `spans` is farther than `margin` from one of `parts`. */
  ghost predicate NoFarther(spans: seq<Span>, parts: seq<Span>, margin: real) {
    forall m, t: real | m in spans && InSpan(m, t) :: Backed(parts, m.block, t, margin)
  }

  /** One normalized span's turn: it widens the last merged span or follows it. */
  function MergeSpan(merged: seq<Span>, s: Span): seq<Span> {
    var last := |merged| - 1;
    if merged != [] && merged[last].block == s.block && s.start <= merged[last].end + EPSILON then
      merged[last := Span(s.block, merged[last].start, if s.end > merged[last].end then s.end else merged[last].end)]
    else merged + [s]
  }

  function MergeAll(spans: seq<Span>): seq<Span> {
    if spans == [] then [] else MergeSpan(MergeAll(spans[..|spans| - 1]), spans[|spans| - 1])
  }

  predicate Usable(s: Span) { s.start <= s.end }

  /** `s` comes no earlier than `before` in block and start. */
  predicate NotBefore(before: Span, s: Span) {
    before.block < s.block || (before.block == s.block && before.start <= s.start)
  }

  lemma AheadThenLater(a: Span, b: Span, c: Span)
    requires Ahead(a, b) && Usable(b) && NotBefore(b, c)
    ensures Ahead(a, c)
  {
  }

  lemma MergeKeepsOrder(merged: seq<Span>, s: Span)
    requires Pairwise(merged, Ahead) && forall m <- merged :: Usable(m)
    requires merged != [] ==> NotBefore(merged[|merged| - 1], s)
    ensures Pairwise(MergeSpan(merged, s), Ahead)
  {
    var more, last := MergeSpan(merged, s), |merged| - 1;
    forall i, k | 0 <= i < k < |more| ensures Ahead(more[i], more[k]) {
      if k < |merged| {
        assert Ahead(merged[i], merged[k]);
      } else if i < last {
        assert merged[last] in merged && Ahead(merged[i], merged[last]);
        AheadThenLater(merged[i], merged[last], s);
      }
    }
  }

  lemma MergeKeepsUsable(merged: seq<Span>, s: Span)
    requires Usable(s) && forall m <- merged :: Usable(m)
    ensures forall m <- MergeSpan(merged, s) :: Usable(m)
  {
    assert merged != [] ==> merged[|merged| - 1] in merged;
  }

  lemma MergeCovers(merged: seq<Span>, parts: seq<Span>, s: Span)
    requires Covered(parts, merged) && (merged != [] ==> NotBefore(merged[|merged| - 1], s))
    ensures Covered(parts + [s], MergeSpan(merged, s))
  {
    var more, last := MergeSpan(merged, s), |merged| - 1;
    forall p | p in parts + [s] ensures exists m <- more :: Within(p, m) {
      if p in parts {
        var m :| m in merged && Within(p, m);
        var i :| 0 <= i < |merged| && merged[i] == m;
        assert more[i] in more && Within(p, more[i]);
      } else {
        assert more[|more| - 1] in more && Within(s, more[|more| - 1]);
      }
    }
  }

  lemma BackedByMore(parts: seq<Span>, s: Span, block: int, t: real, margin: real)
    ensures Backed(parts, block, t, margin) ==> Backed(parts + [s], block, t, margin)
    ensures Reaches(s, block, t, margin) ==> Backed(parts + [s], block, t, margin)
  {
    assert s in parts + [s] && forall p <- parts :: p in parts + [s];
  }

  lemma MergeAddsNothing(merged: seq<Span>, parts: seq<Span>, s: Span)
    requires NoFarther(merged, parts, EPSILON)
    ensures NoFarther(MergeSpan(merged, s), parts + [s], EPSILON)
  {
    var more, last := MergeSpan(merged, s), |merged| - 1;
    forall m, t: real | m in more && InSpan(m, t) ensures Backed(parts + [s], m.block, t, EPSILON) {
      BackedByMore(parts, s, m.block, t, EPSILON);
      if m !in merged && m != s {
        assert merged[last] in merged && (t <= merged[last].end ==> InSpan(merged[last], t));
      }
    }
  }

  /** What merging ordered spans yields: order, coverage, and no instant added but epsilon gaps. */
  ghost predicate Merged(merged: seq<Span>, parts: seq<Span>) {
    && Pairwise(merged, Ahead) && (forall m <- merged :: Usable(m))
    && Covered(parts, merged) && NoFarther(merged, parts, EPSILON)
  }

  lemma MergeStep(merged: seq<Span>, parts: seq<Span>, s: Span)
    requires Merged(merged, parts) && Usable(s)
    requires merged != [] ==> NotBefore(merged[|merged| - 1], s)
    ensures Merged(MergeSpan(merged, s), parts + [s])
    ensures var more := MergeSpan(merged, s); more != [] && NotBefore(more[|more| - 1], s)
  {
    MergeKeepsOrder(merged, s);
    MergeKeepsUsable(merged, s);
    MergeCovers(merged, parts, s);
    MergeAddsNothing(merged, parts, s);
  }

  lemma {:induction false} MergeAllMerges(spans: seq<Span>)
    requires Sorted(spans, SpanLe) && forall s <- spans :: Usable(s)
    ensures Merged(MergeAll(spans), spans)
    ensures spans != [] ==>
              MergeAll(spans) != [] && NotBefore(MergeAll(spans)[|MergeAll(spans)| - 1], spans[|spans| - 1])
  {
    if spans != [] {
      var front, s := spans[..|spans| - 1], spans[|spans| - 1];
      assert s in spans && forall p <- front :: p in spans;
      MergeAllMerges(front);
      if front != [] {
        assert SpanLe(spans[|spans| - 2], spans[|spans| - 1]);
      }
      MergeStep(MergeAll(front), front, s);
      assert front + [s] == spans;
    }
  }

  function NormalizeEach(spans: seq<Span>): (r: seq<Span>)
    ensures |r| == |spans|
  {
    seq(|spans|, i requires 0 <= i < |spans| => Normalize(spans[i]))
  }

  function MergedSpans(spans: seq<Span>): seq<Span> { MergeAll(SortBy(NormalizeEach(spans), SpanLe)) }

  /** `merge_spans`: refuses a negative or empty span, otherwise the union per block. */
  method MergeSpans(spans: seq<Span>) returns (r: Result<seq<Span>, Refusal>)
    ensures r.Ok? <==> forall s <- spans :: ValidSpan(s)
    ensures r.Ok? ==> r.value == MergedSpans(spans)
    ensures r.Err? ==> r.error == InvalidSpan
  {
    var normalized: seq<Span> := [];
    for i := 0 to |spans|
      invariant forall k | 0 <= k < i :: ValidSpan(spans[k])
      invariant normalized == NormalizeEach(spans[..i])
    {
      if spans[i].start < 0.0 || spans[i].end <= spans[i].start {
        assert spans[i] in spans;
        return Err(InvalidSpan);
      }
      normalized := normalized + [Normalize(spans[i])];
    }
    assert spans[..|spans|] == spans;
    var ordered := SortBy(normalized, SpanLe);
    var merged: seq<Span> := [];
    for i := 0 to |ordered|
      invariant merged == MergeAll(ordered[..i])
    {
      assert ordered[..i + 1][..i] == ordered[..i];
      merged := MergeSpan(merged, ordered[i]);
    }
    assert ordered[..|ordered|] == ordered;
    return Ok(merged);
  }

  /** The union of valid spans is in order and disjoint, covers each of them and adds only epsilon gaps. */
  lemma MergedSpansMerge(spans: seq<Span>)
    requires forall s <- spans :: ValidSpan(s)
    ensures Merged(MergedSpans(spans), NormalizeEach(spans))
  {
    var parts := NormalizeEach(spans);
    var ordered := SortBy(parts, SpanLe);
    SpanLeIsTotal();
    SortIsSorted(parts, SpanLe);
    SortHasSameElements(parts, SpanLe);
    forall s | s in ordered ensures Usable(s) {
      var i :| 0 <= i < |parts| && parts[i] == s;
      assert spans[i] in spans;
      Round6IsMonotone(spans[i].start, spans[i].end);
    }
    MergeAllMerges(ordered);
    forall m, t: real | m in MergedSpans(spans) && InSpan(m, t) ensures Backed(parts, m.block, t, EPSILON) {
      assert Backed(ordered, m.block, t, EPSILON);
    }
  }
}
