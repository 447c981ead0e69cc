/** Merging near-identical proposals, the raw safety cap, and the generator as a whole. */
module ProposalSelection {
  import opened ProposalAtoms
  import opened ProposalChunks
  import opened Proposals
  import opened Rounding
  import opened Sequences
  import opened Sorting
  import opened Wrappers

  const MERGE_OVERLAP := 0.5
  const MERGE_SIMILARITY := 0.6

  function Least(a: real, b: real): real { if a <= b then a else b }

  function Greatest(a: real, b: real): real { if a >= b then a else b }

  // ---- merging -----------------------------------------------------------------------------

  function OverlapRatio(a: Proposal, b: Proposal): real {
    var overlap := Greatest(0.0, Least(a.end, b.end) - Greatest(a.start, b.start));
    var shorter := Least(Duration(a), Duration(b));
    if shorter > 0.0 then overlap / shorter else 0.0
  }

  predicate Alike(a: Proposal, b: Proposal, similarity: (string, string) -> real) {
    OverlapRatio(a, b) >= MERGE_OVERLAP && similarity(a.text, b.text) >= MERGE_SIMILARITY
  }

  function AddNew(before: seq<nat>, more: seq<nat>): seq<nat>
    decreases |more|
  {
    if more == [] then before
    else AddNew(if more[0] in before then before else before + [more[0]], more[1..])
  }

  function Union(a: Proposal, b: Proposal): Proposal {
    Proposal(if a.firstSegment <= b.firstSegment then a.firstSegment else b.firstSegment,
             if a.lastSegment >= b.lastSegment then a.lastSegment else b.lastSegment,
             Least(a.start, b.start), Greatest(a.end, b.end), if |a.text| >= |b.text| then a.text else b.text,
             AddNew(a.segments, b.segments),
             if a.spanStart <= b.spanStart then a.spanStart else b.spanStart,
             if a.spanEnd >= b.spanEnd then a.spanEnd else b.spanEnd)
  }

  /** `outer` spans all of `inner`, in time and atoms. */
  predicate Spans(outer: Proposal, inner: Proposal) {
    && outer.start <= inner.start && inner.end <= outer.end
    && outer.spanStart <= inner.spanStart && inner.spanEnd <= outer.spanEnd
  }

  ghost predicate AllSpanned(proposals: seq<Proposal>, merged: seq<Proposal>) {
    forall p <- proposals :: exists m <- merged :: Spans(m, p)
  }

  /** Which merged proposal, if any, is the first alike. */
  function FirstAlike(merged: seq<Proposal>, p: Proposal, similarity: (string, string) -> real): (at: Option<nat>)
    ensures at.Some? ==> at.value < |merged| && Alike(merged[at.value], p, similarity)
    ensures at.Some? ==> forall i | 0 <= i < at.value :: !Alike(merged[i], p, similarity)
    ensures at.None? ==> forall m <- merged :: !Alike(m, p, similarity)
  {
    if merged == [] then None
    else
      var last := |merged| - 1;
      var before := FirstAlike(merged[..last], p, similarity);
      if before.Some? then before else if Alike(merged[last], p, similarity) then Some(last) else None
  }

  lemma {:induction false} FoundEarly(merged: seq<Proposal>, p: Proposal, similarity: (string, string) -> real, i: nat)
    requires i <= |merged| && FirstAlike(merged[..i], p, similarity).Some?
    ensures FirstAlike(merged, p, similarity) == FirstAlike(merged[..i], p, similarity)
  {
    if i == |merged| {
      assert merged[..i] == merged;
    } else {
      var front := merged[..|merged| - 1];
      assert front[..i] == merged[..i];
      FoundEarly(front, p, similarity, i);
    }
  }

  method FindAlike(merged: seq<Proposal>, p: Proposal, similarity: (string, string) -> real) returns (at: Option<nat>)
    ensures at == FirstAlike(merged, p, similarity)
  {
    for i := 0 to |merged|
      invariant FirstAlike(merged[..i], p, similarity) == None
    {
      assert merged[..i + 1][..i] == merged[..i];
      if Alike(merged[i], p, similarity) {
        FoundEarly(merged, p, similarity, i + 1);
        return Some(i);
      }
    }
    assert merged[..|merged|] == merged;
    return None;
  }

  function MergeOne(merged: seq<Proposal>, p: Proposal, similarity: (string, string) -> real): seq<Proposal> {
    match FirstAlike(merged, p, similarity)
    case None => merged + [p]
    case Some(at) => merged[at := Union(merged[at], p)]
  }

  /** Each proposal in turn joins the first merged one it is alike, or stands for itself. */
  function AllMerged(proposals: seq<Proposal>, similarity: (string, string) -> real): seq<Proposal> {
    if proposals == [] then []
    else MergeOne(AllMerged(proposals[..|proposals| - 1], similarity), proposals[|proposals| - 1], similarity)
  }

  lemma UnionSpansMore(proposals: seq<Proposal>, merged: seq<Proposal>, at: nat, p: Proposal)
    requires AllSpanned(proposals, merged) && at < |merged|
    ensures AllSpanned(proposals + [p], merged[at := Union(merged[at], p)])
  {
    var more := merged[at := Union(merged[at], p)];
    forall q | q in proposals + [p] ensures exists m <- more :: Spans(m, q) {
      if q in proposals {
        var m :| m in merged && Spans(m, q);
        var i :| 0 <= i < |merged| && merged[i] == m;
        assert more[i] in more && Spans(more[i], q);
      } else {
        assert more[at] in more && Spans(more[at], p);
      }
    }
  }

  lemma AppendSpansMore(proposals: seq<Proposal>, merged: seq<Proposal>, p: Proposal)
    requires AllSpanned(proposals, merged)
    ensures AllSpanned(proposals + [p], merged + [p])
  {
    assert p in merged + [p] && Spans(p, p);
    forall q | q in proposals + [p] ensures exists m <- merged + [p] :: Spans(m, q) {
      if q in proposals {
        var m :| m in merged && Spans(m, q);
        assert m in merged + [p];
      }
    }
  }

  lemma ApartAreNotAlike(a: Proposal, b: Proposal, similarity: (string, string) -> real)
    requires Apart(a, b)
    ensures !Alike(a, b, similarity)
  {
    var shorter := Least(Duration(a), Duration(b));
    if shorter > 0.0 {
      assert 0.0 / shorter == 0.0;
    }
  }

  method MergeSimilar(proposals: seq<Proposal>, similarity: (string, string) -> real) returns (merged: seq<Proposal>)
    ensures merged == AllMerged(proposals, similarity)
  {
    merged := [];
    for i := 0 to |proposals|
      invariant merged == AllMerged(proposals[..i], similarity)
    {
      assert proposals[..i + 1][..i] == proposals[..i];
      var at := FindAlike(merged, proposals[i], similarity);
      if at.None? {
        merged := merged + [proposals[i]];
      } else {
        merged := merged[at.value := Union(merged[at.value], proposals[i])];
      }
    }
    assert proposals[..|proposals|] == proposals;
  }

  /** Merging loses no proposal: each stays inside a merged one. */
  lemma {:induction false} MergingSpansAll(proposals: seq<Proposal>, similarity: (string, string) -> real)
    ensures AllSpanned(proposals, AllMerged(proposals, similarity))
  {
    if proposals != [] {
      var front, p := proposals[..|proposals| - 1], proposals[|proposals| - 1];
      MergingSpansAll(front, similarity);
      assert proposals == front + [p];
      var merged := AllMerged(front, similarity);
      match FirstAlike(merged, p, similarity)
      case None => AppendSpansMore(front, merged, p);
      case Some(at) => UnionSpansMore(front, merged, at, p);
    }
  }

  lemma LastIsApart(proposals: seq<Proposal>, similarity: (string, string) -> real)
    requires proposals != [] && Pairwise(proposals, Apart)
    ensures var front, p := proposals[..|proposals| - 1], proposals[|proposals| - 1];
      Pairwise(front, Apart) && forall m <- front :: !Alike(m, p, similarity)
  {
    var front, p := proposals[..|proposals| - 1], proposals[|proposals| - 1];
    forall m | m in front ensures !Alike(m, p, similarity) {
      var i :| 0 <= i < |front| && front[i] == m;
      assert Apart(proposals[i], proposals[|proposals| - 1]);
      ApartAreNotAlike(m, p, similarity);
    }
  }

  /** No merge fires among proposals that are apart. */
  lemma {:induction false} ApartAreNotMerged(proposals: seq<Proposal>, similarity: (string, string) -> real)
    requires Pairwise(proposals, Apart)
    ensures AllMerged(proposals, similarity) == proposals
  {
    if proposals != [] {
      var front, p := proposals[..|proposals| - 1], proposals[|proposals| - 1];
      LastIsApart(proposals, similarity);
      ApartAreNotMerged(front, similarity);
      assert FirstAlike(front, p, similarity).None?;
      assert proposals == front + [p];
    }
  }

  // ---- the safety cap ------------------------------------------------------------------------

  datatype Caps = Caps(perSource: int, perHour: real)

  function LatestEnd(proposals: seq<Proposal>): real {
    if proposals == [] then 0.0
    else if |proposals| == 1 then proposals[0].end
    else Greatest(LatestEnd(proposals[..|proposals| - 1]), proposals[|proposals| - 1].end)
  }

  function Cap(proposals: seq<Proposal>, caps: Caps): (n: nat)
    ensures n >= 1
  {
    var hours := Greatest(1.0, LatestEnd(proposals) / 3600.0);
    var hourly := Ceiling(hours * caps.perHour);
    var cap := if caps.perSource <= hourly then caps.perSource else hourly;
    if cap < 1 then 1 else cap
  }

  type Score = Proposal -> real

  function ByScore(score: Score): (Proposal, Proposal) -> bool { (a: Proposal, b: Proposal) => score(a) >= score(b) }

  predicate StartLe(a: Proposal, b: Proposal) { a.start <= b.start }

  /** The best-scored proposals, as many as allowed, and the others. */
  function Kept(proposals: seq<Proposal>, cap: nat, score: Score): (seq<Proposal>, seq<Proposal>)
    requires cap <= |proposals|
  {
    SortIsPermutation(proposals, ByScore(score));
    var ranked := SortBy(proposals, ByScore(score));
    (ranked[..cap], ranked[cap..])
  }

  method Prune(proposals: seq<Proposal>, caps: Caps, score: Score) returns (pruned: seq<Proposal>)
    ensures pruned == Pruned(proposals, caps, score)
  {
    var cap := Cap(proposals, caps);
    if |proposals| <= cap {
      return proposals;
    }
    SortIsPermutation(proposals, ByScore(score));
    var ranked := SortBy(proposals, ByScore(score));
    pruned := SortBy(ranked[..cap], StartLe);
  }

  function Pruned(proposals: seq<Proposal>, caps: Caps, score: Score): seq<Proposal> {
    var cap := Cap(proposals, caps);
    if |proposals| <= cap then proposals else SortBy(Kept(proposals, cap, score).0, StartLe)
  }

  lemma ByScoreIsTotal(score: Score)
    ensures TotalOrder(ByScore(score))
  {
  }

  /** Pruning keeps as many as the cap allows, and none it drops scores higher than one it keeps. */
  lemma PruningKeepsTheBest(proposals: seq<Proposal>, caps: Caps, score: Score)
    requires |proposals| > Cap(proposals, caps)
    ensures var (kept, dropped) := Kept(proposals, Cap(proposals, caps), score);
      && |Pruned(proposals, caps, score)| == Cap(proposals, caps)
      && multiset(Pruned(proposals, caps, score)) + multiset(dropped) == multiset(proposals)
      && forall a <- Pruned(proposals, caps, score), b <- dropped :: score(a) >= score(b)
  {
    var cap := Cap(proposals, caps);
    var ranked := SortBy(proposals, ByScore(score));
    SortIsPermutation(proposals, ByScore(score));
    SortIsPermutation(ranked[..cap], StartLe);
    SortHasSameElements(ranked[..cap], StartLe);
    assert ranked == ranked[..cap] + ranked[cap..];
    ByScoreIsTotal(score);
    SortIsSorted(proposals, ByScore(score));
    forall a, b | a in ranked[..cap] && b in ranked[cap..] ensures score(a) >= score(b) {
      var i :| 0 <= i < cap && ranked[i] == a;
      var k :| 0 <= k < |ranked[cap..]| && ranked[cap..][k] == b;
      assert ByScore(score)(ranked[i], ranked[cap + k]);
    }
  }

  lemma PrunedElements(proposals: seq<Proposal>, caps: Caps, score: Score)
    ensures forall p <- Pruned(proposals, caps, score) :: p in proposals
  {
    var cap := Cap(proposals, caps);
    if |proposals| > cap {
      SortHasSameElements(proposals, ByScore(score));
      SortIsPermutation(proposals, ByScore(score));
      SortHasSameElements(Kept(proposals, cap, score).0, StartLe);
    }
  }

  /** Pruning proposals that follow one another leaves proposals that follow one another. */
  lemma PrunedFollow(proposals: seq<Proposal>, caps: Caps, score: Score)
    requires Pairwise(proposals, Before) && forall p <- proposals :: p.start < p.end
    ensures Pairwise(Pruned(proposals, caps, score), Before)
  {
    var cap := Cap(proposals, caps);
    if |proposals| > cap {
      var ranked := SortBy(proposals, ByScore(score));
      assert Pairwise(proposals, Apart);
      SortIsPairwise(proposals, ByScore(score), Apart);
      SortIsPermutation(proposals, ByScore(score));
      assert Pairwise(ranked[..cap], Apart);
      SortIsPairwise(ranked[..cap], StartLe, Apart);
      SortIsSorted(ranked[..cap], StartLe);
      PrunedElements(proposals, caps, score);
      var pruned := SortBy(ranked[..cap], StartLe);
      forall i, k | 0 <= i < k < |pruned| ensures Before(pruned[i], pruned[k]) {
        assert pruned[k] in pruned;
        assert Apart(pruned[i], pruned[k]) && StartLe(pruned[i], pruned[k]);
      }
    }
  }

  // ---- the generator ----------------------------------------------------------------------------

  /** What the generator promises: bounded proposals, in order, apart in time and atoms. */
  ghost predicate WellSpread(proposals: seq<Proposal>, limit: real) {
    Pairwise(proposals, Before) && forall p <- proposals :: Bounded(p, limit)
  }

  lemma BuiltAreWellSpread(ranges: seq<Range>, atoms: seq<Atom>, duration: real, window: Window,
                           reason: nat -> Option<string>, lexer: Lexer)
    requires Partitions(ranges, |atoms|) && Ordered(atoms, 0.0, duration)
    requires forall r <- ranges :: Decided(r, atoms, window, reason)
    requires forall a <- atoms :: a.end - a.start <= window.max
    ensures WellSpread(Filter(AllProposals(ranges, atoms, duration, lexer), (p: Proposal) => p.end > p.start), window.max)
  {
    var built := AllProposals(ranges, atoms, duration, lexer);
    var lasting := (p: Proposal) => p.end > p.start;
    BuiltFollow(ranges, atoms, duration, lexer);
    FilterIsPairwise(built, lasting, Before);
    forall p | p in Filter(built, lasting) ensures Bounded(p, window.max) {
      assert p in built && lasting(p);
      var i :| 0 <= i < |built| && built[i] == p;
      assert ranges[i] in ranges;
      ProposalTimes(ranges[i], atoms, duration, lexer);
      DecidedFits(ranges[i], atoms, window, reason);
    }
  }

  lemma SpreadIsPruned(proposals: seq<Proposal>, limit: real, caps: Caps, score: Score)
    requires WellSpread(proposals, limit)
    ensures WellSpread(Pruned(proposals, caps, score), limit)
  {
    forall p | p in proposals ensures p.start < p.end {
      assert Bounded(p, limit);
    }
    PrunedFollow(proposals, caps, score);
    PrunedElements(proposals, caps, score);
  }

  /** What the stages in turn make of the atoms: bounded, ranged, built, merged and pruned. */
  ghost predicate Generated(proposals: seq<Proposal>, atoms: seq<Atom>, ranges: seq<Range>, duration: real, window: Window,
                            reason: seq<Atom> -> nat -> Option<string>, similarity: (string, string) -> real, caps: Caps,
                            score: Score, lexer: Lexer)
  {
    var bounded := BoundAtoms(atoms, window.max);
    && Partitions(ranges, |bounded|) && (forall r <- ranges :: Decided(r, bounded, window, reason(bounded)))
    && proposals == Pruned(AllMerged(Lasting(ranges, bounded, duration, lexer), similarity), caps, score)
  }

  /** The built proposals that take time. */
  function Lasting(ranges: seq<Range>, atoms: seq<Atom>, duration: real, lexer: Lexer): seq<Proposal>
    requires forall r <- ranges :: 0 <= r.from <= r.to < |atoms|
  {
    Filter(AllProposals(ranges, atoms, duration, lexer), (p: Proposal) => p.end > p.start)
  }

  /** On ordered segments nothing is merged, and the proposals come in order, bounded and apart. */
  lemma GeneratedAreWellSpread(proposals: seq<Proposal>, atoms: seq<Atom>, ranges: seq<Range>, duration: real,
                               window: Window, reason: seq<Atom> -> nat -> Option<string>,
                               similarity: (string, string) -> real, caps: Caps, score: Score, lexer: Lexer)
    requires Generated(proposals, atoms, ranges, duration, window, reason, similarity, caps, score, lexer)
    requires window.max > 0.0 && duration >= 0.0 && Ordered(atoms, 0.0, duration)
    ensures var built := Lasting(ranges, BoundAtoms(atoms, window.max), duration, lexer);
      && AllMerged(built, similarity) == built && WellSpread(built, window.max)
      && proposals == Pruned(built, caps, score)
    ensures WellSpread(proposals, window.max)
  {
    var bounded := BoundAtoms(atoms, window.max);
    BoundedStayOrdered(atoms, window.max, duration);
    BuiltAreWellSpread(ranges, bounded, duration, window, reason(bounded), lexer);
    var built := Lasting(ranges, bounded, duration, lexer);
    assert Pairwise(built, Apart);
    ApartAreNotMerged(built, similarity);
    SpreadIsPruned(built, window.max, caps, score);
  }

  lemma BoundedStayOrdered(atoms: seq<Atom>, limit: real, duration: real)
    requires limit > 0.0 && duration >= 0.0 && Ordered(atoms, 0.0, duration)
    ensures Ordered(BoundAtoms(atoms, limit), 0.0, duration)
    ensures forall a <- BoundAtoms(atoms, limit) :: a.end - a.start <= limit
  {
    BoundAtomsOrdered(atoms, limit, 0.0, duration);
    if atoms != [] {
      assert atoms[|atoms| - 1] in atoms;
    }
    LiftOrdered(BoundAtoms(atoms, limit), 0.0, if atoms == [] then 0.0 else atoms[|atoms| - 1].end, duration);
  }

  /** `generate_proposals`; the natural boundaries, similarity and pre-scores are parameters. */
  method GenerateProposals(segments: seq<Segment>, duration: real, window: Window, reason: seq<Atom> -> nat -> Option<string>,
                           similarity: (string, string) -> real, caps: Caps, score: Score, lexer: Lexer)
    returns (proposals: seq<Proposal>)
    requires window.max > 0.0
    ensures segments == [] ==> proposals == []
    ensures var effective := EffectiveDuration(segments, duration);
      segments != [] ==> exists atoms, ranges ::
        && AtomsFrom(atoms, segments, window.max, effective, lexer)
        && Generated(proposals, atoms, ranges, effective, window, reason, similarity, caps, score, lexer)
    ensures SegmentsOrdered(segments, EffectiveDuration(segments, duration)) ==> WellSpread(proposals, window.max)
  {
    if segments == [] {
      return [];
    }
    var effective := EffectiveDuration(segments, duration);
    var atoms := BuildAtoms(segments, window.max, effective, lexer);
    var bounded := EnforceAtomBounds(atoms, window.max);
    BoundedNonempty(atoms, window.max);
    var ranges := RawRanges(bounded, window, reason(bounded));
    var built := BuildProposals(ranges, bounded, effective, lexer);
    var merged := MergeSimilar(built, similarity);
    proposals := Prune(merged, caps, score);
    assert Generated(proposals, atoms, ranges, effective, window, reason, similarity, caps, score, lexer);
    if SegmentsOrdered(segments, effective) {
      GeneratedAreWellSpread(proposals, atoms, ranges, effective, window, reason, similarity, caps, score, lexer);
    }
  }

  /** So the generator's check for an empty list of atoms never fires. */
  lemma BoundedNonempty(atoms: seq<Atom>, limit: real)
    requires atoms != []
    ensures BoundAtoms(atoms, limit) != []
  {
  }

  function EffectiveDuration(segments: seq<Segment>, duration: real): real {
    if duration > 0.0 || segments == [] then Greatest(duration, 0.0) else Greatest(segments[|segments| - 1].end, 0.0)
  }
}
