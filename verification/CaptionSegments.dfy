/** Cutting the words of a span into caption fragments. */
module CaptionSegments {
  import opened Bidi
  import opened BidiOrder
  import opened CaptionWrap
  import opened Sequences
  import opened Texts
  import opened Wrappers

  datatype Word = Word(index: int, text: string, start: real, end: real)

  /** The limits of one caption event; `breaks` says whether a word ends with break punctuation. */
  datatype Limits = Limits(maxWords: nat, maxDuration: real, minDuration: real, pauseSplit: real, tail: real,
                           breaks: string -> bool, layout: Layout)

  function WordTexts(words: seq<Word>): seq<string> { MapSeq(words, (w: Word) => w.text) }

  function TextOf(words: seq<Word>): string { Join(WordTexts(words), " ") }

  function Duration(words: seq<Word>): real
    requires words != []
  {
    words[|words| - 1].end - words[0].start
  }

  predicate WithinLimits(words: seq<Word>, limits: Limits) {
    && words != []
    && !Overflows(TextOf(words), limits.layout)
    && |words| <= limits.maxWords
    && Duration(words) <= limits.maxDuration
  }

  /** A caption boundary between neighbouring words: break punctuation or a pause. */
  predicate IsBoundary(left: Word, right: Word, limits: Limits) {
    limits.breaks(left.text) || right.start - left.end >= limits.pauseSplit
  }

  /** The two tests the packing is built on, as the limits give them. */
  datatype Rules = Rules(within: seq<Word> -> bool, boundary: (Word, Word) -> bool)

  function RulesOf(limits: Limits): Rules {
    Rules((words: seq<Word>) => WithinLimits(words, limits), (l: Word, r: Word) => IsBoundary(l, r, limits))
  }

  predicate BoundaryFree(words: seq<Word>, rules: Rules) {
    forall i | 0 < i < |words| :: !rules.boundary(words[i - 1], words[i])
  }

  predicate Separated(before: seq<Word>, after: seq<Word>, rules: Rules) {
    before != [] && after != [] && rules.boundary(before[|before| - 1], after[0])
  }

  /** Whether a piece may join a fragment. */
  predicate Fits(fragment: seq<Word>, piece: seq<Word>, rules: Rules) {
    !Separated(fragment, piece, rules) && rules.within(fragment + piece)
  }

  // ---- units cut at boundaries ---------------------------------------------------------

  /** Pieces cover the unit in order and are boundary-free; neighbours are separated by a boundary. */
  ghost predicate CutAtBoundaries(pieces: seq<seq<Word>>, unit: seq<Word>, rules: Rules) {
    && Flatten(pieces) == unit
    && (forall p <- pieces :: p != [] && BoundaryFree(p, rules))
    && (forall k | 0 < k < |pieces| :: Separated(pieces[k - 1], pieces[k], rules))
  }

  lemma CloseCut(pieces: seq<seq<Word>>, current: seq<Word>, part: seq<Word>, rules: Rules)
    requires CutAtBoundaries(pieces, part, rules) && current != [] && BoundaryFree(current, rules)
    requires pieces != [] ==> Separated(pieces[|pieces| - 1], current, rules)
    ensures CutAtBoundaries(pieces + [current], part + current, rules)
  {
    FlattenAppend(pieces, current);
    var more := pieces + [current];
    forall k | 0 < k < |more| ensures Separated(more[k - 1], more[k], rules) {
      assert k < |pieces| ==> Separated(pieces[k - 1], pieces[k], rules);
    }
  }

  lemma GrowCut(pieces: seq<seq<Word>>, current: seq<Word>, word: Word, rules: Rules)
    requires current != [] && BoundaryFree(current, rules) && !rules.boundary(current[|current| - 1], word)
    requires pieces != [] ==> Separated(pieces[|pieces| - 1], current, rules)
    ensures BoundaryFree(current + [word], rules)
    ensures pieces != [] ==> Separated(pieces[|pieces| - 1], current + [word], rules)
  {
  }

  lemma StartCut(current: seq<Word>, word: Word, rules: Rules)
    requires current != [] && rules.boundary(current[|current| - 1], word)
    ensures BoundaryFree([word], rules) && Separated(current, [word], rules)
  {
  }

  method CutUnit(unit: seq<Word>, rules: Rules) returns (pieces: seq<seq<Word>>)
    requires unit != []
    ensures CutAtBoundaries(pieces, unit, rules)
  {
    pieces := [];
    var current := [unit[0]];
    ghost var part: seq<Word> := [];
    assert CutAtBoundaries(pieces, part, rules) && BoundaryFree(current, rules);
    hide CutAtBoundaries, BoundaryFree, Separated;
    for i := 1 to |unit|
      invariant CutAtBoundaries(pieces, part, rules) && current != [] && BoundaryFree(current, rules)
      invariant part + current == unit[..i] && current[|current| - 1] == unit[i - 1]
      invariant pieces != [] ==> Separated(pieces[|pieces| - 1], current, rules)
    {
      if rules.boundary(unit[i - 1], unit[i]) {
        CloseCut(pieces, current, part, rules);
        StartCut(current, unit[i], rules);
        part := part + current;
        pieces := pieces + [current];
        current := [unit[i]];
      } else {
        GrowCut(pieces, current, unit[i], rules);
        current := current + [unit[i]];
      }
    }
    CloseCut(pieces, current, part, rules);
    pieces := pieces + [current];
    assert unit[..|unit|] == unit;
  }

  function WordsAt(words: seq<Word>, indexes: seq<nat>): (r: seq<Word>)
    requires forall k | 0 <= k < |indexes| :: indexes[k] < |words|
    ensures |r| == |indexes|
  {
    seq(|indexes|, k requires 0 <= k < |indexes| => words[indexes[k]])
  }

  /** Pieces that make up the words, each nonempty and boundary-free. */
  ghost predicate ArePieces(pieces: seq<seq<Word>>, words: seq<Word>, rules: Rules) {
    Flatten(pieces) == words && forall p <- pieces :: p != [] && BoundaryFree(p, rules)
  }

  method CutUnits(units: seq<seq<nat>>, words: seq<Word>, rules: Rules) returns (pieces: seq<seq<Word>>)
    requires Flatten(units) == Range(0, |words|) && forall u <- units :: u != []
    ensures ArePieces(pieces, words, rules)
  {
    hide BoundaryFree;
    pieces := [];
    for k := 0 to |units|
      invariant Offset(units, k) <= |words| && ArePieces(pieces, words[..Offset(units, k)], rules)
    {
      PartOfRange(units, |words|, k);
      var from, to := Offset(units, k), Offset(units, k + 1);
      assert units[k] in units;
      var unit := WordsAt(words, units[k]);
      assert unit == words[from..to] && unit != [];
      var cut := CutUnit(unit, rules);
      FlattenConcat(pieces, cut);
      pieces := pieces + cut;
      assert words[..from] + words[from..to] == words[..to];
    }
    assert units[..|units|] == units;
    assert words[..|words|] == words;
  }

  // ---- greedy packing ----------------------------------------------------------------------

  /** Multi-word fragments keep the limits; no fragment is empty. */
  ghost predicate Limited(fragments: seq<seq<Word>>, rules: Rules) {
    forall f <- fragments :: f != [] && (|f| > 1 ==> rules.within(f))
  }

  ghost predicate NoneCrossed(fragments: seq<seq<Word>>, rules: Rules) {
    forall f <- fragments :: BoundaryFree(f, rules)
  }

  /** `after` could not join `before`: not with the piece it starts, or inside a piece not with its first word. */
  ghost predicate ForcedBy(before: seq<Word>, after: seq<Word>, piece: seq<Word>, rules: Rules) {
    exists j | 0 <= j < |piece| ::
      after != [] && after[0] == piece[j] && !Fits(before, if j == 0 then piece else [piece[j]], rules)
  }

  ghost predicate Forced(before: seq<Word>, after: seq<Word>, pieces: seq<seq<Word>>, rules: Rules) {
    exists p <- pieces :: ForcedBy(before, after, p, rules)
  }

  ghost predicate ForcedCuts(fragments: seq<seq<Word>>, pieces: seq<seq<Word>>, rules: Rules) {
    forall i | 0 < i < |fragments| :: Forced(fragments[i - 1], fragments[i], pieces, rules)
  }

  /** The fragments are the words `part` in order; they keep the limits, cross no boundary and are cut only where forced. */
  ghost predicate Packed(fragments: seq<seq<Word>>, part: seq<Word>, pieces: seq<seq<Word>>, rules: Rules) {
    && Flatten(fragments) == part
    && Limited(fragments, rules)
    && NoneCrossed(fragments, rules)
    && ForcedCuts(fragments, pieces, rules)
  }

  lemma OpenFragment(fragments: seq<seq<Word>>, fragment: seq<Word>, part: seq<Word>, pieces: seq<seq<Word>>, rules: Rules)
    requires Packed(fragments, part, pieces, rules)
    requires fragment != [] && BoundaryFree(fragment, rules) && (|fragment| > 1 ==> rules.within(fragment))
    requires fragments != [] ==> Forced(fragments[|fragments| - 1], fragment, pieces, rules)
    ensures Packed(fragments + [fragment], part + fragment, pieces, rules)
  {
    FlattenAppend(fragments, fragment);
    var more := fragments + [fragment];
    forall i | 0 < i < |more| ensures Forced(more[i - 1], more[i], pieces, rules) {
      assert i < |fragments| ==> Forced(fragments[i - 1], fragments[i], pieces, rules);
    }
  }

  lemma GrownCuts(fragments: seq<seq<Word>>, fragment: seq<Word>, grown: seq<Word>, pieces: seq<seq<Word>>, rules: Rules)
    requires ForcedCuts(fragments + [fragment], pieces, rules)
    requires fragment != [] && grown != [] && grown[0] == fragment[0]
    ensures ForcedCuts(fragments + [grown], pieces, rules)
  {
    var was, more := fragments + [fragment], fragments + [grown];
    forall i | 0 < i < |more| ensures Forced(more[i - 1], more[i], pieces, rules) {
      assert Forced(was[i - 1], was[i], pieces, rules);
      var p :| p in pieces && ForcedBy(was[i - 1], was[i], p, rules);
      assert ForcedBy(more[i - 1], more[i], p, rules);
    }
  }

  lemma GrowFragment(fragments: seq<seq<Word>>, fragment: seq<Word>, piece: seq<Word>, part: seq<Word>,
                     pieces: seq<seq<Word>>, rules: Rules)
    requires Packed(fragments + [fragment], part, pieces, rules)
    requires fragment != [] && piece != [] && BoundaryFree(piece, rules) && Fits(fragment, piece, rules)
    ensures Packed(fragments + [fragment + piece], part + piece, pieces, rules)
  {
    FlattenAppend(fragments, fragment);
    FlattenAppend(fragments, fragment + piece);
    assert Flatten(fragments) + (fragment + piece) == part + piece;
    GrownCuts(fragments, fragment, fragment + piece, pieces, rules);
    var was, more := fragments + [fragment], fragments + [fragment + piece];
    assert was[|fragments|] in was;
    JoinedIsBoundaryFree(fragment, piece, rules);
    forall f | f in more ensures f != [] && (|f| > 1 ==> rules.within(f)) && BoundaryFree(f, rules) {
      assert f in was || f == fragment + piece;
    }
  }

  lemma JoinedIsBoundaryFree(a: seq<Word>, b: seq<Word>, rules: Rules)
    requires BoundaryFree(a, rules) && BoundaryFree(b, rules) && !Separated(a, b, rules)
    ensures BoundaryFree(a + b, rules)
  {
    forall i | 0 < i < |a + b| ensures !rules.boundary((a + b)[i - 1], (a + b)[i]) {
      assert i > |a| ==> !rules.boundary(b[i - 1 - |a|], b[i - |a|]);
    }
  }

  /** Finished fragments and the one being filled. */
  function Closed(fragments: seq<seq<Word>>, current: seq<Word>): seq<seq<Word>> {
    if current == [] then fragments else fragments + [current]
  }

  /** The word loop over a piece that does not fit as a whole, from a fresh fragment on. */
  method SpreadPiece(finished: seq<seq<Word>>, piece: seq<Word>, rules: Rules,
                     ghost part: seq<Word>, ghost pieces: seq<seq<Word>>)
    returns (fragments: seq<seq<Word>>, current: seq<Word>)
    requires Packed(finished, part, pieces, rules) && piece in pieces && piece != []
    requires finished != [] ==> !Fits(finished[|finished| - 1], piece, rules)
    ensures current != [] && Packed(fragments + [current], part + piece, pieces, rules)
  {
    hide Packed;
    fragments, current := finished, [piece[0]];
    assert finished != [] ==> ForcedBy(finished[|finished| - 1], current, piece, rules);
    OpenFragment(finished, current, part, pieces, rules);
    assert part + current == part + piece[..1];
    for i := 1 to |piece|
      invariant current != [] && Packed(fragments + [current], part + piece[..i], pieces, rules)
    {
      var word := [piece[i]];
      assert part + piece[..i] + word == part + piece[..i + 1];
      if !Fits(current, word, rules) {
        assert ForcedBy(current, word, piece, rules);
        OpenFragment(fragments + [current], word, part + piece[..i], pieces, rules);
        fragments := fragments + [current];
        current := word;
      } else {
        GrowFragment(fragments, current, word, part + piece[..i], pieces, rules);
        current := current + word;
      }
    }
    assert piece[..|piece|] == piece;
  }

  /** One piece's turn. */
  method PackPiece(finished: seq<seq<Word>>, filling: seq<Word>, piece: seq<Word>, rules: Rules,
                   ghost part: seq<Word>, ghost pieces: seq<seq<Word>>)
    returns (fragments: seq<seq<Word>>, current: seq<Word>)
    requires Packed(Closed(finished, filling), part, pieces, rules)
    requires piece in pieces && piece != [] && BoundaryFree(piece, rules) && (filling == [] ==> finished == [])
    ensures current != [] && Packed(fragments + [current], part + piece, pieces, rules)
  {
    hide Packed;
    if filling != [] && Fits(filling, piece, rules) {
      GrowFragment(finished, filling, piece, part, pieces, rules);
      fragments, current := finished, filling + piece;
    } else if filling != [] && Fits([], piece, rules) {
      assert [] + piece == piece;
      assert ForcedBy(filling, piece, piece, rules);
      OpenFragment(finished + [filling], piece, part, pieces, rules);
      fragments, current := finished + [filling], piece;
    } else {
      fragments, current := SpreadPiece(Closed(finished, filling), piece, rules, part, pieces);
    }
  }

  lemma PieceAt(pieces: seq<seq<Word>>, words: seq<Word>, i: nat, rules: Rules)
    requires ArePieces(pieces, words, rules) && i < |pieces|
    ensures pieces[i] in pieces && pieces[i] != [] && BoundaryFree(pieces[i], rules)
    ensures Flatten(pieces[..i + 1]) == Flatten(pieces[..i]) + pieces[i]
  {
    assert pieces[..i + 1] == pieces[..i] + [pieces[i]];
    FlattenAppend(pieces[..i], pieces[i]);
  }

  method PackPieces(pieces: seq<seq<Word>>, rules: Rules, ghost words: seq<Word>) returns (fragments: seq<seq<Word>>)
    requires ArePieces(pieces, words, rules)
    ensures Packed(fragments, words, pieces, rules)
  {
    fragments := [];
    var current: seq<Word> := [];
    assert Packed(Closed(fragments, current), Flatten(pieces[..0]), pieces, rules);
    assert pieces[..|pieces|] == pieces && Flatten(pieces) == words;
    hide Packed, ArePieces, BoundaryFree, Flatten;
    for i := 0 to |pieces|
      invariant Packed(Closed(fragments, current), Flatten(pieces[..i]), pieces, rules)
      invariant current == [] ==> fragments == []
    {
      PieceAt(pieces, words, i, rules);
      fragments, current := PackPiece(fragments, current, pieces[i], rules, Flatten(pieces[..i]), pieces);
    }
    fragments := Closed(fragments, current);
  }

  // ---- merging short fragments -----------------------------------------------------------------

  predicate Short(fragment: seq<Word>, minDuration: real) { fragment != [] && Duration(fragment) < minDuration }

  /** The first fragment of a pair is too short and the pair keeps the limits together. */
  predicate Mergeable(fragments: seq<seq<Word>>, i: nat, minDuration: real, rules: Rules)
    requires i + 1 < |fragments|
  {
    Short(fragments[i], minDuration) && rules.within(fragments[i] + fragments[i + 1])
  }

  /** The fragments of `coarse` are consecutive fragments of `fine` put together. */
  ghost predicate Coarsens(coarse: seq<seq<Word>>, fine: seq<seq<Word>>, groups: seq<seq<seq<Word>>>) {
    && Flatten(groups) == fine && |groups| == |coarse|
    && forall i | 0 <= i < |groups| :: groups[i] != [] && Flatten(groups[i]) == coarse[i]
  }

  function MergeAt<T>(parts: seq<seq<T>>, i: nat): seq<seq<T>>
    requires i + 1 < |parts|
  {
    parts[..i] + [parts[i] + parts[i + 1]] + parts[i + 2..]
  }

  lemma {:induction false} MergeKeepsFlatten<T>(parts: seq<seq<T>>, i: nat)
    requires i + 1 < |parts|
    ensures Flatten(MergeAt(parts, i)) == Flatten(parts)
  {
    var merged := MergeAt(parts, i);
    if i == 0 {
      assert merged[0] == parts[0] + parts[1] && merged[1..] == parts[2..] == parts[1..][1..];
    } else {
      assert merged[0] == parts[0] && merged[1..] == MergeAt(parts[1..], i - 1);
      MergeKeepsFlatten(parts[1..], i - 1);
    }
  }

  lemma MergeKeepsLimits(parts: seq<seq<Word>>, i: nat, rules: Rules)
    requires Limited(parts, rules) && i + 1 < |parts| && rules.within(parts[i] + parts[i + 1])
    ensures Limited(MergeAt(parts, i), rules)
  {
    assert parts[i] in parts;
    forall f | f in MergeAt(parts, i) ensures f != [] && (|f| > 1 ==> rules.within(f)) {
      assert f in parts || f == parts[i] + parts[i + 1];
    }
  }

  lemma MergeCoarsens(coarse: seq<seq<Word>>, fine: seq<seq<Word>>, groups: seq<seq<seq<Word>>>, i: nat)
    requires Coarsens(coarse, fine, groups) && i + 1 < |coarse|
    ensures Coarsens(MergeAt(coarse, i), fine, MergeAt(groups, i))
  {
    MergeKeepsFlatten(groups, i);
    FlattenConcat(groups[i], groups[i + 1]);
    var merged, more := MergeAt(groups, i), MergeAt(coarse, i);
    forall k | 0 <= k < |merged| ensures merged[k] != [] && Flatten(merged[k]) == more[k] {
      if k > i {
        assert merged[k] == groups[k + 1] && more[k] == coarse[k + 1];
      }
    }
  }

  method FindMergeable(fragments: seq<seq<Word>>, minDuration: real, rules: Rules) returns (at: Option<nat>)
    requires |fragments| > 1 && forall f <- fragments :: f != []
    ensures at.Some? ==> at.value + 1 < |fragments| && Mergeable(fragments, at.value, minDuration, rules)
    ensures at.None? ==> forall i | 0 <= i < |fragments| - 1 :: !Mergeable(fragments, i, minDuration, rules)
  {
    for i := 0 to |fragments| - 1
      invariant forall k | 0 <= k < i :: !Mergeable(fragments, k, minDuration, rules)
    {
      assert fragments[i] in fragments;
      if Duration(fragments[i]) < minDuration && rules.within(fragments[i] + fragments[i + 1]) {
        return Some(i);
      }
    }
    return None;
  }

  lemma SingleGroups(fragments: seq<seq<Word>>, groups: seq<seq<seq<Word>>>)
    requires groups == MapSeq(fragments, (f: seq<Word>) => [f])
    ensures Coarsens(fragments, fragments, groups)
    decreases |fragments|
  {
    if fragments != [] {
      SingleGroups(fragments[1..], groups[1..]);
    }
    forall i | 0 <= i < |groups| ensures groups[i] != [] && Flatten(groups[i]) == fragments[i] {
      assert groups[i] == [fragments[i]];
    }
  }

  /** Merging runs until no short fragment can take in its successor. */
  method MergeShort(fragments: seq<seq<Word>>, minDuration: real, rules: Rules)
    returns (result: seq<seq<Word>>, ghost groups: seq<seq<seq<Word>>>)
    requires Limited(fragments, rules)
    ensures Flatten(result) == Flatten(fragments) && Limited(result, rules) && Coarsens(result, fragments, groups)
    ensures forall i | 0 <= i < |result| - 1 :: !Mergeable(result, i, minDuration, rules)
  {
    result := fragments;
    groups := MapSeq(fragments, (f: seq<Word>) => [f]);
    SingleGroups(fragments, groups);
    var changed := true;
    while changed && |result| > 1
      invariant Flatten(result) == Flatten(fragments) && Limited(result, rules)
      invariant Coarsens(result, fragments, groups)
      invariant !changed ==> forall i | 0 <= i < |result| - 1 :: !Mergeable(result, i, minDuration, rules)
      decreases |result|, changed
    {
      changed := false;
      var at := FindMergeable(result, minDuration, rules);
      if at.Some? {
        MergeKeepsFlatten(result, at.value);
        MergeKeepsLimits(result, at.value, rules);
        MergeCoarsens(result, fragments, groups, at.value);
        groups := MergeAt(groups, at.value);
        result := MergeAt(result, at.value);
        changed := true;
      }
    }
  }

  // ---- the segmentation of one span --------------------------------------------------------------

  /** Fragments of the words: in order, lossless, within the limits, boundaries crossed only to save a short fragment. */
  method SegmentSpanWords(words: seq<Word>, limits: Limits)
    returns (result: seq<seq<Word>>, ghost packed: seq<seq<Word>>, ghost pieces: seq<seq<Word>>,
             ghost groups: seq<seq<seq<Word>>>)
    ensures Flatten(result) == words
    ensures forall f <- result :: f != [] && (|f| > 1 ==> WithinLimits(f, limits))
    ensures Packed(packed, words, pieces, RulesOf(limits)) && ArePieces(pieces, words, RulesOf(limits))
    ensures Coarsens(result, packed, groups)
    ensures forall i | 0 <= i < |result| - 1 :: !Mergeable(result, i, limits.minDuration, RulesOf(limits))
  {
    if words == [] {
      result, packed, pieces, groups := [], [], [], [];
      return;
    }
    var rules := RulesOf(limits);
    var texts := WordTexts(words);
    var base := ScanDirection(Join(texts, " "), limits.layout.cls);
    var units := AtomicUnits(texts, base, limits.layout.cls);
    UnitsPartition(Directions(texts, base, limits.layout.cls));
    var cut := CutUnits(units, words, rules);
    pieces := cut;
    var fragments := PackPieces(cut, rules, words);
    packed := fragments;
    result, groups := MergeShort(fragments, limits.minDuration, rules);
  }
}
