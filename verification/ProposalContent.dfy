/** What proposals carry: their words, segments and limits, said without the functions that build them. */
module ProposalContent {
  import opened ProposalAtoms
  import opened ProposalChunks
  import opened ProposalSelection
  import opened Proposals
  import opened Rounding
  import opened Texts
  import opened Wrappers

  // ---- times ---------------------------------------------------------------------------------------------

  /** Clamping yields the nearest value in bounds, and the lower bound when there is none. */
  lemma ClampIsNearest(x: real, low: real, high: real, y: real)
    ensures high < low ==> Clamp(x, low, high) == low
    ensures low <= high ==> low <= Clamp(x, low, high) <= high
    ensures low <= y <= high ==> Distance(x, Clamp(x, low, high)) <= Distance(x, y)
  {
  }

  function Distance(x: real, y: real): real { if x <= y then y - x else x - y }

  /** The given duration when it is positive, else the end of the last segment, and never less than nothing. */
  lemma EffectiveDurationIs(segments: seq<Segment>, duration: real)
    ensures duration > 0.0 ==> EffectiveDuration(segments, duration) == duration
    ensures duration <= 0.0 && segments == [] ==> EffectiveDuration(segments, duration) == 0.0
    ensures duration <= 0.0 && segments != [] ==>
              var end := segments[|segments| - 1].end;
              EffectiveDuration(segments, duration) >= 0.0 && EffectiveDuration(segments, duration) >= end
              && (EffectiveDuration(segments, duration) == 0.0 || EffectiveDuration(segments, duration) == end)
  {
  }

  // ---- words ---------------------------------------------------------------------------------------------

  predicate SplitsAt(lexer: Lexer, a: string, b: string) {
    lexer.split(a + " " + b) == lexer.split(a) + lexer.split(b)
  }

  predicate SplitsStripped(lexer: Lexer, a: string) { lexer.split(lexer.strip(a)) == lexer.split(a) }

  /** Splitting at white space: joining with a space and stripping neither lose nor make a token. */
  ghost predicate Tokenizes(lexer: Lexer) {
    && lexer.split([]) == []
    && (forall a, b :: SplitsAt(lexer, a, b))
    && (forall a :: SplitsStripped(lexer, a))
  }

  /** The tokens of texts, one after the other. */
  function TextTokens(texts: seq<string>, lexer: Lexer): seq<string> {
    if texts == [] then [] else lexer.split(texts[0]) + TextTokens(texts[1..], lexer)
  }

  /** The tokens of atoms, one after the other. */
  function AtomTokens(atoms: seq<Atom>, lexer: Lexer): seq<string> { TextTokens(TextsOf(atoms), lexer) }

  lemma {:induction false} TextTokensConcat(a: seq<string>, b: seq<string>, lexer: Lexer)
    ensures TextTokens(a + b, lexer) == TextTokens(a, lexer) + TextTokens(b, lexer)
  {
    if a == [] {
      assert a + b == b;
    } else {
      TextTokensConcat(a[1..], b, lexer);
      assert (a + b)[1..] == a[1..] + b;
    }
  }

  lemma {:induction false} JoinedTokens(texts: seq<string>, lexer: Lexer)
    requires Tokenizes(lexer)
    ensures lexer.split(Join(texts, " ")) == TextTokens(texts, lexer)
  {
    if |texts| == 1 {
      assert TextTokens(texts[1..], lexer) == [];
    } else if |texts| > 1 {
      JoinedTokens(texts[1..], lexer);
      assert SplitsAt(lexer, texts[0], Join(texts[1..], " "));
    }
  }

  lemma {:induction false} StrippedTokens(atoms: seq<Atom>, lexer: Lexer)
    requires Tokenizes(lexer)
    ensures TextTokens(Stripped(atoms, lexer), lexer) == AtomTokens(atoms, lexer)
  {
    if atoms != [] {
      StrippedTokens(atoms[1..], lexer);
      assert TextsOf(atoms)[1..] == TextsOf(atoms[1..]);
      var text, rest := lexer.strip(atoms[0].text), Stripped(atoms[1..], lexer);
      assert SplitsStripped(lexer, atoms[0].text);
      if text == [] {
        assert Stripped(atoms, lexer) == rest;
      } else {
        assert Stripped(atoms, lexer) == [text] + rest && ([text] + rest)[1..] == rest;
      }
    }
  }

  lemma ProposalTokens(r: Range, atoms: seq<Atom>, duration: real, lexer: Lexer)
    requires Tokenizes(lexer) && 0 <= r.from <= r.to < |atoms|
    ensures lexer.split(BuildProposal(r, atoms, duration, lexer).text) == AtomTokens(atoms[r.from..r.to + 1], lexer)
  {
    var parts := Stripped(atoms[r.from..r.to + 1], lexer);
    StrippedTokens(atoms[r.from..r.to + 1], lexer);
    JoinedTokens(parts, lexer);
    assert SplitsStripped(lexer, Join(parts, " "));
  }

  // ---- segments ------------------------------------------------------------------------------------------

  ghost predicate Distinct(s: seq<nat>) { forall i, k | 0 <= i < k < |s| :: s[i] != s[k] }

  /** Atom `m` is the first of segment `segments[i]`: those before it are of segments listed earlier. */
  ghost predicate FirstOf(atoms: seq<Atom>, m: nat, segments: seq<nat>, i: nat) {
    && m < |atoms| && i < |segments| && atoms[m].segment == segments[i]
    && forall k | 0 <= k < m :: atoms[k].segment in segments[..i]
  }

  ghost predicate Occurs(atoms: seq<Atom>, segments: seq<nat>, i: nat) { exists m :: FirstOf(atoms, m, segments, i) }

  /** `segments` lists the segments of the atoms, each once, in the order in which they first occur. */
  ghost predicate ListsSegments(segments: seq<nat>, atoms: seq<Atom>) {
    && Distinct(segments)
    && (forall a <- atoms :: a.segment in segments)
    && (forall i | 0 <= i < |segments| :: Occurs(atoms, segments, i))
  }

  lemma StillOccurs(atoms: seq<Atom>, a: Atom, segments: seq<nat>, more: seq<nat>, i: nat)
    requires segments <= more && i < |segments| && Occurs(atoms, segments, i)
    ensures Occurs(atoms + [a], more, i)
  {
    var m :| FirstOf(atoms, m, segments, i);
    assert more[..i] == segments[..i];
    assert FirstOf(atoms + [a], m, more, i);
  }

  lemma NewOccurs(atoms: seq<Atom>, a: Atom, segments: seq<nat>)
    requires forall x <- atoms :: x.segment in segments
    ensures Occurs(atoms + [a], segments + [a.segment], |segments|)
  {
    var all, more := atoms + [a], segments + [a.segment];
    assert more[..|segments|] == segments;
    forall k | 0 <= k < |atoms| ensures all[k].segment in more[..|segments|] {
      assert atoms[k] in atoms && all[k] == atoms[k];
    }
    assert FirstOf(all, |atoms|, more, |segments|);
  }

  lemma ListedLater(segments: seq<nat>, atoms: seq<Atom>, a: Atom)
    requires ListsSegments(segments, atoms)
    ensures ListsSegments(if a.segment in segments then segments else segments + [a.segment], atoms + [a])
  {
    hide Occurs;
    var more := if a.segment in segments then segments else segments + [a.segment];
    forall i | 0 <= i < |more| ensures Occurs(atoms + [a], more, i) {
      if i < |segments| {
        StillOccurs(atoms, a, segments, more, i);
      } else {
        NewOccurs(atoms, a, segments);
      }
    }
  }

  lemma {:induction false} SegmentsAreListed(atoms: seq<Atom>)
    ensures ListsSegments(SegmentIndexes(atoms), atoms)
  {
    if atoms != [] {
      hide ListsSegments;
      var front, a := atoms[..|atoms| - 1], atoms[|atoms| - 1];
      SegmentsAreListed(front);
      ListedLater(SegmentIndexes(front), front, a);
      assert atoms == front + [a];
    }
  }

  // ---- built proposals ------------------------------------------------------------------------------------

  /** The proposal carries the words and segments of its atoms, and no others, from first to last. */
  ghost predicate Carries(p: Proposal, atoms: seq<Atom>, lexer: Lexer) {
    && 0 <= p.spanStart <= p.spanEnd < |atoms|
    && lexer.split(p.text) == AtomTokens(atoms[p.spanStart..p.spanEnd + 1], lexer)
    && p.firstSegment == atoms[p.spanStart].segment && p.lastSegment == atoms[p.spanEnd].segment
    && ListsSegments(p.segments, atoms[p.spanStart..p.spanEnd + 1])
  }

  lemma BuiltCarries(r: Range, atoms: seq<Atom>, duration: real, lexer: Lexer)
    requires Tokenizes(lexer) && 0 <= r.from <= r.to < |atoms|
    ensures var p := BuildProposal(r, atoms, duration, lexer);
      Carries(p, atoms, lexer) && p.spanStart == r.from && p.spanEnd == r.to
  {
    hide Tokenizes, AtomTokens, ListsSegments, SegmentIndexes, Stripped, Clamp, Join;
    ProposalTokens(r, atoms, duration, lexer);
    SegmentsAreListed(atoms[r.from..r.to + 1]);
  }

  /** A proposal never runs backward; of ordered atoms it lasts from the start of the first to the end of the last. */
  lemma BuiltLasts(r: Range, atoms: seq<Atom>, duration: real, lexer: Lexer)
    requires 0 <= r.from <= r.to < |atoms| && duration >= 0.0
    ensures var p := BuildProposal(r, atoms, duration, lexer);
      && 0.0 <= p.start <= p.end <= duration
      && (Ordered(atoms, 0.0, duration) ==> p.start == atoms[r.from].start && p.end == atoms[r.to].end)
  {
    hide Stripped, SegmentIndexes, Join;
    if Ordered(atoms, 0.0, duration) {
      assert atoms[r.from] in atoms && atoms[r.to] in atoms;
      assert r.from < r.to ==> AtomBefore(atoms[r.from], atoms[r.to]);
    }
  }

  /** It lasts as long as its atoms. */
  predicate LastsAsAtoms(p: Proposal, atoms: seq<Atom>) {
    0 <= p.spanStart <= p.spanEnd < |atoms| && p.start == atoms[p.spanStart].start && p.end == atoms[p.spanEnd].end
  }

  lemma AllLast(ranges: seq<Range>, atoms: seq<Atom>, duration: real, lexer: Lexer)
    requires Ordered(atoms, 0.0, duration) && duration >= 0.0 && Partitions(ranges, |atoms|)
    ensures forall p <- AllProposals(ranges, atoms, duration, lexer) :: LastsAsAtoms(p, atoms)
  {
    var built := AllProposals(ranges, atoms, duration, lexer);
    hide Ordered;
    forall p | p in built ensures LastsAsAtoms(p, atoms) {
      var i :| 0 <= i < |built| && built[i] == p;
      assert ranges[i] in ranges;
      BuiltLasts(ranges[i], atoms, duration, lexer);
    }
  }

  /** The tokens of the proposals, one after the other. */
  function AllTokens(proposals: seq<Proposal>, lexer: Lexer): seq<string> {
    if proposals == [] then []
    else AllTokens(proposals[..|proposals| - 1], lexer) + lexer.split(proposals[|proposals| - 1].text)
  }

  lemma FrontPartitions(ranges: seq<Range>, n: int)
    requires Partitions(ranges, n) && ranges != []
    ensures var r := ranges[|ranges| - 1]; Partitions(ranges[..|ranges| - 1], r.from) && 0 <= r.from <= r.to == n - 1
  {
    var front := ranges[..|ranges| - 1];
    assert ranges[|ranges| - 1] in ranges;
    forall r | r in front ensures 0 <= r.from <= r.to < ranges[|ranges| - 1].from {
      var i :| 0 <= i < |front| && front[i] == r;
      assert ranges[i] in ranges;
      RangesAscend(ranges, n, i, |ranges| - 1);
    }
  }

  lemma PrefixTokens(atoms: seq<Atom>, from: nat, to: nat, lexer: Lexer)
    requires from <= to <= |atoms|
    ensures AtomTokens(atoms[..to], lexer) == AtomTokens(atoms[..from], lexer) + AtomTokens(atoms[from..to], lexer)
  {
    TextTokensConcat(TextsOf(atoms[..from]), TextsOf(atoms[from..to]), lexer);
    assert TextsOf(atoms[..to]) == TextsOf(atoms[..from]) + TextsOf(atoms[from..to]);
  }

  lemma ProposalsSnoc(ranges: seq<Range>, atoms: seq<Atom>, duration: real, lexer: Lexer)
    requires ranges != [] && forall r <- ranges :: 0 <= r.from <= r.to < |atoms|
    ensures var front, r := ranges[..|ranges| - 1], ranges[|ranges| - 1];
      && 0 <= r.from <= r.to < |atoms| && (forall x <- front :: 0 <= x.from <= x.to < |atoms|)
      && AllTokens(AllProposals(ranges, atoms, duration, lexer), lexer)
           == AllTokens(AllProposals(front, atoms, duration, lexer), lexer)
              + lexer.split(BuildProposal(r, atoms, duration, lexer).text)
  {
    hide BuildProposal;
    var front := ranges[..|ranges| - 1];
    assert ranges[|ranges| - 1] in ranges && forall x <- front :: x in ranges;
    var built := AllProposals(ranges, atoms, duration, lexer);
    assert built[..|built| - 1] == AllProposals(front, atoms, duration, lexer);
  }

  lemma PartitionInside(ranges: seq<Range>, n: nat, atoms: seq<Atom>)
    requires n <= |atoms| && Partitions(ranges, n)
    ensures forall r <- ranges :: 0 <= r.from <= r.to < |atoms|
  {
  }

  lemma NoProposals(atoms: seq<Atom>, duration: real, lexer: Lexer)
    ensures AllTokens(AllProposals([], atoms, duration, lexer), lexer) == AtomTokens(atoms[..0], lexer)
  {
    hide BuildProposal;
    assert atoms[..0] == [] && AllProposals([], atoms, duration, lexer) == [];
  }

  lemma NextProposal(ranges: seq<Range>, n: nat, atoms: seq<Atom>, duration: real, lexer: Lexer)
    requires Tokenizes(lexer) && n <= |atoms| && ranges != [] && forall r <- ranges :: 0 <= r.from <= r.to < |atoms|
    requires ranges[|ranges| - 1].to == n - 1 && ranges[|ranges| - 1] in ranges
    requires forall x <- ranges[..|ranges| - 1] :: 0 <= x.from <= x.to < |atoms|
    requires AllTokens(AllProposals(ranges[..|ranges| - 1], atoms, duration, lexer), lexer)
          == AtomTokens(atoms[..ranges[|ranges| - 1].from], lexer)
    ensures AllTokens(AllProposals(ranges, atoms, duration, lexer), lexer) == AtomTokens(atoms[..n], lexer)
  {
    hide *;
    var r := ranges[|ranges| - 1];
    ProposalsSnoc(ranges, atoms, duration, lexer);
    ProposalTokens(r, atoms, duration, lexer);
    PrefixTokens(atoms, r.from, n, lexer);
  }

  lemma {:induction false} PartitionTokens(ranges: seq<Range>, n: nat, atoms: seq<Atom>, duration: real, lexer: Lexer)
    requires Tokenizes(lexer) && n <= |atoms| && Partitions(ranges, n)
    ensures forall r <- ranges :: 0 <= r.from <= r.to < |atoms|
    ensures AllTokens(AllProposals(ranges, atoms, duration, lexer), lexer) == AtomTokens(atoms[..n], lexer)
  {
    PartitionInside(ranges, n, atoms);
    if ranges == [] {
      assert n == 0;
      NoProposals(atoms, duration, lexer);
    } else {
      FrontPartitions(ranges, n);
      hide *;
      var front, r := ranges[..|ranges| - 1], ranges[|ranges| - 1];
      PartitionTokens(front, r.from, atoms, duration, lexer);
      NextProposal(ranges, n, atoms, duration, lexer);
    }
  }

  /** Built over a partition, the proposals carry all words of the atoms, each once and in order. */
  lemma ProposalsKeepAllWords(ranges: seq<Range>, atoms: seq<Atom>, duration: real, lexer: Lexer)
    requires Tokenizes(lexer) && Partitions(ranges, |atoms|)
    ensures AllTokens(AllProposals(ranges, atoms, duration, lexer), lexer) == AtomTokens(atoms, lexer)
    ensures forall p <- AllProposals(ranges, atoms, duration, lexer) :: Carries(p, atoms, lexer)
  {
    PartitionTokens(ranges, |atoms|, atoms, duration, lexer);
    assert atoms[..|atoms|] == atoms;
    var built := AllProposals(ranges, atoms, duration, lexer);
    forall p | p in built ensures Carries(p, atoms, lexer) {
      var i :| 0 <= i < |built| && built[i] == p;
      assert ranges[i] in ranges;
      BuiltCarries(ranges[i], atoms, duration, lexer);
    }
  }

  /** On ordered segments every generated proposal carries the words and segments of its atoms. */
  lemma GeneratedCarry(proposals: seq<Proposal>, atoms: seq<Atom>, ranges: seq<Range>, duration: real,
                       window: Window, reason: seq<Atom> -> nat -> Option<string>,
                       similarity: (string, string) -> real, caps: Caps, score: Score, lexer: Lexer)
    requires Generated(proposals, atoms, ranges, duration, window, reason, similarity, caps, score, lexer)
    requires Tokenizes(lexer) && window.max > 0.0 && duration >= 0.0 && Ordered(atoms, 0.0, duration)
    ensures forall p <- proposals ::
              && Carries(p, BoundAtoms(atoms, window.max), lexer) && p.start < p.end
              && p.start == BoundAtoms(atoms, window.max)[p.spanStart].start
              && p.end == BoundAtoms(atoms, window.max)[p.spanEnd].end
  {
    var bounded := BoundAtoms(atoms, window.max);
    GeneratedAreWellSpread(proposals, atoms, ranges, duration, window, reason, similarity, caps, score, lexer);
    ProposalsKeepAllWords(ranges, bounded, duration, lexer);
    BoundedStayOrdered(atoms, window.max, duration);
    AllLast(ranges, bounded, duration, lexer);
    PrunedElements(Lasting(ranges, bounded, duration, lexer), caps, score);
  }

  // ---- where a range ends -----------------------------------------------------------------------------------

  /** Atom `i` ends a range from `from` for want of room. */
  predicate Full(atoms: seq<Atom>, window: Window, from: nat, i: nat)
    requires from <= i && i + 1 < |atoms|
  {
    atoms[from].start + window.max < atoms[i + 1].end
  }

  /** Atom `i` ends it at a natural boundary, long enough after its start. */
  predicate Settled(atoms: seq<Atom>, window: Window, reason: nat -> Option<string>, from: nat, i: nat)
    requires from <= i < |atoms|
  {
    && reason(i).Some?
    && atoms[from].start + window.min <= atoms[i].end && atoms[from].start + window.preferredMin <= atoms[i].end
  }

  /** Range `r` ends at the first atom behind which there is no room or a boundary, the lack of room told first. */
  ghost predicate EndsFirst(r: Range, atoms: seq<Atom>, window: Window, reason: nat -> Option<string>) {
    && 0 <= r.from <= r.to < |atoms|
    && (forall i | r.from <= i < r.to :: !Full(atoms, window, r.from, i) && !Settled(atoms, window, reason, r.from, i))
    && match r.reason
       case EndOfSource => r.to == |atoms| - 1
       case MaxWindow => r.to + 1 < |atoms| && Full(atoms, window, r.from, r.to)
       case Natural(name) =>
         && r.to + 1 < |atoms| && !Full(atoms, window, r.from, r.to)
         && Settled(atoms, window, reason, r.from, r.to) && reason(r.to) == Some(name)
       case Tail => false
  }

  lemma RangeEndsIff(r: Range, atoms: seq<Atom>, window: Window, reason: nat -> Option<string>)
    ensures Decided(r, atoms, window, reason) <==> EndsFirst(r, atoms, window, reason)
  {
    if EndsFirst(r, atoms, window, reason) {
      forall i: nat | r.from <= i < r.to ensures CloseReason(atoms, window, reason, r.from, i) == None {
        assert !Full(atoms, window, r.from, i) && !Settled(atoms, window, reason, r.from, i);
      }
    }
    if Decided(r, atoms, window, reason) {
      forall i | r.from <= i < r.to ensures !Full(atoms, window, r.from, i) && !Settled(atoms, window, reason, r.from, i) {
        assert CloseReason(atoms, window, reason, r.from, i) == None;
      }
    }
  }

  // ---- merging ----------------------------------------------------------------------------------------------

  /** Proposals of some length are alike when they share half of the shorter one and most of their words. */
  lemma AlikeIff(a: Proposal, b: Proposal, similarity: (string, string) -> real)
    requires a.start <= a.end && b.start <= b.end
    ensures Alike(a, b, similarity)
       <==> similarity(a.text, b.text) >= 0.6 && Shared(a, b) > 0.0
            && (2.0 * Shared(a, b) >= a.end - a.start || 2.0 * Shared(a, b) >= b.end - b.start)
  {
    var shorter := Least(Duration(a), Duration(b));
    var overlap := Greatest(0.0, Least(a.end, b.end) - Greatest(a.start, b.start));
    if shorter > 0.0 {
      HalfIff(overlap, shorter);
    }
  }

  /** How much of their time two proposals share; negative when they are apart. */
  function Shared(a: Proposal, b: Proposal): real {
    var from, to := if a.start < b.start then b.start else a.start, if a.end < b.end then a.end else b.end;
    to - from
  }

  lemma HalfIff(overlap: real, shorter: real)
    requires shorter > 0.0
    ensures overlap / shorter >= 0.5 <==> 2.0 * overlap >= shorter
  {
    var q := overlap / shorter;
    assert q * shorter == overlap;
    assert (q - 0.5) * shorter == overlap - 0.5 * shorter;
    if q >= 0.5 {
      assert (q - 0.5) * shorter >= 0.0;
    } else {
      assert (0.5 - q) * shorter > 0.0;
    }
  }

  lemma {:induction false} NewOnes(before: seq<nat>, more: seq<nat>)
    requires Distinct(before)
    ensures Distinct(AddNew(before, more)) && before <= AddNew(before, more)
    ensures forall x :: x in AddNew(before, more) <==> x in before || x in more
    decreases |more|
  {
    if more != [] {
      NewOnes(if more[0] in before then before else before + [more[0]], more[1..]);
      assert more == [more[0]] + more[1..];
    }
  }

  /** The union is the least proposal that spans both, with the longer of their texts and all their segments. */
  lemma UnionIsLeast(a: Proposal, b: Proposal, p: Proposal)
    requires Distinct(a.segments)
    ensures var u := Union(a, b);
      && Spans(u, a) && Spans(u, b) && (Spans(p, a) && Spans(p, b) ==> Spans(p, u))
      && (if |a.text| < |b.text| then u.text == b.text else u.text == a.text)
      && Distinct(u.segments) && a.segments <= u.segments
      && (forall x :: x in u.segments <==> x in a.segments || x in b.segments)
      && u.firstSegment <= a.firstSegment && u.firstSegment <= b.firstSegment
      && (u.firstSegment == a.firstSegment || u.firstSegment == b.firstSegment)
      && a.lastSegment <= u.lastSegment && b.lastSegment <= u.lastSegment
      && (u.lastSegment == a.lastSegment || u.lastSegment == b.lastSegment)
  {
    NewOnes(a.segments, b.segments);
  }

  /** A merged proposal speaks for a given one: it spans it, and its text is no shorter. */
  predicate SpeaksFor(m: Proposal, p: Proposal) { Spans(m, p) && |p.text| <= |m.text| }

  ghost predicate AllSpokenFor(proposals: seq<Proposal>, merged: seq<Proposal>) {
    forall p <- proposals :: exists m <- merged :: SpeaksFor(m, p)
  }

  /** The text of every merged proposal is that of one it spans. */
  ghost predicate TextsTaken(proposals: seq<Proposal>, merged: seq<Proposal>) {
    forall m <- merged :: exists p <- proposals :: Spans(m, p) && m.text == p.text
  }

  lemma MergeOneSpeaks(front: seq<Proposal>, merged: seq<Proposal>, p: Proposal, similarity: (string, string) -> real)
    requires AllSpokenFor(front, merged)
    ensures AllSpokenFor(front + [p], MergeOne(merged, p, similarity))
  {
    var more := MergeOne(merged, p, similarity);
    var at := FirstAlike(merged, p, similarity);
    forall q | q in front + [p] ensures exists m <- more :: SpeaksFor(m, q) {
      if q in front {
        var m :| m in merged && SpeaksFor(m, q);
        var i :| 0 <= i < |merged| && merged[i] == m;
        assert more[i] in more && SpeaksFor(more[i], q);
      } else {
        var i := if at.Some? then at.value else |merged|;
        assert more[i] in more && SpeaksFor(more[i], p);
      }
    }
  }

  lemma MergeOneTakes(front: seq<Proposal>, merged: seq<Proposal>, p: Proposal, similarity: (string, string) -> real)
    requires TextsTaken(front, merged)
    ensures TextsTaken(front + [p], MergeOne(merged, p, similarity))
  {
    var more := MergeOne(merged, p, similarity);
    var at := FirstAlike(merged, p, similarity);
    assert p in front + [p] && forall q <- front :: q in front + [p];
    forall m | m in more ensures exists q <- front + [p] :: Spans(m, q) && m.text == q.text {
      var i :| 0 <= i < |more| && more[i] == m;
      if at.Some? && i == at.value {
        assert merged[i] in merged;
        var q :| q in front && Spans(merged[i], q) && merged[i].text == q.text;
        assert Spans(m, q) && Spans(m, p);
      } else if i < |merged| {
        assert merged[i] in merged;
      } else {
        assert Spans(p, p);
      }
    }
  }

  lemma MergedSnoc(front: seq<Proposal>, p: Proposal, similarity: (string, string) -> real)
    ensures AllMerged(front + [p], similarity) == MergeOne(AllMerged(front, similarity), p, similarity)
  {
    hide MergeOne;
    assert (front + [p])[..|front|] == front;
  }

  lemma NothingMerged(similarity: (string, string) -> real)
    ensures AllSpokenFor([], AllMerged([], similarity)) && TextsTaken([], AllMerged([], similarity))
  {
    hide MergeOne;
  }

  /** Every proposal is spoken for by a merged one, and every merged one takes its text from one it spans. */
  lemma {:induction false} MergingSpeaksForAll(proposals: seq<Proposal>, similarity: (string, string) -> real)
    ensures AllSpokenFor(proposals, AllMerged(proposals, similarity))
    ensures TextsTaken(proposals, AllMerged(proposals, similarity))
  {
    hide *;
    if proposals == [] {
      NothingMerged(similarity);
    } else {
      var front, p := proposals[..|proposals| - 1], proposals[|proposals| - 1];
      MergingSpeaksForAll(front, similarity);
      MergedSnoc(front, p, similarity);
      MergeOneSpeaks(front, AllMerged(front, similarity), p, similarity);
      MergeOneTakes(front, AllMerged(front, similarity), p, similarity);
      assert proposals == front + [p];
    }
  }

  // ---- the safety cap ---------------------------------------------------------------------------------------

  /** The latest end of the proposals; nothing when there are none. */
  ghost predicate IsLatest(end: real, proposals: seq<Proposal>) {
    if proposals == [] then end == 0.0
    else (exists p <- proposals :: p.end == end) && forall p <- proposals :: p.end <= end
  }

  lemma {:induction false} LatestIsLatest(proposals: seq<Proposal>)
    ensures IsLatest(LatestEnd(proposals), proposals)
  {
    if |proposals| == 1 {
      assert proposals[0] in proposals;
    } else if |proposals| > 1 {
      var front, p := proposals[..|proposals| - 1], proposals[|proposals| - 1];
      LatestIsLatest(front);
      assert p in proposals && proposals == front + [p];
      var q :| q in front && q.end == LatestEnd(front);
      assert q in proposals;
    }
  }

  lemma OneLatest(a: real, b: real, proposals: seq<Proposal>)
    requires IsLatest(a, proposals) && IsLatest(b, proposals)
    ensures a == b
  {
  }

  /**
   So many proposals may stay: one at least, no more than the limit for a source, and no more than begin
   within the hourly limit, an hour at least being counted.
   */
  lemma CapAllows(proposals: seq<Proposal>, caps: Caps, end: real, n: int)
    requires IsLatest(end, proposals) && n > 1
    ensures n <= Cap(proposals, caps)
       <==> n <= caps.perSource && (n - 1) as real < (if end < 3600.0 then 1.0 else end / 3600.0) * caps.perHour
  {
    LatestIsLatest(proposals);
    OneLatest(end, LatestEnd(proposals), proposals);
    assert end < 3600.0 <==> end / 3600.0 < 1.0;
    CeilingIs((if end < 3600.0 then 1.0 else end / 3600.0) * caps.perHour, n);
  }

  lemma CeilingIs(x: real, n: int)
    ensures n <= Ceiling(x) <==> (n - 1) as real < x
  {
  }
}
