/** Coarse candidate proposals over the bounded atoms of a transcript. */
module Proposals {
  import opened ProposalAtoms
  import opened ProposalChunks
  import opened Sequences
  import opened Sorting
  import opened Texts
  import opened Wrappers

  /** The text operations the proposals rely on. */
  datatype Lexer = Lexer(split: string -> seq<string>, strip: string -> string)

  /** Chunks with a text to show. */
  function Worded(lexer: Lexer): Chunk -> bool { (c: Chunk) => lexer.strip(c.text) != [] }

  function Clamp(x: real, low: real, high: real): real {
    var top := if high < low then low else high;
    var capped := if x > top then top else x;
    if capped < low then low else capped
  }

  // ---- atoms of segments ------------------------------------------------------------------

  function AtomsOf(index: nat, chunks: seq<Chunk>, speaker: string): seq<Atom> {
    MapSeq(chunks, (c: Chunk) => Atom(index, c.start, c.end, c.text, speaker))
  }

  lemma AtomsOfOrdered(index: nat, chunks: seq<Chunk>, speaker: string, lo: real, hi: real)
    requires ChunksOrdered(chunks, lo, hi)
    ensures Ordered(AtomsOf(index, chunks, speaker), lo, hi)
  {
    var atoms := AtomsOf(index, chunks, speaker);
    forall i, k | 0 <= i < k < |atoms| ensures AtomBefore(atoms[i], atoms[k]) {
      assert ChunkBefore(chunks[i], chunks[k]);
    }
    forall a | a in atoms ensures lo <= a.start <= a.end <= hi {
      var i :| 0 <= i < |atoms| && atoms[i] == a;
      assert chunks[i] in chunks;
    }
  }

  lemma {:induction false} SharedChunksAscend(chunks: seq<Chunk>, groups: seq<seq<string>>, tokens: seq<string>,
                                              start: real, now: real, i: nat, k: nat)
    requires SharesOut(chunks, groups, tokens, start, now) && i <= k < |chunks|
    ensures chunks[i].start <= chunks[k].start && chunks[i].end <= chunks[k].end
    ensures i < k ==> chunks[i].end <= chunks[k].start
  {
    if i < k {
      SharedChunksAscend(chunks, groups, tokens, start, now, i, k - 1);
    }
  }

  lemma SharedChunksOrdered(chunks: seq<Chunk>, groups: seq<seq<string>>, tokens: seq<string>, start: real, now: real)
    requires SharesOut(chunks, groups, tokens, start, now)
    ensures ChunksOrdered(chunks, start, now)
  {
    forall i, k | 0 <= i < k < |chunks| ensures ChunkBefore(chunks[i], chunks[k]) {
      SharedChunksAscend(chunks, groups, tokens, start, now, i, k);
    }
    forall c | c in chunks ensures start <= c.start <= c.end <= now {
      var i :| 0 <= i < |chunks| && chunks[i] == c;
      SharedChunksAscend(chunks, groups, tokens, start, now, 0, i);
      SharedChunksAscend(chunks, groups, tokens, start, now, i, |chunks| - 1);
    }
  }

  /** The chunks of a text without timed words. */
  function TextChunks(text: string, start: real, end: real, limit: real, lexer: Lexer): seq<Chunk>
    requires limit > 0.0
  {
    var tokens := lexer.split(text);
    if tokens == [] || end - start <= limit then [Chunk(start, end, text)]
    else SharedChunks(tokens, start, end, ChunkCount(|tokens|, end - start, limit))
  }

  method ChunkText(text: string, start: real, end: real, limit: real, lexer: Lexer) returns (chunks: seq<Chunk>)
    requires limit > 0.0
    ensures chunks == TextChunks(text, start, end, limit, lexer) && chunks != []
    ensures start <= end ==> ChunksOrdered(chunks, start, end)
  {
    var tokens := lexer.split(text);
    var total := end - start;
    if tokens == [] || total <= limit {
      return [Chunk(start, end, text)];
    }
    var count := ChunkCount(|tokens|, total, limit);
    chunks := ChunkTokens(tokens, start, end, count);
    SharedChunksShareOut(tokens, start, end, count);
    SharedChunksOrdered(chunks, TokenGroups(tokens, count), tokens, start, end);
  }

  /** The chunks of an over-long segment: of its words when it has any, else of its text. */
  ghost predicate ChunksOf(chunks: seq<Chunk>, start: real, end: real, segment: Segment, limit: real, lexer: Lexer)
    requires limit > 0.0
  {
    if exists w <- segment.words :: w.token != [] then
      exists groups :: Grouped(groups, segment.words, start, limit)
        && chunks == Filter(GroupChunks(groups, start), Worded(lexer))
    else chunks == TextChunks(segment.text, start, end, limit, lexer)
  }

  method ChunkSegment(start: real, end: real, segment: Segment, limit: real, lexer: Lexer) returns (chunks: seq<Chunk>)
    requires limit > 0.0
    ensures ChunksOf(chunks, start, end, segment, limit, lexer)
    ensures start <= end && WordsOrdered(segment.words, start, end) ==> ChunksOrdered(chunks, start, end)
  {
    if exists w <- segment.words :: w.token != [] {
      ghost var groups;
      chunks, groups := ChunkWords(segment.words, start, limit, Worded(lexer));
      if WordsOrdered(segment.words, start, end) {
        WordChunksOrdered(groups, segment.words, start, end, Worded(lexer));
      }
    } else {
      chunks := ChunkText(segment.text, start, end, limit, lexer);
    }
  }

  /** The atoms of a segment with the given edges: one, unless it is over-long. */
  ghost predicate SegmentSplits(atoms: seq<Atom>, index: nat, start: real, end: real, segment: Segment, limit: real,
                                lexer: Lexer)
    requires limit > 0.0
  {
    if end - start > limit then
      exists chunks :: ChunksOf(chunks, start, end, segment, limit, lexer)
        && atoms == if chunks == [] then [Atom(index, start, end, segment.text, segment.speaker)]
                    else AtomsOf(index, chunks, segment.speaker)
    else atoms == [Atom(index, start, if start > end then start else end, segment.text, segment.speaker)]
  }

  method SplitSegment(index: nat, start: real, end: real, segment: Segment, limit: real, lexer: Lexer)
    returns (atoms: seq<Atom>)
    requires limit > 0.0 && end - start > limit
    ensures SegmentSplits(atoms, index, start, end, segment, limit, lexer) && atoms != []
    ensures WordsOrdered(segment.words, start, end) ==> Ordered(atoms, start, end)
  {
    var chunks := ChunkSegment(start, end, segment, limit, lexer);
    if WordsOrdered(segment.words, start, end) {
      AtomsOfOrdered(index, chunks, segment.speaker, start, end);
    }
    atoms := AtomsOf(index, chunks, segment.speaker);
    if atoms == [] {
      atoms := [Atom(index, start, end, segment.text, segment.speaker)];
    }
  }

  /** Time-ordered, non-overlapping segments whose words lie inside them in order, clamped to the source. */
  ghost predicate SegmentsOrdered(segments: seq<Segment>, duration: real) {
    && (forall i, k | 0 <= i < k < |segments| :: segments[i].end <= segments[k].start)
    && (forall s <- segments ::
          s.start <= s.end && WordsOrdered(s.words, Clamp(s.start, 0.0, duration), Clamp(s.end, 0.0, duration)))
  }

  lemma ClampMonotone(x: real, y: real, low: real, high: real)
    requires x <= y
    ensures Clamp(x, low, high) <= Clamp(y, low, high)
    ensures low <= Clamp(x, low, high) && (low <= high ==> Clamp(x, low, high) <= high)
  {
  }

  function StartOf(segment: Segment, duration: real): real { Clamp(segment.start, 0.0, duration) }

  function EndOf(segment: Segment, duration: real): real { Clamp(segment.end, 0.0, duration) }

  ghost predicate SplitAs(parts: seq<seq<Atom>>, segments: seq<Segment>, limit: real, duration: real, lexer: Lexer)
    requires limit > 0.0
  {
    && |parts| == |segments|
    && forall i | 0 <= i < |parts| ::
         SegmentSplits(parts[i], i, StartOf(segments[i], duration), EndOf(segments[i], duration), segments[i], limit, lexer)
  }

  /** The atoms are those of the segments, one segment after the other. */
  ghost predicate AtomsFrom(atoms: seq<Atom>, segments: seq<Segment>, limit: real, duration: real, lexer: Lexer)
    requires limit > 0.0
  {
    exists parts :: SplitAs(parts, segments, limit, duration, lexer) && atoms == Flatten(parts)
  }

  lemma OneMoreSegment(parts: seq<seq<Atom>>, more: seq<Atom>, segments: seq<Segment>, index: nat, limit: real,
                       duration: real, lexer: Lexer)
    requires limit > 0.0 && index < |segments| && SplitAs(parts, segments[..index], limit, duration, lexer)
    requires SegmentSplits(more, index, StartOf(segments[index], duration), EndOf(segments[index], duration),
                           segments[index], limit, lexer)
    ensures SplitAs(parts + [more], segments[..index + 1], limit, duration, lexer)
    ensures Flatten(parts + [more]) == Flatten(parts) + more
  {
    FlattenAppend(parts, more);
    var all := segments[..index + 1];
    forall i | 0 <= i < |parts + [more]|
      ensures SegmentSplits((parts + [more])[i], i, StartOf(all[i], duration), EndOf(all[i], duration), all[i], limit, lexer)
    {
      if i < index {
        assert (parts + [more])[i] == parts[i] && all[i] == segments[..index][i];
      }
    }
  }

  lemma NextSegmentOrdered(atoms: seq<Atom>, more: seq<Atom>, segments: seq<Segment>, index: nat, reached: real, duration: real)
    requires index < |segments| && duration >= 0.0 && SegmentsOrdered(segments, duration)
    requires reached == if index == 0 then 0.0 else EndOf(segments[index - 1], duration)
    requires Ordered(atoms, 0.0, reached) && 0.0 <= reached
    requires Ordered(more, StartOf(segments[index], duration), EndOf(segments[index], duration))
    ensures Ordered(atoms + more, 0.0, EndOf(segments[index], duration))
  {
    var segment := segments[index];
    assert segment in segments;
    ClampMonotone(segment.start, segment.end, 0.0, duration);
    if index > 0 {
      ClampMonotone(segments[index - 1].end, segment.start, 0.0, duration);
    }
    LiftOrdered(atoms, 0.0, reached, StartOf(segment, duration));
    ConcatOrdered(atoms, more, 0.0, StartOf(segment, duration), EndOf(segment, duration));
  }

  lemma EdgesOrdered(segments: seq<Segment>, index: nat, duration: real)
    requires index < |segments| && duration >= 0.0 && SegmentsOrdered(segments, duration)
    ensures 0.0 <= StartOf(segments[index], duration) <= EndOf(segments[index], duration) <= duration
    ensures WordsOrdered(segments[index].words, StartOf(segments[index], duration), EndOf(segments[index], duration))
  {
    assert segments[index] in segments;
    ClampMonotone(segments[index].start, segments[index].end, 0.0, duration);
  }

  method BuildAtoms(segments: seq<Segment>, limit: real, duration: real, lexer: Lexer) returns (atoms: seq<Atom>)
    requires limit > 0.0 && duration >= 0.0
    ensures AtomsFrom(atoms, segments, limit, duration, lexer)
    ensures segments != [] ==> atoms != []
    ensures SegmentsOrdered(segments, duration) ==> Ordered(atoms, 0.0, duration)
  {
    atoms := [];
    ghost var reached, parts := 0.0, [];
    for index := 0 to |segments|
      invariant index > 0 ==> atoms != []
      invariant SplitAs(parts, segments[..index], limit, duration, lexer) && atoms == Flatten(parts)
      invariant reached == if index == 0 then 0.0 else EndOf(segments[index - 1], duration)
      invariant SegmentsOrdered(segments, duration) ==> Ordered(atoms, 0.0, reached) && 0.0 <= reached <= duration
    {
      var more := SegmentAtoms(index, StartOf(segments[index], duration), EndOf(segments[index], duration),
                               segments[index], limit, lexer);
      if SegmentsOrdered(segments, duration) {
        EdgesOrdered(segments, index, duration);
        NextSegmentOrdered(atoms, more, segments, index, reached, duration);
      }
      OneMoreSegment(parts, more, segments, index, limit, duration, lexer);
      atoms, parts := atoms + more, parts + [more];
      reached := EndOf(segments[index], duration);
    }
    assert segments[..|segments|] == segments;
    if SegmentsOrdered(segments, duration) {
      LiftOrdered(atoms, 0.0, reached, duration);
    }
  }

  /** A short segment is one atom; an over-long one is split. */
  method SegmentAtoms(index: nat, start: real, end: real, segment: Segment, limit: real, lexer: Lexer)
    returns (atoms: seq<Atom>)
    requires limit > 0.0
    ensures SegmentSplits(atoms, index, start, end, segment, limit, lexer) && atoms != []
    ensures start <= end && WordsOrdered(segment.words, start, end) ==> Ordered(atoms, start, end)
  {
    if end - start > limit {
      atoms := SplitSegment(index, start, end, segment, limit, lexer);
    } else {
      atoms := [Atom(index, start, if start > end then start else end, segment.text, segment.speaker)];
    }
  }

  // ---- ranges of atoms --------------------------------------------------------------------------

  datatype Reason = EndOfSource | MaxWindow | Natural(name: string) | Tail

  datatype Range = Range(from: int, to: int, reason: Reason)

  datatype Window = Window(max: real, min: real, preferredMin: real)

  /** Consecutive ranges that cover exactly the first `n` atoms. */
  ghost predicate Partitions(ranges: seq<Range>, n: int) {
    && (forall r <- ranges :: 0 <= r.from <= r.to < n)
    && (forall i | 0 < i < |ranges| :: ranges[i].from == ranges[i - 1].to + 1)
    && (if ranges == [] then n == 0 else ranges[0].from == 0 && ranges[|ranges| - 1].to == n - 1)
  }

  /** Whether a range from `from` closes after atom `i`, and why. */
  function CloseReason(atoms: seq<Atom>, window: Window, reason: nat -> Option<string>, from: nat, i: nat): Option<Reason>
    requires from <= i && i + 1 < |atoms|
  {
    var length := atoms[i].end - atoms[from].start;
    if atoms[i + 1].end - atoms[from].start > window.max then Some(MaxWindow)
    else if reason(i).Some? && length >= window.min && length >= window.preferredMin then Some(Natural(reason(i).value))
    else None
  }

  /** The range runs on to its first reason to close, or to the last atom. */
  ghost predicate Decided(r: Range, atoms: seq<Atom>, window: Window, reason: nat -> Option<string>) {
    && 0 <= r.from <= r.to < |atoms|
    && Open(atoms, window, reason, r.from, r.to)
    && (if r.to + 1 < |atoms| then CloseReason(atoms, window, reason, r.from, r.to) == Some(r.reason)
        else r.reason == EndOfSource)
  }

  ghost predicate Open(atoms: seq<Atom>, window: Window, reason: nat -> Option<string>, from: nat, to: nat)
    requires from <= to < |atoms|
  {
    forall i: nat | from <= i < to :: CloseReason(atoms, window, reason, from, i) == None
  }

  lemma ExtendPartition(ranges: seq<Range>, r: Range, atoms: seq<Atom>, window: Window, reason: nat -> Option<string>)
    requires Partitions(ranges, r.from) && Decided(r, atoms, window, reason)
    requires forall x <- ranges :: Decided(x, atoms, window, reason)
    ensures Partitions(ranges + [r], r.to + 1) && forall x <- ranges + [r] :: Decided(x, atoms, window, reason)
  {
  }

  /** The range loop; `reason` is the natural boundary after an atom, if there is one. */
  method RawRanges(atoms: seq<Atom>, window: Window, reason: nat -> Option<string>) returns (ranges: seq<Range>)
    requires atoms != []
    ensures Partitions(ranges, |atoms|) && forall r <- ranges :: Decided(r, atoms, window, reason)
  {
    ranges := [];
    var total, start := |atoms|, 0;
    var index := 0;
    while index < total - 1
      invariant 0 <= start <= index <= total - 1
      invariant Partitions(ranges, start) && forall r <- ranges :: Decided(r, atoms, window, reason)
      invariant Open(atoms, window, reason, start, index)
    {
      var close := CloseReason(atoms, window, reason, start, index);
      if close.Some? {
        ExtendPartition(ranges, Range(start, index, close.value), atoms, window, reason);
        ranges := ranges + [Range(start, index, close.value)];
        start := index + 1;
      }
      index := index + 1;
    }
    ExtendPartition(ranges, Range(start, index, EndOfSource), atoms, window, reason);
    ranges := ranges + [Range(start, index, EndOfSource)];
  }

  /** A decided range of bounded atoms fits the window. */
  lemma DecidedFits(r: Range, atoms: seq<Atom>, window: Window, reason: nat -> Option<string>)
    requires Decided(r, atoms, window, reason) && forall a <- atoms :: a.end - a.start <= window.max
    ensures atoms[r.to].end - atoms[r.from].start <= window.max
  {
    if r.from < r.to {
      assert CloseReason(atoms, window, reason, r.from, r.to - 1) == None;
    } else {
      assert atoms[r.from] in atoms;
    }
  }

  // ---- proposals ------------------------------------------------------------------------------------

  datatype Proposal = Proposal(firstSegment: nat, lastSegment: nat, start: real, end: real, text: string,
                               segments: seq<nat>, spanStart: int, spanEnd: int)

  function Stripped(atoms: seq<Atom>, lexer: Lexer): seq<string> {
    if atoms == [] then []
    else (if lexer.strip(atoms[0].text) == [] then [] else [lexer.strip(atoms[0].text)]) + Stripped(atoms[1..], lexer)
  }

  /** The distinct segment indexes in order of first appearance. */
  function SegmentIndexes(atoms: seq<Atom>): seq<nat> {
    if atoms == [] then []
    else
      var before, s := SegmentIndexes(atoms[..|atoms| - 1]), atoms[|atoms| - 1].segment;
      if s in before then before else before + [s]
  }

  function BuildProposal(r: Range, atoms: seq<Atom>, duration: real, lexer: Lexer): Proposal
    requires 0 <= r.from <= r.to < |atoms|
  {
    var start := Clamp(atoms[r.from].start, 0.0, duration);
    var late := if atoms[r.to].end > start then atoms[r.to].end else start;
    Proposal(atoms[r.from].segment, atoms[r.to].segment, start, Clamp(late, 0.0, duration),
             lexer.strip(Join(Stripped(atoms[r.from..r.to + 1], lexer), " ")),
             SegmentIndexes(atoms[r.from..r.to + 1]), r.from, r.to)
  }

  function Duration(p: Proposal): real { p.end - p.start }

  /** Neither in time nor in atoms do the proposals meet. */
  predicate Before(a: Proposal, b: Proposal) { a.end <= b.start && a.spanEnd < b.spanStart }

  predicate Apart(a: Proposal, b: Proposal) { Before(a, b) || Before(b, a) }

  predicate Bounded(p: Proposal, limit: real) { 0.0 < Duration(p) <= limit }

  lemma ProposalTimes(r: Range, atoms: seq<Atom>, duration: real, lexer: Lexer)
    requires 0 <= r.from <= r.to < |atoms| && Ordered(atoms, 0.0, duration)
    ensures var p := BuildProposal(r, atoms, duration, lexer);
      p.start == atoms[r.from].start && p.end == atoms[r.to].end && p.spanStart == r.from && p.spanEnd == r.to
  {
    assert atoms[r.from] in atoms && atoms[r.to] in atoms;
    assert r.from < r.to ==> AtomBefore(atoms[r.from], atoms[r.to]);
  }

  method BuildProposals(ranges: seq<Range>, atoms: seq<Atom>, duration: real, lexer: Lexer)
    returns (proposals: seq<Proposal>)
    requires forall r <- ranges :: 0 <= r.from <= r.to < |atoms|
    ensures proposals == Filter(AllProposals(ranges, atoms, duration, lexer), (p: Proposal) => p.end > p.start)
  {
    var built: seq<Proposal> := [];
    for i := 0 to |ranges|
      invariant built == AllProposals(ranges[..i], atoms, duration, lexer)
    {
      assert ranges[i] in ranges;
      built := built + [BuildProposal(ranges[i], atoms, duration, lexer)];
    }
    assert ranges[..|ranges|] == ranges;
    proposals := Filter(built, (p: Proposal) => p.end > p.start);
  }

  function AllProposals(ranges: seq<Range>, atoms: seq<Atom>, duration: real, lexer: Lexer): (p: seq<Proposal>)
    requires forall r <- ranges :: 0 <= r.from <= r.to < |atoms|
    ensures |p| == |ranges|
  {
    seq(|ranges|, i requires 0 <= i < |ranges| =>
          assert ranges[i] in ranges;
          BuildProposal(ranges[i], atoms, duration, lexer))
  }

  lemma {:induction false} RangesAscend(ranges: seq<Range>, n: int, i: nat, k: nat)
    requires Partitions(ranges, n) && i < k < |ranges|
    ensures ranges[i].to < ranges[k].from
  {
    assert ranges[k - 1] in ranges && ranges[i] in ranges;
    if i < k - 1 {
      RangesAscend(ranges, n, i, k - 1);
    }
  }

  lemma BuiltFollow(ranges: seq<Range>, atoms: seq<Atom>, duration: real, lexer: Lexer)
    requires Partitions(ranges, |atoms|) && Ordered(atoms, 0.0, duration)
    ensures Pairwise(AllProposals(ranges, atoms, duration, lexer), Before)
  {
    var built := AllProposals(ranges, atoms, duration, lexer);
    forall i, k | 0 <= i < k < |built| ensures Before(built[i], built[k]) {
      assert ranges[i] in ranges && ranges[k] in ranges;
      RangesAscend(ranges, |atoms|, i, k);
      ProposalTimes(ranges[i], atoms, duration, lexer);
      ProposalTimes(ranges[k], atoms, duration, lexer);
      assert AtomBefore(atoms[ranges[i].to], atoms[ranges[k].from]);
    }
  }
}
