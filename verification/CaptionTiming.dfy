/** When captions show: event ends, overlap trimming, rounding and the readable-event filter. */
module CaptionTiming {
  import opened CaptionSegments
  import opened CaptionWrap
  import opened Rounding
  import opened Sorting
  import opened Sequences

  const FLOAT_EPSILON := 0.000001
  const MIN_EVENT_SECONDS := 0.1

  function Least(a: real, b: real): real { if a <= b then a else b }

  function Greatest(a: real, b: real): real { if a >= b then a else b }

  /** The end of the event showing a fragment of a span that ends at `spanEnd`. */
  function EventEnd(fragment: seq<Word>, spanEnd: real, limits: Limits): real
    requires fragment != []
  {
    var start := fragment[0].start;
    var wanted := Greatest(fragment[|fragment| - 1].end, start + limits.minDuration);
    Greatest(Least(Least(wanted, start + limits.maxDuration), spanEnd + limits.tail), start)
  }

  /** An event shows no longer than allowed, no later than the tail of its span, and for its words if it may. */
  lemma EventEndIsBounded(fragment: seq<Word>, spanEnd: real, limits: Limits)
    requires fragment != [] && limits.maxDuration >= 0.0
    ensures var start, end := fragment[0].start, EventEnd(fragment, spanEnd, limits);
      && start <= end <= start + limits.maxDuration
      && (start <= spanEnd + limits.tail ==> end <= spanEnd + limits.tail)
      && (WithinLimits(fragment, limits) && fragment[|fragment| - 1].end <= spanEnd + limits.tail ==>
            fragment[|fragment| - 1].end <= end)
      && (limits.minDuration <= limits.maxDuration && start + limits.minDuration <= spanEnd + limits.tail ==>
            end >= start + limits.minDuration)
  {
  }

  datatype Timing = Timing(index: int, text: string, start: real, end: real)

  datatype Draft = Draft(block: int, wordStart: int, start: real, end: real, text: string, lines: seq<string>,
                         upper: bool, words: seq<Timing>)

  function TimingsOf(fragment: seq<Word>): seq<Timing> {
    MapSeq(fragment, (w: Word) => Timing(w.index, w.text, w.start, w.end))
  }

  /** The draft showing one fragment of a span. */
  function DraftOf(fragment: seq<Word>, block: int, spanEnd: real, upper: bool, limits: Limits): Draft
    requires fragment != []
  {
    Draft(block, fragment[0].index, fragment[0].start, EventEnd(fragment, spanEnd, limits), TextOf(fragment),
          WrappedLines(TextOf(fragment), limits.layout), upper, TimingsOf(fragment))
  }

  predicate DraftLe(a: Draft, b: Draft) {
    a.start < b.start || (a.start == b.start
      && (a.wordStart < b.wordStart || (a.wordStart == b.wordStart && a.block <= b.block)))
  }

  lemma DraftLeIsTotal()
    ensures TotalOrder(DraftLe)
  {
  }

  // ---- overlap trimming -----------------------------------------------------------------

  function TrimEnd(d: Draft, next: real): Draft {
    if d.end > next && next >= d.start then d.(end := Greatest(d.start, next)) else d
  }

  /** Each draft but the last, trimmed to the start of its successor. */
  function Trimmed(s: seq<Draft>): (r: seq<Draft>)
    ensures |r| == |s|
  {
    if |s| <= 1 then s else [TrimEnd(s[0], s[1].start)] + Trimmed(s[1..])
  }

  lemma {:induction false} TrimmedIndex(s: seq<Draft>, i: nat)
    requires i < |s|
    ensures Trimmed(s)[i] == if i + 1 < |s| then TrimEnd(s[i], s[i + 1].start) else s[i]
  {
    if i > 0 {
      TrimmedIndex(s[1..], i - 1);
    }
  }

  method SortDrafts(drafts: array<Draft>)
    modifies drafts
    ensures drafts[..] == SortBy(old(drafts[..]), DraftLe)
  {
    var sorted := SortBy(drafts[..], DraftLe);
    SortIsPermutation(drafts[..], DraftLe);
    for i := 0 to drafts.Length
      invariant drafts[..i] == sorted[..i]
      modifies drafts
    {
      drafts[i] := sorted[i];
    }
  }

  method TrimDraft(drafts: array<Draft>, i: nat)
    requires i + 1 < drafts.Length
    modifies drafts
    ensures drafts[..] == old(drafts[..])[i := TrimEnd(old(drafts[i]), old(drafts[i + 1].start))]
  {
    if drafts[i].end > drafts[i + 1].start && drafts[i + 1].start >= drafts[i].start {
      drafts[i] := drafts[i].(end := Greatest(drafts[i].start, drafts[i + 1].start));
    }
  }

  method TrimOverlaps(drafts: array<Draft>)
    modifies drafts
    ensures drafts[..] == Trimmed(SortBy(old(drafts[..]), DraftLe))
  {
    SortDrafts(drafts);
    ghost var sorted := drafts[..];
    if drafts.Length == 0 {
      return;
    }
    ghost var trimmed := Trimmed(sorted);
    SpliceEnds(trimmed, sorted);
    for i := 0 to drafts.Length - 1
      invariant drafts[..] == Splice(trimmed, sorted, i)
      modifies drafts
    {
      TrimmedIndex(sorted, i);
      SpliceStep(trimmed, sorted, i);
      assert drafts[..][i] == sorted[i] && drafts[..][i + 1] == sorted[i + 1];
      TrimDraft(drafts, i);
    }
    TrimmedIndex(sorted, drafts.Length - 1);
    SpliceStep(trimmed, sorted, drafts.Length - 1);
    assert Splice(trimmed, sorted, drafts.Length - 1)[drafts.Length - 1 := trimmed[drafts.Length - 1]]
        == Splice(trimmed, sorted, drafts.Length - 1);
  }

  ghost predicate Forward(s: seq<Draft>) { forall d <- s :: d.start <= d.end }

  predicate DraftBefore(a: Draft, b: Draft) { a.end <= b.start }

  /** Only the end of a draft moves: toward its start, and to the start of its successor. */
  lemma TrimmedAt(s: seq<Draft>, i: nat)
    requires i < |s| && s[i].start <= s[i].end && (i + 1 < |s| ==> s[i].start <= s[i + 1].start)
    ensures var t := Trimmed(s)[i];
      && t == s[i].(end := t.end) && s[i].start <= t.end <= s[i].end
      && (t.end < s[i].end ==> i + 1 < |s| && t.end == s[i + 1].start)
      && (i + 1 < |s| ==> t.end <= s[i + 1].start)
  {
    TrimmedIndex(s, i);
  }

  ghost predicate StartsAscend(s: seq<Draft>) {
    forall i, k | 0 <= i < k < |s| :: s[i].start <= s[k].start
  }

  lemma SortedStartsAscend(s: seq<Draft>)
    requires Sorted(s, DraftLe)
    ensures StartsAscend(s)
  {
    forall i, k | 0 <= i < k < |s| ensures s[i].start <= s[k].start {
      assert DraftLe(s[i], s[k]);
    }
  }

  /** Trimmed drafts follow one another. */
  lemma {:induction false} TrimmedFollow(s: seq<Draft>)
    requires StartsAscend(s) && Forward(s)
    ensures Pairwise(Trimmed(s), DraftBefore)
  {
    if |s| > 1 {
      assert s[0] in s && s[0].start <= s[1].start;
      TrimmedFollow(s[1..]);
      var rest := Trimmed(s[1..]);
      forall k | 0 <= k < |rest| ensures TrimEnd(s[0], s[1].start).end <= rest[k].start {
        TrimmedIndex(s[1..], k);
        assert k > 0 ==> s[1].start <= s[k + 1].start;
      }
    }
  }

  // ---- rounded, re-sorted, filtered events --------------------------------------------------

  function EventOf(d: Draft): Draft { d.(start := Round4(d.start), end := Round4(d.end)) }

  /** Neither blank nor too short to read; `space` is whitespace. */
  predicate Readable(e: Draft, space: char -> bool) {
    && (exists c <- e.text :: !space(c))
    && e.end - e.start > FLOAT_EPSILON
    && e.end - e.start >= MIN_EVENT_SECONDS - FLOAT_EPSILON
  }

  function EmittedEvents(drafts: seq<Draft>): seq<Draft> {
    SortBy(MapSeq(Trimmed(SortBy(drafts, DraftLe)), EventOf), DraftLe)
  }

  function KeptEvents(drafts: seq<Draft>, space: char -> bool): seq<Draft> {
    Filter(EmittedEvents(drafts), (e: Draft) => Readable(e, space))
  }

  method BuildCaptionEvents(drafts: array<Draft>, space: char -> bool) returns (kept: seq<Draft>)
    modifies drafts
    ensures kept == KeptEvents(old(drafts[..]), space)
    ensures drafts[..] == Trimmed(SortBy(old(drafts[..]), DraftLe))
  {
    TrimOverlaps(drafts);
    ghost var trimmed := drafts[..];
    var events: seq<Draft> := [];
    for i := 0 to drafts.Length
      invariant drafts[..] == trimmed
      invariant events == MapSeq(trimmed[..i], EventOf)
    {
      events := events + [EventOf(drafts[i])];
    }
    assert trimmed[..drafts.Length] == trimmed;
    kept := Filter(SortBy(events, DraftLe), (e: Draft) => Readable(e, space));
  }

  predicate Apart(a: Draft, b: Draft) { DraftBefore(a, b) || DraftBefore(b, a) }

  lemma EmittedAreApart(drafts: seq<Draft>)
    requires Forward(drafts)
    ensures Pairwise(EmittedEvents(drafts), Apart)
  {
    var s := SortBy(drafts, DraftLe);
    DraftLeIsTotal();
    SortIsSorted(drafts, DraftLe);
    SortHasSameElements(drafts, DraftLe);
    SortedStartsAscend(s);
    TrimmedFollow(s);
    var t := Trimmed(s);
    var events := MapSeq(t, EventOf);
    forall i, k | 0 <= i < k < |events| ensures Apart(events[i], events[k]) {
      assert DraftBefore(t[i], t[k]);
      Round4IsMonotone(t[i].end, t[k].start);
    }
    SortIsPairwise(events, DraftLe, Apart);
  }

  /** Every kept event ends before the next one starts, and lasts long enough to be read. */
  lemma KeptEventsFollow(drafts: seq<Draft>, space: char -> bool)
    requires Forward(drafts)
    ensures Pairwise(KeptEvents(drafts, space), DraftBefore)
    ensures forall e <- KeptEvents(drafts, space) :: e.end - e.start >= MIN_EVENT_SECONDS - FLOAT_EPSILON
    ensures Sorted(KeptEvents(drafts, space), DraftLe)
  {
    var events := EmittedEvents(drafts);
    var keep := (e: Draft) => Readable(e, space);
    EmittedAreApart(drafts);
    DraftLeIsTotal();
    SortIsSorted(MapSeq(Trimmed(SortBy(drafts, DraftLe)), EventOf), DraftLe);
    forall i, k | 0 <= i < k < |events| && keep(events[i]) && keep(events[k])
      ensures DraftBefore(events[i], events[k])
    {
      assert Apart(events[i], events[k]);
      assert DraftLe(events[i], events[k]);
    }
    FilterIsPairwise(events, keep, DraftBefore);
    FilterIsPairwise(events, keep, DraftLe);
  }
}
