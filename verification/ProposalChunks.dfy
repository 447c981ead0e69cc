/** Splitting an over-long segment at its words, or proportionally by its text, and building all atoms. */
module ProposalChunks {
  import opened ProposalAtoms
  import opened Rounding
  import opened Sequences
  import opened Sorting
  import opened Texts

  datatype WordSpan = WordSpan(token: string, start: real, end: real)

  /** A segment with its usable word spans. */
  datatype Segment = Segment(start: real, end: real, text: string, words: seq<WordSpan>, speaker: string)

  datatype Chunk = Chunk(start: real, end: real, text: string)

  predicate SpanBefore(a: WordSpan, b: WordSpan) { a.end <= b.start }

  /** Words in order, not overlapping, inside `[lo, hi]`. */
  ghost predicate WordsOrdered(words: seq<WordSpan>, lo: real, hi: real) {
    Pairwise(words, SpanBefore) && forall w <- words :: lo <= w.start <= w.end <= hi
  }

  function Tokens(words: seq<WordSpan>): seq<string> { MapSeq(words, (w: WordSpan) => w.token) }

  // ---- chunks of words -----------------------------------------------------------------------

  /** Where chunk `i` starts: with the segment, or with its first word. */
  function GroupStart(groups: seq<seq<WordSpan>>, i: nat, start: real): real
    requires i < |groups|
  {
    if i == 0 || groups[i] == [] then start else groups[i][0].start
  }

  function GroupChunk(groups: seq<seq<WordSpan>>, i: nat, start: real): Chunk
    requires i < |groups|
  {
    Chunk(GroupStart(groups, i, start), if groups[i] == [] then start else groups[i][|groups[i]| - 1].end,
          Join(Tokens(groups[i]), " "))
  }

  function GroupChunks(groups: seq<seq<WordSpan>>, start: real): (c: seq<Chunk>)
    ensures |c| == |groups|
  {
    seq(|groups|, i requires 0 <= i < |groups| => GroupChunk(groups, i, start))
  }

  /** Consecutive nonempty groups; those of several words span no more than the limit, and none could be longer. */
  ghost predicate Grouped(groups: seq<seq<WordSpan>>, words: seq<WordSpan>, start: real, limit: real) {
    && Flatten(groups) == words
    && (forall g <- groups :: g != [])
    && (forall i | 0 <= i < |groups| && |groups[i]| > 1 ::
          groups[i][|groups[i]| - 1].end - GroupStart(groups, i, start) <= limit)
    && (forall i | 0 < i < |groups| && groups[i] != [] ::
          groups[i][0].end - GroupStart(groups, i - 1, start) > limit)
  }

  lemma CloseGroup(groups: seq<seq<WordSpan>>, g: seq<WordSpan>, words: seq<WordSpan>, start: real, limit: real)
    requires Grouped(groups, words, start, limit) && g != []
    requires |g| > 1 ==> g[|g| - 1].end - GroupStart(groups + [g], |groups|, start) <= limit
    requires groups != [] ==> g[0].end - GroupStart(groups, |groups| - 1, start) > limit
    ensures Grouped(groups + [g], words + g, start, limit)
  {
    FlattenAppend(groups, g);
    var more := groups + [g];
    forall i | 0 <= i < |groups| ensures GroupStart(more, i, start) == GroupStart(groups, i, start) {
    }
  }

  /** The groups closed so far, and the one being filled from `chunkStart` on. */
  ghost predicate Filling(groups: seq<seq<WordSpan>>, current: seq<WordSpan>, chunkStart: real, start: real, limit: real) {
    && current != []
    && Grouped(groups, Flatten(groups), start, limit)
    && chunkStart == GroupStart(groups + [current], |groups|, start)
    && (|current| > 1 ==> current[|current| - 1].end - chunkStart <= limit)
    && (groups != [] ==> current[0].end - GroupStart(groups, |groups| - 1, start) > limit)
  }

  lemma CloseFilling(groups: seq<seq<WordSpan>>, current: seq<WordSpan>, chunkStart: real, start: real, limit: real)
    requires Filling(groups, current, chunkStart, start, limit)
    ensures Grouped(groups + [current], Flatten(groups) + current, start, limit)
    ensures GroupChunks(groups + [current], start) == GroupChunks(groups, start)
              + [Chunk(chunkStart, current[|current| - 1].end, Join(Tokens(current), " "))]
    ensures Flatten(groups + [current]) == Flatten(groups) + current
  {
    CloseGroup(groups, current, Flatten(groups), start, limit);
    ExtendChunks(groups, current, start);
  }

  /** The words taken so far: closed groups, their chunks, and the group being filled. */
  ghost predicate Taken(all: seq<Chunk>, groups: seq<seq<WordSpan>>, current: seq<WordSpan>, chunkStart: real,
                        part: seq<WordSpan>, start: real, limit: real)
  {
    && Flatten(groups) + current == part
    && Filling(groups, current, chunkStart, start, limit)
    && all == GroupChunks(groups, start)
  }

  lemma TakeAlong(all: seq<Chunk>, groups: seq<seq<WordSpan>>, current: seq<WordSpan>, chunkStart: real,
                  part: seq<WordSpan>, word: WordSpan, start: real, limit: real)
    requires Taken(all, groups, current, chunkStart, part, start, limit) && word.end - chunkStart <= limit
    ensures Taken(all, groups, current + [word], chunkStart, part + [word], start, limit)
  {
    assert Flatten(groups) + (current + [word]) == part + [word];
  }

  lemma TakeNext(all: seq<Chunk>, groups: seq<seq<WordSpan>>, current: seq<WordSpan>, chunkStart: real,
                 part: seq<WordSpan>, word: WordSpan, start: real, limit: real)
    requires Taken(all, groups, current, chunkStart, part, start, limit) && word.end - chunkStart > limit
    ensures Taken(all + [Chunk(chunkStart, current[|current| - 1].end, Join(Tokens(current), " "))],
                  groups + [current], [word], word.start, part + [word], start, limit)
  {
    CloseFilling(groups, current, chunkStart, start, limit);
  }

  /** The loop over a segment's words. */
  method GroupWords(words: seq<WordSpan>, start: real, limit: real)
    returns (all: seq<Chunk>, ghost groups: seq<seq<WordSpan>>)
    requires words != []
    ensures Grouped(groups, words, start, limit) && all == GroupChunks(groups, start)
  {
    all, groups := [], [];
    var current, chunkStart := [words[0]], start;
    for i := 1 to |words|
      invariant Taken(all, groups, current, chunkStart, words[..i], start, limit)
    {
      assert words[..i + 1] == words[..i] + [words[i]];
      if words[i].end - chunkStart > limit {
        TakeNext(all, groups, current, chunkStart, words[..i], words[i], start, limit);
        all := all + [Chunk(chunkStart, current[|current| - 1].end, Join(Tokens(current), " "))];
        groups := groups + [current];
        chunkStart := words[i].start;
        current := [words[i]];
      } else {
        TakeAlong(all, groups, current, chunkStart, words[..i], words[i], start, limit);
        current := current + [words[i]];
      }
    }
    CloseFilling(groups, current, chunkStart, start, limit);
    all := all + [Chunk(chunkStart, current[|current| - 1].end, Join(Tokens(current), " "))];
    groups := groups + [current];
    assert words[..|words|] == words;
  }

  method ChunkWords(words: seq<WordSpan>, start: real, limit: real, keep: Chunk -> bool)
    returns (chunks: seq<Chunk>, ghost groups: seq<seq<WordSpan>>)
    ensures Grouped(groups, words, start, limit)
    ensures chunks == Filter(GroupChunks(groups, start), keep)
  {
    if words == [] {
      return [], [];
    }
    var all;
    all, groups := GroupWords(words, start, limit);
    chunks := Filter(all, keep);
  }

  lemma ExtendChunks(groups: seq<seq<WordSpan>>, g: seq<WordSpan>, start: real)
    requires g != []
    ensures GroupChunks(groups + [g], start) == GroupChunks(groups, start)
              + [Chunk(GroupStart(groups + [g], |groups|, start), g[|g| - 1].end, Join(Tokens(g), " "))]
  {
  }

  predicate ChunkBefore(a: Chunk, b: Chunk) { a.end <= b.start }

  ghost predicate ChunksOrdered(chunks: seq<Chunk>, lo: real, hi: real) {
    Pairwise(chunks, ChunkBefore) && forall c <- chunks :: lo <= c.start <= c.end <= hi
  }

  lemma WordInGroup(groups: seq<seq<WordSpan>>, words: seq<WordSpan>, i: nat, k: nat) returns (at: nat)
    requires Flatten(groups) == words && i < |groups| && k < |groups[i]|
    ensures at == Offset(groups, i) + k < |words| && words[at] == groups[i][k]
  {
    PartOfFlatten(groups, i);
    at := Offset(groups, i) + k;
  }

  lemma GroupChunkBounds(groups: seq<seq<WordSpan>>, words: seq<WordSpan>, start: real, end: real, i: nat)
    requires WordsOrdered(words, start, end) && Flatten(groups) == words && i < |groups| && groups[i] != []
    ensures var c := GroupChunk(groups, i, start); start <= c.start <= c.end <= end
  {
    var a := WordInGroup(groups, words, i, 0);
    var b := WordInGroup(groups, words, i, |groups[i]| - 1);
    assert words[a] in words && words[b] in words;
    assert a < b ==> SpanBefore(words[a], words[b]);
  }

  lemma GroupChunksFollow(groups: seq<seq<WordSpan>>, words: seq<WordSpan>, start: real, end: real, i: nat, k: nat)
    requires WordsOrdered(words, start, end) && Flatten(groups) == words && i < k < |groups|
    requires groups[i] != [] && groups[k] != []
    ensures ChunkBefore(GroupChunk(groups, i, start), GroupChunk(groups, k, start))
  {
    var a := WordInGroup(groups, words, i, |groups[i]| - 1);
    var b := WordInGroup(groups, words, k, 0);
    PartOfFlatten(groups, i);
    OffsetsGrow(groups, i + 1, k);
    assert SpanBefore(words[a], words[b]);
  }

  lemma WordChunksOrdered(groups: seq<seq<WordSpan>>, words: seq<WordSpan>, start: real, end: real, keep: Chunk -> bool)
    requires WordsOrdered(words, start, end) && Flatten(groups) == words && forall g <- groups :: g != []
    ensures ChunksOrdered(Filter(GroupChunks(groups, start), keep), start, end)
  {
    var chunks := GroupChunks(groups, start);
    forall i, k | 0 <= i < k < |chunks| ensures ChunkBefore(chunks[i], chunks[k]) {
      assert groups[i] in groups && groups[k] in groups;
      GroupChunksFollow(groups, words, start, end, i, k);
    }
    forall c | c in chunks ensures start <= c.start <= c.end <= end {
      var i :| 0 <= i < |chunks| && chunks[i] == c;
      assert groups[i] in groups;
      GroupChunkBounds(groups, words, start, end, i);
    }
    FilterIsPairwise(chunks, keep, ChunkBefore);
  }

  // ---- chunks of text -------------------------------------------------------------------------

  function Weight(tokens: seq<string>): nat {
    if tokens == [] then 0 else Weight(tokens[..|tokens| - 1]) + |tokens[|tokens| - 1]| + 1
  }

  lemma {:induction false} WeightConcat(a: seq<string>, b: seq<string>)
    ensures Weight(a + b) == Weight(a) + Weight(b)
  {
    if b == [] {
      assert a + b == a;
    } else {
      WeightConcat(a, b[..|b| - 1]);
      assert (a + b)[..|a + b| - 1] == a + b[..|b| - 1];
    }
  }

  lemma {:induction false} WeightPositive(tokens: seq<string>)
    ensures tokens != [] ==> Weight(tokens) > 0
  {
  }

  /** The number of chunks: enough for the limit, but no more than tokens. */
  function ChunkCount(tokens: nat, total: real, limit: real): nat
    requires limit > 0.0
  {
    var wanted := SliceCount(total, limit);
    if tokens < wanted then tokens else wanted
  }

  /** The end of group `position` of the tokens. */
  function GroupEnd(previous: nat, position: nat, count: nat, n: nat): nat
    requires position < count && previous <= n
  {
    var wanted := if position == count - 1 then n
                  else AtLeastNext(previous, RoundHalfEven((position + 1) as real * n as real / count as real));
    var forward := if wanted < previous + 1 then previous + 1 else wanted;
    if n < forward then n else forward
  }

  function AtLeastNext(previous: nat, rounded: int): nat { if rounded < previous + 1 then previous + 1 else rounded }

  lemma GroupEndBounds(previous: nat, position: nat, count: nat, n: nat)
    requires position < count && previous <= n
    ensures previous <= GroupEnd(previous, position, count, n) <= n
    ensures previous < n ==> previous < GroupEnd(previous, position, count, n)
    ensures position == count - 1 ==> GroupEnd(previous, position, count, n) == n
  {
  }

  /** Chunks that tile `[start, end]` and share out the tokens, group by group. */
  ghost predicate SharesOut(chunks: seq<Chunk>, groups: seq<seq<string>>, tokens: seq<string>, start: real, now: real) {
    && |chunks| == |groups| && Flatten(groups) == tokens
    && (forall i | 0 <= i < |chunks| :: chunks[i].text == Join(groups[i], " ") && chunks[i].start <= chunks[i].end)
    && (forall i | 0 < i < |chunks| :: chunks[i - 1].end == chunks[i].start)
    && (if chunks == [] then now == start else chunks[0].start == start && chunks[|chunks| - 1].end == now)
  }

  /** The time at which a share of the weight is spoken. */
  function ShareTime(start: real, total: real, weight: nat, all: nat): real
    requires all > 0
  {
    start + Part(total, weight, all)
  }

  lemma ShareTimeMonotone(start: real, total: real, a: nat, b: nat, all: nat)
    requires total >= 0.0 && a <= b <= all && all > 0
    ensures start <= ShareTime(start, total, a, all) <= ShareTime(start, total, b, all) <= start + total
  {
    PartEnds(total, all);
    PartMonotone(total, 0, a, all);
    PartMonotone(total, a, b, all);
    PartMonotone(total, b, all, all);
  }

  /** Where the tokens of chunk `position` end, when `n` tokens go into `count` chunks. */
  function TokenEnd(n: nat, count: nat, position: nat): (end: nat)
    requires position <= count
    ensures end <= n
  {
    if position == 0 then 0
    else
      GroupEndBounds(TokenEnd(n, count, position - 1), position - 1, count, n);
      GroupEnd(TokenEnd(n, count, position - 1), position - 1, count, n)
  }

  /** When chunk `position` begins: at the share of the weight of the tokens before it. */
  function ChunkTime(tokens: seq<string>, start: real, end: real, count: nat, position: nat): real
    requires tokens != [] && position <= count
  {
    WeightPositive(tokens);
    if position == 0 then start
    else if position == count then end
    else ShareTime(start, end - start, Weight(tokens[..TokenEnd(|tokens|, count, position)]), Weight(tokens))
  }

  lemma TokenEndsAscend(n: nat, count: nat, position: nat)
    requires position < count
    ensures TokenEnd(n, count, position) <= TokenEnd(n, count, position + 1)
  {
    GroupEndBounds(TokenEnd(n, count, position), position, count, n);
  }

  function SharedChunk(tokens: seq<string>, start: real, end: real, count: nat, position: nat): Chunk
    requires tokens != [] && position < count
  {
    TokenEndsAscend(|tokens|, count, position);
    Chunk(ChunkTime(tokens, start, end, count, position), ChunkTime(tokens, start, end, count, position + 1),
          Join(tokens[TokenEnd(|tokens|, count, position)..TokenEnd(|tokens|, count, position + 1)], " "))
  }

  /** The chunks of an over-long text, by the weight of their tokens. */
  function SharedChunks(tokens: seq<string>, start: real, end: real, count: nat): (c: seq<Chunk>)
    requires tokens != []
    ensures |c| == count
  {
    seq(count, i requires 0 <= i < count => SharedChunk(tokens, start, end, count, i))
  }

  function TokenGroups(tokens: seq<string>, count: nat): (g: seq<seq<string>>)
    ensures |g| == count
  {
    seq(count, i requires 0 <= i < count =>
          TokenEndsAscend(|tokens|, count, i);
          tokens[TokenEnd(|tokens|, count, i)..TokenEnd(|tokens|, count, i + 1)])
  }

  lemma {:induction false} GroupsCover(tokens: seq<string>, count: nat, i: nat)
    requires i <= count
    ensures Flatten(TokenGroups(tokens, count)[..i]) == tokens[..TokenEnd(|tokens|, count, i)]
  {
    if i > 0 {
      GroupsCover(tokens, count, i - 1);
      var groups := TokenGroups(tokens, count);
      assert groups[..i] == groups[..i - 1] + [groups[i - 1]];
      FlattenAppend(groups[..i - 1], groups[i - 1]);
      TokenEndsAscend(|tokens|, count, i - 1);
    }
  }

  lemma ChunkTimesAscend(tokens: seq<string>, start: real, end: real, count: nat, i: nat)
    requires tokens != [] && start <= end && i < count
    ensures start <= ChunkTime(tokens, start, end, count, i) <= ChunkTime(tokens, start, end, count, i + 1) <= end
  {
    var n, all := |tokens|, Weight(tokens);
    WeightPositive(tokens);
    TokenEndsAscend(n, count, i);
    WeighGroup(tokens, TokenEnd(n, count, i), TokenEnd(n, count, i + 1));
    ShareTimeMonotone(start, end - start, Weight(tokens[..TokenEnd(n, count, i)]),
                      Weight(tokens[..TokenEnd(n, count, i + 1)]), all);
  }

  /** Chunks by weight tile the time and share out all tokens. */
  lemma SharedChunksShareOut(tokens: seq<string>, start: real, end: real, count: nat)
    requires tokens != [] && start <= end && count > 0
    ensures SharesOut(SharedChunks(tokens, start, end, count), TokenGroups(tokens, count), tokens, start, end)
  {
    hide RoundHalfEven;
    GroupsCover(tokens, count, count);
    GroupEndBounds(TokenEnd(|tokens|, count, count - 1), count - 1, count, |tokens|);
    assert TokenGroups(tokens, count)[..count] == TokenGroups(tokens, count) && tokens[..|tokens|] == tokens;
    forall i | 0 <= i < count ensures SharedChunk(tokens, start, end, count, i).start <= SharedChunk(tokens, start, end, count, i).end {
      ChunkTimesAscend(tokens, start, end, count, i);
    }
  }

  lemma NextChunk(tokens: seq<string>, start: real, end: real, count: nat, i: nat, from: nat, to: nat, weight: nat)
    requires tokens != [] && start <= end && i < count && from == TokenEnd(|tokens|, count, i)
    requires to == GroupEnd(from, i, count, |tokens|) && weight == Weight(tokens[..from])
    ensures from <= to == TokenEnd(|tokens|, count, i + 1) && weight + Weight(tokens[from..to]) == Weight(tokens[..to])
    ensures Weight(tokens) > 0
    ensures ChunkTime(tokens, start, end, count, i) <= ChunkTime(tokens, start, end, count, i + 1)
    ensures ChunkTime(tokens, start, end, count, i + 1)
         == if i == count - 1 then end else ShareTime(start, end - start, Weight(tokens[..to]), Weight(tokens))
    ensures SharedChunk(tokens, start, end, count, i)
         == Chunk(ChunkTime(tokens, start, end, count, i), ChunkTime(tokens, start, end, count, i + 1),
                  Join(tokens[from..to], " "))
  {
    TokenEndsAscend(|tokens|, count, i);
    WeighGroup(tokens, from, to);
    WeightPositive(tokens);
    ChunkTimesAscend(tokens, start, end, count, i);
  }

  /** `_chunk_text` of an over-long text, given its tokens. */
  method ChunkTokens(tokens: seq<string>, start: real, end: real, count: nat) returns (chunks: seq<Chunk>)
    requires tokens != [] && start <= end && count > 0
    ensures chunks == SharedChunks(tokens, start, end, count)
  {
    hide GroupEnd;
    chunks := [];
    var previousIndex, previousTime, cumulative := 0, start, 0;
    var all := Weight(tokens);
    for position := 0 to count
      invariant previousIndex == TokenEnd(|tokens|, count, position) && cumulative == Weight(tokens[..previousIndex])
      invariant previousTime == ChunkTime(tokens, start, end, count, position)
      invariant chunks == SharedChunks(tokens, start, end, count)[..position]
    {
      var endIndex := GroupEnd(previousIndex, position, count, |tokens|);
      NextChunk(tokens, start, end, count, position, previousIndex, endIndex, cumulative);
      var group := tokens[previousIndex..endIndex];
      cumulative := cumulative + Weight(group);
      var chunkEnd := if position == count - 1 then end else ShareTime(start, end - start, cumulative, all);
      chunks := chunks + [Chunk(previousTime, if previousTime > chunkEnd then previousTime else chunkEnd, Join(group, " "))];
      previousIndex := endIndex;
      previousTime := chunkEnd;
    }
  }

  lemma WeightSplits(tokens: seq<string>, i: nat)
    requires i <= |tokens|
    ensures Weight(tokens) == Weight(tokens[..i]) + Weight(tokens[i..])
  {
    WeightConcat(tokens[..i], tokens[i..]);
    assert tokens[..i] + tokens[i..] == tokens;
  }

  lemma WeighGroup(tokens: seq<string>, from: nat, to: nat)
    requires from <= to <= |tokens|
    ensures Weight(tokens[..from]) + Weight(tokens[from..to]) == Weight(tokens[..to]) <= Weight(tokens)
    ensures tokens[..from] + tokens[from..to] == tokens[..to]
  {
    WeightSplits(tokens, to);
    WeightSplits(tokens[..to], from);
    assert tokens[..to][..from] == tokens[..from] && tokens[..to][from..] == tokens[from..to];
  }
}
