/** How an over-long text is cut: into as few chunks as fit, of evenly many tokens, each timed by its length. */
module ProposalShares {
  import opened ProposalAtoms
  import opened ProposalChunks
  import opened Rounding
  import opened Texts

  // ---- how many -----------------------------------------------------------------------------------

  lemma ProductOrder(a: real, b: real, scale: real)
    requires scale > 0.0
    ensures a <= b <==> a * scale <= b * scale
  {
    if a <= b {
      Times(b - a, scale);
      assert (b - a) * scale == b * scale - a * scale;
    } else {
      var gap := (a - b) * scale;
      assert gap > 0.0;
      assert gap == a * scale - b * scale;
    }
  }

  lemma Times(a: real, b: real)
    requires a >= 0.0 && b >= 0.0
    ensures a * b >= 0.0
  {
  }

  /** The slices of a duration are the fewest within the limit. */
  lemma SliceCountIsLeast(duration: real, limit: real, m: int)
    requires limit > 0.0 && m >= 1
    ensures SliceCount(duration, limit) <= m <==> duration <= m as real * limit
  {
    var q := duration / limit;
    assert q * limit == duration;
    ProductOrder(q, m as real, limit);
    assert Ceiling(q) <= m <==> q <= m as real;
  }

  /** The chunks of a text are as many, but no more than its tokens. */
  lemma ChunkCountIsLeast(tokens: nat, total: real, limit: real, m: int)
    requires limit > 0.0 && 1 <= m
    ensures ChunkCount(tokens, total, limit) <= m <==> tokens <= m || total <= m as real * limit
  {
    SliceCountIsLeast(total, limit, m);
  }

  // ---- where the tokens part --------------------------------------------------------------------------

  /** The even share of `n` tokens that the first `position` of `count` chunks have. */
  function Even(n: nat, count: nat, position: nat): real
    requires count > 0
  {
    position as real * n as real / count as real
  }

  lemma EvenStep(n: nat, count: nat, position: nat)
    requires 0 < count <= n
    ensures var step := Even(n, count, position + 1) - Even(n, count, position);
      step >= 1.0 && (step == 1.0 ==> Even(n, count, position) == position as real)
    ensures Even(n, count, 0) == 0.0 && Even(n, count, count) == n as real
  {
    var share := n as real / count as real;
    ShareOfAll(n, count);
    EvenIs(n, count, position);
    EvenIs(n, count, position + 1);
    EvenIs(n, count, 0);
    EvenIs(n, count, count);
    StepOf(share, position as real);
  }

  lemma StepOf(share: real, position: real)
    ensures (position + 1.0) * share == position * share + share
  {
  }

  lemma ShareOfAll(n: nat, count: nat)
    requires 0 < count <= n
    ensures n as real / count as real >= 1.0 && count as real * (n as real / count as real) == n as real
  {
    ProductOrder(1.0, n as real / count as real, count as real);
  }

  lemma EvenIs(n: nat, count: nat, position: nat)
    requires count > 0
    ensures Even(n, count, position) == position as real * (n as real / count as real)
  {
  }

  /** Rounding never brings together what is more than one apart. */
  lemma RoundSteps(x: real, y: real)
    requires y - x > 1.0 || (y - x == 1.0 && x == x.Floor as real)
    ensures RoundHalfEven(x) + 1 <= RoundHalfEven(y)
  {
  }

  lemma RoundWithin(x: real, n: nat)
    requires 0.0 <= x <= n as real
    ensures 0 <= RoundHalfEven(x) <= n
  {
    RoundIsMonotone(0.0, x);
    RoundIsMonotone(x, n as real);
  }

  lemma EvenWithin(n: nat, count: nat, position: nat)
    requires 0 < count <= n && position <= count
    ensures 0.0 <= Even(n, count, position) <= n as real
  {
    ShareOfAll(n, count);
    EvenIs(n, count, position);
    var share := n as real / count as real;
    Times(position as real, share);
    ProductOrder(position as real, count as real, share);
  }

  lemma RoundedGroupEnd(previous: nat, position: nat, count: nat, n: nat)
    requires position < count <= n && previous <= n
    requires var rounded := RoundHalfEven(Even(n, count, position + 1)); previous + 1 <= rounded <= n
    ensures GroupEnd(previous, position, count, n)
         == if position == count - 1 then n else RoundHalfEven(Even(n, count, position + 1))
  {
    assert Even(n, count, position + 1) == (position + 1) as real * n as real / count as real;
    hide RoundHalfEven, Even;
  }

  lemma NextEven(n: nat, count: nat, before: nat)
    requires before < count <= n && TokenEnd(n, count, before) == RoundHalfEven(Even(n, count, before))
    ensures TokenEnd(n, count, before + 1) == RoundHalfEven(Even(n, count, before + 1))
  {
    EvenWithin(n, count, before + 1);
    RoundWithin(Even(n, count, before + 1), n);
    EvenStep(n, count, before);
    RoundSteps(Even(n, count, before), Even(n, count, before + 1));
    RoundedGroupEnd(TokenEnd(n, count, before), before, count, n);
    RoundWhole(n);
    hide RoundHalfEven, Even, GroupEnd;
  }

  /** With tokens enough for all chunks, each cut is the even share, rounded. */
  lemma {:induction false} TokenEndIsEven(n: nat, count: nat, position: nat)
    requires 0 < count <= n && position <= count
    ensures TokenEnd(n, count, position) == RoundHalfEven(Even(n, count, position))
  {
    if position == 0 {
      EvenStep(n, count, 0);
    } else {
      TokenEndIsEven(n, count, position - 1);
      NextEven(n, count, position - 1);
      hide RoundHalfEven, Even, TokenEnd;
    }
  }

  // ---- when they are spoken -----------------------------------------------------------------------------

  lemma {:induction false} JoinSnoc(tokens: seq<string>, last: string)
    ensures |Join(tokens + [last], " ")| == if tokens == [] then |last| else |Join(tokens, " ")| + 1 + |last|
  {
    if |tokens| > 0 {
      assert (tokens + [last])[1..] == tokens[1..] + [last];
      JoinSnoc(tokens[1..], last);
    }
  }

  /** The weight of tokens is the length of their text, with a space behind it. */
  lemma {:induction false} WeightIsLength(tokens: seq<string>)
    requires tokens != []
    ensures Weight(tokens) == |Join(tokens, " ")| + 1
  {
    var front, last := tokens[..|tokens| - 1], tokens[|tokens| - 1];
    assert tokens == front + [last];
    JoinSnoc(front, last);
    if front != [] {
      WeightIsLength(front);
    }
  }

  lemma PartTimes(length: real, i: nat, count: nat)
    requires count > 0
    ensures Part(length, i, count) * count as real == length * i as real
  {
    var q := i as real / count as real;
    assert q * count as real == i as real;
    assert length * q * count as real == length * (q * count as real);
  }

  /** `time` parts the interval as the text before it parts the whole. */
  predicate TimedByLength(time: real, start: real, end: real, before: string, whole: string) {
    (time - start) * (|whole| + 1) as real == (end - start) * (|before| + 1) as real
  }

  lemma TimedFrom(time: real, start: real, end: real, before: string, whole: string, share: real)
    requires time == start + share && share * (|whole| + 1) as real == (end - start) * (|before| + 1) as real
    ensures TimedByLength(time, start, end, before, whole)
  {
  }

  /** Each chunk but the first begins when so much of the text is spoken. */
  lemma ChunkTimeIsByLength(tokens: seq<string>, start: real, end: real, count: nat, position: nat)
    requires 0 < count <= |tokens| && 0 < position < count && TokenEnd(|tokens|, count, position) > 0
    ensures TimedByLength(ChunkTime(tokens, start, end, count, position), start, end,
                          Join(tokens[..TokenEnd(|tokens|, count, position)], " "), Join(tokens, " "))
  {
    hide Weight, Part, TokenEnd, TimedByLength, Join;
    var before := tokens[..TokenEnd(|tokens|, count, position)];
    WeightIsLength(tokens);
    WeightIsLength(before);
    var share := Part(end - start, Weight(before), Weight(tokens));
    PartTimes(end - start, Weight(before), Weight(tokens));
    TimedFrom(ChunkTime(tokens, start, end, count, position), start, end, Join(before, " "), Join(tokens, " "), share);
  }

  /** A chunk has the tokens from its cut to the next, and begins when the text before it is spoken. */
  lemma ChunkAt(tokens: seq<string>, start: real, end: real, count: nat, i: nat)
    requires 0 < count <= |tokens| && i < count
    ensures var chunk, from, to := SharedChunk(tokens, start, end, count, i), TokenEnd(|tokens|, count, i),
                                   TokenEnd(|tokens|, count, i + 1);
      && from < to && chunk.text == Join(tokens[from..to], " ")
      && (if i == 0 then chunk.start == start
          else TimedByLength(chunk.start, start, end, Join(tokens[..from], " "), Join(tokens, " ")))
  {
    TokenEndIsEven(|tokens|, count, i);
    TokenEndIsEven(|tokens|, count, i + 1);
    EvenStep(|tokens|, count, i);
    RoundSteps(Even(|tokens|, count, i), Even(|tokens|, count, i + 1));
    hide RoundHalfEven, Even, TimedByLength, TokenEnd, Join, Weight;
    if i > 0 {
      TokenEndPositive(|tokens|, count, i);
      ChunkTimeIsByLength(tokens, start, end, count, i);
    }
  }

  lemma ChunkEndsAt(tokens: seq<string>, start: real, end: real, count: nat, i: nat)
    requires 0 < count <= |tokens| && i < count
    ensures var chunks := SharedChunks(tokens, start, end, count);
      if i == count - 1 then chunks[i].end == end else chunks[i].end == chunks[i + 1].start
  {
    hide TokenEnd, ShareTime, Weight, Join;
  }

  /** So the `i`-th chunk: its tokens, from even cut to even cut, from the time of the one to that of the other. */
  lemma SharedChunkIs(tokens: seq<string>, start: real, end: real, count: nat, i: nat, from: int, to: int)
    requires 0 < count <= |tokens| && i < count
    requires from == RoundHalfEven(Even(|tokens|, count, i)) && to == RoundHalfEven(Even(|tokens|, count, i + 1))
    ensures var chunks := SharedChunks(tokens, start, end, count);
      && 0 <= from < to <= |tokens| && chunks[i].text == Join(tokens[from..to], " ")
      && (if i == 0 then chunks[i].start == start
          else TimedByLength(chunks[i].start, start, end, Join(tokens[..from], " "), Join(tokens, " ")))
      && (if i == count - 1 then chunks[i].end == end else chunks[i].end == chunks[i + 1].start)
  {
    hide RoundHalfEven, Even, TimedByLength, TokenEnd, Join, SharedChunk;
    TokenEndIsEven(|tokens|, count, i);
    TokenEndIsEven(|tokens|, count, i + 1);
    ChunkAt(tokens, start, end, count, i);
    ChunkEndsAt(tokens, start, end, count, i);
    assert SharedChunks(tokens, start, end, count)[i] == SharedChunk(tokens, start, end, count, i);
  }

  lemma TokenEndPositive(n: nat, count: nat, position: nat)
    requires 0 < position <= count <= n
    ensures TokenEnd(n, count, position) > 0
  {
    GroupEndBounds(TokenEnd(n, count, position - 1), position - 1, count, n);
  }

  // ---- slices of an over-long atom -------------------------------------------------------------------------

  lemma PartIsEven(n: nat, i: nat, count: nat)
    requires count > 0
    ensures Part(n as real, i, count) == Even(n, count, i)
  {
    var part := Part(n as real, i, count);
    PartTimes(n as real, i, count);
    assert Even(n, count, i) * count as real == i as real * n as real;
    SameQuotient(part, Even(n, count, i), count as real);
  }

  lemma SameQuotient(a: real, b: real, scale: real)
    requires scale > 0.0 && a * scale == b * scale
    ensures a == b
  {
    ProductOrder(a, b, scale);
    ProductOrder(b, a, scale);
  }

  lemma CutIsEven(n: nat, i: nat, count: nat)
    requires 0 < count && i <= count
    ensures Cut(n, i, count) == RoundHalfEven(Even(n, count, i))
  {
    PartIsEven(n, i, count);
    PartEnds(n as real, count);
    RoundWhole(n);
    hide RoundHalfEven, Part, Even;
  }

  /** The `i`-th slice has the even share of the time and, rounded, of the characters. */
  lemma SliceIs(a: Atom, count: nat, i: nat, from: int, to: int)
    requires i < count
    requires from == RoundHalfEven(Even(|a.text|, count, i)) && to == RoundHalfEven(Even(|a.text|, count, i + 1))
    ensures var s := Slices(a, count)[i];
      && 0 <= from <= to <= |a.text| && s.text == a.text[from..to] && s.segment == a.segment && s.speaker == a.speaker
      && (s.start - a.start) * count as real == (a.end - a.start) * i as real
      && (s.end - a.start) * count as real == (a.end - a.start) * (i + 1) as real
  {
    hide RoundHalfEven, Even, Cut, Part;
    CutIsEven(|a.text|, i, count);
    CutIsEven(|a.text|, i + 1, count);
    CutMonotone(|a.text|, i, count);
    PartTimes(a.end - a.start, i, count);
    PartTimes(a.end - a.start, i + 1, count);
    assert Slices(a, count)[i] == Slice(a, i, count);
  }
}
