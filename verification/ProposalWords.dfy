/** The words of a transcript in its atoms: splitting over-long segments neither loses nor adds one. */
module ProposalWords {
  import opened ProposalAtoms
  import opened ProposalChunks
  import opened ProposalContent
  import opened Proposals
  import opened Sequences
  import opened Sorting
  import opened Texts

  predicate BlankIff(lexer: Lexer, a: string) { lexer.split(a) == [] <==> lexer.strip(a) == [] }

  predicate SplitsOnce(lexer: Lexer, a: string) { forall t <- lexer.split(a) :: lexer.split(t) == [t] }

  /** Splitting at white space: texts without tokens are those stripped to nothing, and a token is its only token. */
  ghost predicate Splits(lexer: Lexer) {
    Tokenizes(lexer) && (forall a :: BlankIff(lexer, a)) && (forall a :: SplitsOnce(lexer, a))
  }

  function ChunkTexts(chunks: seq<Chunk>): seq<string> { MapSeq(chunks, (c: Chunk) => c.text) }

  /** The tokens of chunks, one after the other. */
  function ChunkTokensOf(chunks: seq<Chunk>, lexer: Lexer): seq<string> { TextTokens(ChunkTexts(chunks), lexer) }

  lemma ChunkTokensCons(chunks: seq<Chunk>, lexer: Lexer)
    requires chunks != []
    ensures ChunkTokensOf(chunks, lexer) == lexer.split(chunks[0].text) + ChunkTokensOf(chunks[1..], lexer)
  {
    assert ChunkTexts(chunks)[1..] == ChunkTexts(chunks[1..]);
  }

  lemma {:induction false} JoinedGroups(chunks: seq<Chunk>, groups: seq<seq<string>>, lexer: Lexer)
    requires Tokenizes(lexer) && |chunks| == |groups|
    requires forall i | 0 <= i < |chunks| :: chunks[i].text == Join(groups[i], " ")
    ensures ChunkTokensOf(chunks, lexer) == TextTokens(Flatten(groups), lexer)
  {
    hide Tokenizes;
    if chunks != [] {
      JoinedGroups(chunks[1..], groups[1..], lexer);
      JoinedTokens(groups[0], lexer);
      TextTokensConcat(groups[0], Flatten(groups[1..]), lexer);
      ChunkTokensCons(chunks, lexer);
    }
  }

  /** Dropping chunks without a text to show loses no token. */
  lemma {:induction false} WordedKeepsTokens(chunks: seq<Chunk>, lexer: Lexer)
    requires Splits(lexer)
    ensures ChunkTokensOf(Filter(chunks, Worded(lexer)), lexer) == ChunkTokensOf(chunks, lexer)
  {
    if chunks != [] {
      var rest := Filter(chunks[1..], Worded(lexer));
      WordedKeepsTokens(chunks[1..], lexer);
      ChunkTokensCons(chunks, lexer);
      assert BlankIff(lexer, chunks[0].text);
      if Worded(lexer)(chunks[0]) {
        assert Filter(chunks, Worded(lexer)) == [chunks[0]] + rest;
        ChunkTokensCons([chunks[0]] + rest, lexer);
        assert ([chunks[0]] + rest)[1..] == rest;
      } else {
        assert Filter(chunks, Worded(lexer)) == rest;
      }
    }
  }

  lemma {:induction false} TokensConcat(a: seq<WordSpan>, b: seq<WordSpan>)
    ensures Tokens(a + b) == Tokens(a) + Tokens(b)
  {
    MapSeqConcat(a, b, (w: WordSpan) => w.token);
  }

  lemma {:induction false} FlattenedTokens(groups: seq<seq<WordSpan>>)
    ensures Flatten(MapSeq(groups, Tokens)) == Tokens(Flatten(groups))
  {
    if groups != [] {
      FlattenedTokens(groups[1..]);
      assert MapSeq(groups, Tokens)[1..] == MapSeq(groups[1..], Tokens);
      TokensConcat(groups[0], Flatten(groups[1..]));
    }
  }

  lemma WordGroupTokens(groups: seq<seq<WordSpan>>, words: seq<WordSpan>, start: real, lexer: Lexer)
    requires Splits(lexer) && Flatten(groups) == words
    ensures ChunkTokensOf(Filter(GroupChunks(groups, start), Worded(lexer)), lexer) == TextTokens(Tokens(words), lexer)
  {
    WordedKeepsTokens(GroupChunks(groups, start), lexer);
    JoinedGroups(GroupChunks(groups, start), MapSeq(groups, Tokens), lexer);
    FlattenedTokens(groups);
  }

  lemma {:induction false} SplitTokens(tokens: seq<string>, lexer: Lexer)
    requires forall t <- tokens :: lexer.split(t) == [t]
    ensures TextTokens(tokens, lexer) == tokens
  {
    if tokens != [] {
      SplitTokens(tokens[1..], lexer);
      assert tokens == [tokens[0]] + tokens[1..];
    }
  }

  lemma TextChunkTokens(text: string, start: real, end: real, limit: real, lexer: Lexer)
    requires Splits(lexer) && limit > 0.0 && start <= end
    ensures ChunkTokensOf(TextChunks(text, start, end, limit, lexer), lexer) == lexer.split(text)
  {
    var tokens := lexer.split(text);
    if tokens == [] || end - start <= limit {
      ChunkTokensCons([Chunk(start, end, text)], lexer);
    } else {
      var count := ChunkCount(|tokens|, end - start, limit);
      SharedChunksShareOut(tokens, start, end, count);
      JoinedGroups(SharedChunks(tokens, start, end, count), TokenGroups(tokens, count), lexer);
      assert SplitsOnce(lexer, text);
      SplitTokens(tokens, lexer);
    }
  }

  /** The tokens of a segment: of its timed words where it is over-long and they have any, else of its text. */
  function SegmentTokens(segment: Segment, limit: real, duration: real, lexer: Lexer): seq<string> {
    var timed := TextTokens(Tokens(segment.words), lexer);
    if EndOf(segment, duration) - StartOf(segment, duration) > limit && timed != [] then timed
    else lexer.split(segment.text)
  }

  lemma AtomsOfTokens(index: nat, chunks: seq<Chunk>, speaker: string, lexer: Lexer)
    ensures AtomTokens(AtomsOf(index, chunks, speaker), lexer) == ChunkTokensOf(chunks, lexer)
  {
    assert TextsOf(AtomsOf(index, chunks, speaker)) == ChunkTexts(chunks);
  }

  lemma OneAtomTokens(a: Atom, lexer: Lexer)
    ensures AtomTokens([a], lexer) == lexer.split(a.text)
  {
    assert TextsOf([a]) == [a.text] && [a.text][1..] == [] && TextTokens([], lexer) == [];
  }

  lemma {:induction false} EmptyTokens(words: seq<WordSpan>, lexer: Lexer)
    requires lexer.split([]) == [] && forall w <- words :: w.token == []
    ensures TextTokens(Tokens(words), lexer) == []
  {
    if words != [] {
      EmptyTokens(words[1..], lexer);
      assert Tokens(words)[1..] == Tokens(words[1..]);
    }
  }

  lemma SomeTokens(chunks: seq<Chunk>, lexer: Lexer)
    requires Splits(lexer) && chunks != [] && Worded(lexer)(chunks[0])
    ensures ChunkTokensOf(chunks, lexer) != []
  {
    ChunkTokensCons(chunks, lexer);
    assert BlankIff(lexer, chunks[0].text);
  }

  lemma SplitKeepsTokens(atoms: seq<Atom>, index: nat, segment: Segment, limit: real, duration: real, lexer: Lexer)
    requires Splits(lexer) && limit > 0.0
    requires SegmentSplits(atoms, index, StartOf(segment, duration), EndOf(segment, duration), segment, limit, lexer)
    ensures AtomTokens(atoms, lexer) == SegmentTokens(segment, limit, duration, lexer)
  {
    var start, end := StartOf(segment, duration), EndOf(segment, duration);
    if end - start > limit {
      var chunks :| ChunksOf(chunks, start, end, segment, limit, lexer)
        && atoms == if chunks == [] then [Atom(index, start, end, segment.text, segment.speaker)]
                    else AtomsOf(index, chunks, segment.speaker);
      ChunksKeepTokens(chunks, start, end, segment, limit, lexer);
      AtomsOfTokens(index, chunks, segment.speaker, lexer);
      OneAtomTokens(Atom(index, start, end, segment.text, segment.speaker), lexer);
    } else {
      OneAtomTokens(atoms[0], lexer);
    }
  }

  lemma ChunksKeepTokens(chunks: seq<Chunk>, start: real, end: real, segment: Segment, limit: real, lexer: Lexer)
    requires Splits(lexer) && limit > 0.0 && end - start > limit && ChunksOf(chunks, start, end, segment, limit, lexer)
    ensures var timed := TextTokens(Tokens(segment.words), lexer);
      if timed != [] then chunks != [] && ChunkTokensOf(chunks, lexer) == timed
      else chunks == [] || ChunkTokensOf(chunks, lexer) == lexer.split(segment.text)
  {
    if exists w <- segment.words :: w.token != [] {
      var groups :| Grouped(groups, segment.words, start, limit)
        && chunks == Filter(GroupChunks(groups, start), Worded(lexer));
      WordGroupTokens(groups, segment.words, start, lexer);
      if chunks != [] {
        assert chunks[0] in chunks;
        SomeTokens(chunks, lexer);
      }
    } else {
      EmptyTokens(segment.words, lexer);
      TextChunkTokens(segment.text, start, end, limit, lexer);
    }
  }

  /** The tokens of segments, one after the other. */
  function TranscriptTokens(segments: seq<Segment>, limit: real, duration: real, lexer: Lexer): seq<string> {
    if segments == [] then []
    else TranscriptTokens(segments[..|segments| - 1], limit, duration, lexer)
         + SegmentTokens(segments[|segments| - 1], limit, duration, lexer)
  }

  lemma AtomTokensConcat(a: seq<Atom>, b: seq<Atom>, lexer: Lexer)
    ensures AtomTokens(a + b, lexer) == AtomTokens(a, lexer) + AtomTokens(b, lexer)
  {
    assert TextsOf(a + b) == TextsOf(a) + TextsOf(b);
    TextTokensConcat(TextsOf(a), TextsOf(b), lexer);
  }

  lemma {:induction false} PartsKeepTokens(parts: seq<seq<Atom>>, segments: seq<Segment>, limit: real, duration: real,
                                           lexer: Lexer)
    requires Splits(lexer) && limit > 0.0 && SplitAs(parts, segments, limit, duration, lexer)
    ensures AtomTokens(Flatten(parts), lexer) == TranscriptTokens(segments, limit, duration, lexer)
  {
    if segments != [] {
      var last := |segments| - 1;
      PartsKeepTokens(parts[..last], segments[..last], limit, duration, lexer);
      SplitKeepsTokens(parts[last], last, segments[last], limit, duration, lexer);
      hide SegmentSplits, Splits;
      assert parts == parts[..last] + [parts[last]];
      FlattenAppend(parts[..last], parts[last]);
      AtomTokensConcat(Flatten(parts[..last]), parts[last], lexer);
    }
  }

  /** The atoms carry the tokens of the transcript, in its order. */
  lemma AtomsKeepAllWords(atoms: seq<Atom>, segments: seq<Segment>, limit: real, duration: real, lexer: Lexer)
    requires Splits(lexer) && limit > 0.0 && AtomsFrom(atoms, segments, limit, duration, lexer)
    ensures AtomTokens(atoms, lexer) == TranscriptTokens(segments, limit, duration, lexer)
  {
    var parts :| SplitAs(parts, segments, limit, duration, lexer) && atoms == Flatten(parts);
    PartsKeepTokens(parts, segments, limit, duration, lexer);
  }

  lemma {:induction false} ShortAtomsStay(atoms: seq<Atom>, limit: real)
    requires forall a <- atoms :: a.end - a.start <= limit
    ensures BoundAtoms(atoms, limit) == atoms
  {
    if atoms != [] {
      var last := |atoms| - 1;
      ShortAtomsStay(atoms[..last], limit);
      assert atoms == atoms[..last] + [atoms[last]];
    }
  }

  /** With no atom left to slice, the ranges' proposals carry the whole transcript, every word once and in order. */
  lemma TranscriptIsProposed(atoms: seq<Atom>, segments: seq<Segment>, ranges: seq<Range>, limit: real, duration: real,
                             lexer: Lexer)
    requires Splits(lexer) && limit > 0.0 && AtomsFrom(atoms, segments, limit, duration, lexer)
    requires (forall a <- atoms :: a.end - a.start <= limit) && Partitions(ranges, |atoms|)
    ensures BoundAtoms(atoms, limit) == atoms
    ensures AllTokens(AllProposals(ranges, atoms, duration, lexer), lexer)
         == TranscriptTokens(segments, limit, duration, lexer)
  {
    ShortAtomsStay(atoms, limit);
    AtomsKeepAllWords(atoms, segments, limit, duration, lexer);
    ProposalsKeepAllWords(ranges, atoms, duration, lexer);
  }
}
