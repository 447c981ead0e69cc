/** Which tokens of an event go on which of its lines. */
module AssLines {
  import opened CaptionWrap
  import opened Sequences
  import opened Texts

  // ---- tokens on lines -------------------------------------------------------------------

  function Counts(lines: seq<string>): seq<nat> { MapSeq(lines, (line: string) => |Split(line)|) }

  function Sum(counts: seq<nat>): nat { if counts == [] then 0 else counts[0] + Sum(counts[1..]) }

  /** Consecutive index ranges of the given sizes. */
  function Ranges(counts: seq<nat>, from: nat): seq<seq<nat>> {
    if counts == [] then [] else [Range(from, from + counts[0])] + Ranges(counts[1..], from + counts[0])
  }

  function RawLines(text: string, lines: seq<string>): (r: seq<string>)
    ensures r != []
  {
    if lines == [] then [text] else lines
  }

  /** The token indexes on each line; lines that do not add up to the text are ignored. */
  function LineTokens(text: string, lines: seq<string>): seq<seq<nat>> {
    var raw := RawLines(text, lines);
    if Join(raw, " ") == text then Ranges(Counts(raw), 0) else [Range(0, |Split(text)|)]
  }

  lemma {:induction false} RangesCover(counts: seq<nat>, from: nat)
    ensures Flatten(Ranges(counts, from)) == Range(from, from + Sum(counts))
  {
    if counts != [] {
      RangesCover(counts[1..], from + counts[0]);
      RangeGrows(from, from + counts[0], from + Sum(counts));
    }
  }

  lemma {:induction false} CountsAddUp(lines: seq<string>)
    ensures Sum(Counts(lines)) == |Flatten(SplitEach(lines))|
  {
    if lines != [] {
      CountsAddUp(lines[1..]);
      assert Counts(lines)[1..] == Counts(lines[1..]) && SplitEach(lines)[1..] == SplitEach(lines[1..]);
    }
  }

  /** `_token_lines`; its check that the counts add up never fails. */
  method TokenLines(text: string, lines: seq<string>) returns (tokens: seq<string>, indexes: seq<seq<nat>>)
    ensures tokens == Split(text) && indexes == LineTokens(text, lines)
  {
    tokens := Split(text);
    var raw := RawLines(text, lines);
    if Join(raw, " ") == text {
      var counts := Counts(raw);
      SplitJoinedLines(raw);
      CountsAddUp(raw);
      if Sum(counts) == |tokens| {
        indexes := [];
        var cursor := 0;
        for i := 0 to |counts|
          invariant indexes + Ranges(counts[i..], cursor) == Ranges(counts, 0)
        {
          RangesStep(counts, i, cursor, indexes);
          indexes := indexes + [Range(cursor, cursor + counts[i])];
          cursor := cursor + counts[i];
        }
        assert Ranges(counts[|counts|..], cursor) == [];
        return;
      }
    }
    indexes := [Range(0, |tokens|)];
  }

  lemma RangesStep(counts: seq<nat>, i: nat, cursor: nat, before: seq<seq<nat>>)
    requires i < |counts|
    ensures before + Ranges(counts[i..], cursor)
         == (before + [Range(cursor, cursor + counts[i])]) + Ranges(counts[i + 1..], cursor + counts[i])
  {
    assert counts[i..][1..] == counts[i + 1..];
  }

  /** Whatever the lines are, every token is shown once and in order. */
  lemma TokenLinesPartition(text: string, lines: seq<string>)
    ensures Flatten(LineTokens(text, lines)) == Range(0, |Split(text)|)
  {
    var raw := RawLines(text, lines);
    if Join(raw, " ") == text {
      SplitJoinedLines(raw);
      CountsAddUp(raw);
      RangesCover(Counts(raw), 0);
    } else {
      assert Flatten([Range(0, |Split(text)|)]) == Range(0, |Split(text)|);
    }
  }

  lemma {:induction false} RangesOfParts(parts: seq<seq<nat>>, counts: seq<nat>, from: nat, to: nat)
    requires from <= to && Flatten(parts) == Range(from, to)
    requires |counts| == |parts| && forall i | 0 <= i < |parts| :: counts[i] == |parts[i]|
    ensures Ranges(counts, from) == parts
  {
    if parts != [] {
      var n := counts[0];
      var rest := Flatten(parts[1..]);
      assert Flatten(parts)[..n] == parts[0] && Flatten(parts)[n..] == rest;
      assert parts[0] == Range(from, from + n);
      assert rest == Range(from + n, to);
      RangesOfParts(parts[1..], counts[1..], from + n, to);
    }
  }

  lemma PickedTokensSplit(text: string, layout: Layout, i: nat)
    requires i < |WrapIndexes(text, layout)|
    ensures |Split(WrappedLines(text, layout)[i])| == |WrapIndexes(text, layout)[i]|
  {
    var tokens, line := Split(text), WrapIndexes(text, layout)[i];
    WrappedLinesAreJoins(text, layout);
    assert PickEach(tokens, WrapIndexes(text, layout))[i] in PickEach(tokens, WrapIndexes(text, layout));
    SplitPiecesAreSpaceless(text);
    forall p | p in Pick(tokens, line) ensures Spaceless(p) {
      assert p in tokens || p == [];
    }
    SplitJoin(Pick(tokens, line));
  }

  /** The serializer recovers exactly the wrapping. */
  lemma TokenLinesRecoverWrapping(text: string, layout: Layout)
    ensures LineTokens(text, WrappedLines(text, layout)) == WrapIndexes(text, layout)
  {
    var lines, wrapped := WrapIndexes(text, layout), WrappedLines(text, layout);
    WrapJoinsBack(text, layout);
    WrappedLinesAreJoins(text, layout);
    WrapIsGood(text, layout);
    forall i | 0 <= i < |lines| ensures Counts(wrapped)[i] == |lines[i]| {
      PickedTokensSplit(text, layout, i);
    }
    RangesOfParts(lines, Counts(wrapped), 0, |Split(text)|);
  }
}
