/** What an emphasized dialogue text shows, whatever its tokens end in. */
module AssEmphasis {
  import opened AssBody
  import opened AssEscape
  import opened CaptionWrap
  import opened Sequences
  import opened Texts

  // ---- a token behind whose backslash a block follows --------------------------------------------

  /** One glyph is read off the front of both texts. */
  lemma FrontSplits(read: string -> seq<Glyph>, front: string, glyph: Glyph, tail: string, rest: string)
    requires read(tail + rest) == read(tail) + read(rest)
    requires read(front + tail) == [glyph] + read(tail) && read(front + (tail + rest)) == [glyph] + read(tail + rest)
    ensures read((front + tail) + rest) == read(front + tail) + read(rest)
  {
    assert (front + tail) + rest == front + (tail + rest);
    Chain(read(front + (tail + rest)), [glyph], read(tail + rest), read(tail), read(rest));
  }

  lemma PairSplits(c: char, tail: string, rest: string)
    requires (IsTag(c) || IsBrace(c)) && Read(tail + rest) == Read(tail) + Read(rest)
    ensures Read((['\\', c] + tail) + rest) == Read(['\\', c] + tail) + Read(rest)
  {
    ReadPair(c, tail);
    ReadPair(c, tail + rest);
    FrontSplits(Read, ['\\', c], if IsTag(c) then TagGlyph(c) else Shown(c), tail, rest);
  }

  lemma SingleSplits(c: char, tail: string, rest: string)
    requires c != '{' && Read(tail + rest) == Read(tail) + Read(rest)
    requires c == '\\' ==> tail != [] && SafeAfter(tail)
    ensures Read(([c] + tail) + rest) == Read([c] + tail) + Read(rest)
  {
    if c == '\\' {
      assert SafeAfter(tail + rest);
      ReadLoneBackslash(tail);
      ReadLoneBackslash(tail + rest);
    } else {
      ReadPlain(c, tail);
      ReadPlain(c, tail + rest);
    }
    FrontSplits(Read, [c], Shown(c), tail, rest);
  }

  /** Text without an opening brace is read on its own, unless its last backslash looks on. */
  lemma {:induction false} ReadSplits(text: string, rest: string)
    requires '{' !in text && (text != [] ==> text[|text| - 1] != '\\')
    ensures Read(text + rest) == Read(text) + Read(rest)
    decreases |text|
  {
    if text == [] {
      assert text + rest == rest;
    } else if text[0] == '\\' && (IsTag(text[1]) || IsBrace(text[1])) {
      ReadSplits(text[2..], rest);
      PairSplits(text[1], text[2..], rest);
      assert text == ['\\', text[1]] + text[2..];
    } else {
      assert text[0] in text;
      ReadSplits(text[1..], rest);
      SingleSplits(text[0], text[1..], rest);
      assert text == [text[0]] + text[1..];
    }
  }

  lemma TrailingReads(text: string)
    requires TrailingBackslash(text)
    ensures Escaped(text) == "\\" && ReadBack(text) == [Shown('\\')]
  {
    EscapedHead(text[1..]);
    assert text[1..] != [] ==> text[1..][0] == text[1];
    DroppedReadBack(text[1..]);
  }

  lemma {:induction false} DroppedReadBack(text: string)
    requires FirstKept(text) == []
    ensures ReadBack(text) == []
  {
    if text != [] {
      DroppedReadBack(text[1..]);
    }
  }

  lemma TrailingTakes(text: string, tail: string)
    requires TrailingBackslash(text)
    ensures Read(Escaped(text) + ("{" + tail)) == [Shown('{')] + Read(tail)
  {
    TrailingReads(text);
    assert Escaped(text) + ("{" + tail) == ['\\', '{'] + tail;
    ReadPair('{', tail);
  }

  /** A block taken by a trailing backslash shows as many glyphs as its own text, besides the token's. */
  lemma {:induction false} BackslashSize(text: string, tail: string)
    requires EndsInBackslash(text)
    ensures |Read(Escaped(text) + ("{" + tail))| == |ReadBack(text)| + |Read(tail)|
    decreases |text|
  {
    if TrailingBackslash(text) {
      TrailingReads(text);
      TrailingTakes(text, tail);
    } else {
      ReadStep(text, "{" + tail);
      StepEnds(text);
      BackslashSize(StepRest(text), tail);
    }
  }

  lemma {:induction false} BackslashSplits(text: string, tail: string, rest: string)
    requires EndsInBackslash(text) && '{' !in tail && tail != [] && tail[|tail| - 1] != '\\'
    ensures Read(Escaped(text) + ("{" + (tail + rest))) == Read(Escaped(text) + ("{" + tail)) + Read(rest)
    decreases |text|
  {
    if TrailingBackslash(text) {
      TrailingTakes(text, tail);
      TrailingTakes(text, tail + rest);
      ReadSplits(tail, rest);
      Chain(Read(Escaped(text) + ("{" + (tail + rest))), [Shown('{')], Read(tail + rest), Read(tail), Read(rest));
    } else {
      var next := Escaped(StepRest(text));
      ReadStep(text, "{" + tail);
      ReadStep(text, "{" + (tail + rest));
      StepEnds(text);
      BackslashSplits(StepRest(text), tail, rest);
      Chain(Read(Escaped(text) + ("{" + (tail + rest))), StepGlyphs(text), Read(next + ("{" + (tail + rest))),
            Read(next + ("{" + tail)), Read(rest));
    }
  }

  lemma {:induction false} CountsNoOverride(glyphs: seq<Glyph>)
    requires Overrides(glyphs) == 0
    ensures Plain(glyphs) == glyphs
  {
    if glyphs != [] {
      CountsNoOverride(glyphs[1..]);
    }
  }

  // ---- colored tokens ------------------------------------------------------------------------------

  /** The text of the restoring block, from behind its brace. */
  function Tail(primary: string): string { Color(primary) + "}" }

  lemma TailIsPlain(primary: string)
    requires Braceless(primary)
    ensures '{' !in Tail(primary) && Tail(primary) != [] && Tail(primary)[|Tail(primary)| - 1] == '}'
  {
  }

  lemma SpoiledReads(token: string, color: string, primary: string, rest: string)
    requires Braceless(color) && Braceless(primary) && EndsInBackslash(token)
    ensures Read(ColoredToken(token, color, primary) + rest)
         == [Override(Color(color))] + Read(Escaped(token) + ("{" + Tail(primary))) + Read(rest)
  {
    TailIsPlain(primary);
    var inner := Escaped(token) + ("{" + (Tail(primary) + rest));
    ColoredSplits(token, color, primary);
    assert ColoredToken(token, color, primary) + rest == Block(Color(color)) + inner;
    ReadBlock(Color(color), inner);
    BackslashSplits(token, Tail(primary), rest);
  }

  /** A colored token is read on its own, whatever it ends in. */
  lemma ColoredReadsAlone(token: string, color: string, primary: string)
    requires Braceless(color) && Braceless(primary)
    ensures Composes(ColoredToken(token, color, primary), Read(ColoredToken(token, color, primary)))
  {
    if EndsInBackslash(token) {
      SpoiledReads(token, color, primary, []);
      assert ColoredToken(token, color, primary) + [] == ColoredToken(token, color, primary);
      var glyphs := [Override(Color(color))] + Read(Escaped(token) + ("{" + Tail(primary)));
      assert Read(ColoredToken(token, color, primary)) == glyphs + Read([]) == glyphs;
      forall rest: string | SafeAfter(rest) ensures ReadsAs(ColoredToken(token, color, primary), glyphs, rest) {
        SpoiledReads(token, color, primary, rest);
      }
    } else {
      ColoredComposes(token, color, primary);
      ReadAlone(ColoredToken(token, color, primary), ColoredGlyphs(token, color, primary));
    }
  }

  /** What a colored token shows: the token itself, or more than it. */
  function ShownToken(token: string, color: string, primary: string): seq<Glyph> {
    Plain(Read(ColoredToken(token, color, primary)))
  }

  lemma SpoiledShowsMore(token: string, color: string, primary: string)
    requires Braceless(color) && Braceless(primary) && EndsInBackslash(token)
    ensures |ShownToken(token, color, primary)| > |ReadBack(token)|
  {
    TailIsPlain(primary);
    var glyphs := Read(Escaped(token) + ("{" + Tail(primary)));
    SpoiledReads(token, color, primary, []);
    assert ColoredToken(token, color, primary) + [] == ColoredToken(token, color, primary);
    assert Read(ColoredToken(token, color, primary)) == [Override(Color(color))] + glyphs;
    FlatMapConcat([Override(Color(color))], glyphs, PlainOne);
    FlatMapOne(Override(Color(color)), PlainOne);
    BackslashTakesBrace(token, Tail(primary));
    CountsNoOverride(glyphs);
    BackslashSize(token, Tail(primary));
  }

  lemma TokenShows(token: string, color: string, primary: string)
    requires Braceless(color) && Braceless(primary)
    ensures !EndsInBackslash(token) ==> ShownToken(token, color, primary) == ReadBack(token)
    ensures EndsInBackslash(token) ==> |ShownToken(token, color, primary)| > |ReadBack(token)|
  {
    if EndsInBackslash(token) {
      SpoiledShowsMore(token, color, primary);
    } else {
      ColoredTokenReadsIff(token, color, primary);
      PlainColored(token, color, primary);
    }
  }

  // ---- comparing what is shown --------------------------------------------------------------------

  /** Part by part, `more` is `fewer` or longer. */
  ghost predicate Outgrows(more: seq<seq<Glyph>>, fewer: seq<seq<Glyph>>) {
    |more| == |fewer| && forall k | 0 <= k < |more| :: more[k] == fewer[k] || |more[k]| > |fewer[k]|
  }

  lemma {:induction false} SpacedOutgrows(more: seq<seq<Glyph>>, fewer: seq<seq<Glyph>>)
    requires Outgrows(more, fewer)
    ensures if more == fewer then Spaced(more) == Spaced(fewer) else |Spaced(more)| > |Spaced(fewer)|
    decreases |more|
  {
    if |more| > 1 {
      SpacedOutgrows(more[1..], fewer[1..]);
      assert more == [more[0]] + more[1..] && fewer == [fewer[0]] + fewer[1..];
    }
  }

  lemma {:induction false} BrokenOutgrows(more: seq<seq<Glyph>>, fewer: seq<seq<Glyph>>)
    requires Outgrows(more, fewer)
    ensures if more == fewer then Broken(more) == Broken(fewer) else |Broken(more)| > |Broken(fewer)|
    decreases |more|
  {
    if |more| > 1 {
      BrokenOutgrows(more[1..], fewer[1..]);
      assert more == [more[0]] + more[1..] && fewer == [fewer[0]] + fewer[1..];
    }
  }

  // ---- lines and bodies ----------------------------------------------------------------------------

  function ReadParts(tokens: seq<string>, line: seq<nat>, active: nat, colors: Colors): seq<seq<Glyph>> {
    MapSeq(line, (i: nat) => Read(ColoredToken(TokenAt(tokens, i), ColorOf(i, active, colors), colors.primary)))
  }

  function ShownParts(tokens: seq<string>, line: seq<nat>, active: nat, colors: Colors): seq<seq<Glyph>> {
    MapSeq(line, (i: nat) => ShownToken(TokenAt(tokens, i), ColorOf(i, active, colors), colors.primary))
  }

  ghost predicate BracelessColors(colors: Colors) { Braceless(colors.primary) && Braceless(colors.active) }

  lemma LineReads(tokens: seq<string>, line: seq<nat>, active: nat, colors: Colors)
    requires BracelessColors(colors) && line != []
    ensures Composes(Join(ColoredLine(tokens, line, active, colors), " "), Spaced(ReadParts(tokens, line, active, colors)))
  {
    forall k | 0 <= k < |line|
      ensures Composes(ColoredLine(tokens, line, active, colors)[k], ReadParts(tokens, line, active, colors)[k])
    {
      ColoredReadsAlone(TokenAt(tokens, line[k]), ColorOf(line[k], active, colors), colors.primary);
    }
    LineComposes(ColoredLine(tokens, line, active, colors), ReadParts(tokens, line, active, colors));
  }

  /** What a line shows, its override blocks left out. */
  function ShownLine(tokens: seq<string>, line: seq<nat>, active: nat, colors: Colors): seq<Glyph> {
    Spaced(ShownParts(tokens, line, active, colors))
  }

  function ShownLines(tokens: seq<string>, lines: seq<seq<nat>>, active: nat, colors: Colors): seq<seq<Glyph>> {
    MapSeq(lines, (line: seq<nat>) => ShownLine(tokens, line, active, colors))
  }

  function SpacedParts(tokens: seq<string>, lines: seq<seq<nat>>, active: nat, colors: Colors): seq<seq<Glyph>> {
    MapSeq(lines, (line: seq<nat>) => Spaced(ReadParts(tokens, line, active, colors)))
  }

  /** An emphasized body reads as its placement override and its colored tokens, line by line. */
  lemma BodyReads(upper: bool, tokens: seq<string>, lines: seq<seq<nat>>, active: nat, colors: Colors)
    requires BracelessColors(colors) && lines != [] && forall l <- lines :: l != []
    ensures Read(ActiveBody(upper, tokens, lines, active, colors))
         == [Override(if upper then "\\an8" else "\\an2")] + Broken(SpacedParts(tokens, lines, active, colors))
  {
    var texts, parts := ActiveTexts(tokens, lines, active, colors), SpacedParts(tokens, lines, active, colors);
    forall i | 0 <= i < |lines| ensures Composes(texts[i], parts[i]) {
      assert lines[i] in lines;
      LineReads(tokens, lines[i], active, colors);
    }
    LinesCompose(texts, parts);
    ReadAlone(Join(texts, "\\N"), Broken(parts));
    ReadBlock(Placement(upper), Join(texts, "\\N"));
  }

  lemma BodyShows(upper: bool, tokens: seq<string>, lines: seq<seq<nat>>, active: nat, colors: Colors)
    requires BracelessColors(colors) && lines != [] && forall l <- lines :: l != []
    ensures Plain(Read(ActiveBody(upper, tokens, lines, active, colors))) == Broken(ShownLines(tokens, lines, active, colors))
  {
    var parts := SpacedParts(tokens, lines, active, colors);
    BodyReads(upper, tokens, lines, active, colors);
    PlainWithPlacement(upper, Broken(parts));
    PlainBroken(parts);
    forall i | 0 <= i < |lines| ensures PlainEach(parts)[i] == ShownLines(tokens, lines, active, colors)[i] {
      PartsShow(tokens, lines[i], active, colors);
    }
    assert PlainEach(parts) == ShownLines(tokens, lines, active, colors);
  }

  lemma PlainWithPlacement(upper: bool, glyphs: seq<Glyph>)
    ensures Plain([Override(Placement(upper))] + glyphs) == Plain(glyphs)
  {
    FlatMapConcat([Override(Placement(upper))], glyphs, PlainOne);
    FlatMapOne(Override(Placement(upper)), PlainOne);
  }

  lemma PartsShow(tokens: seq<string>, line: seq<nat>, active: nat, colors: Colors)
    ensures Plain(Spaced(ReadParts(tokens, line, active, colors))) == ShownLine(tokens, line, active, colors)
  {
    PlainSpaced(ReadParts(tokens, line, active, colors));
    assert PlainEach(ReadParts(tokens, line, active, colors)) == ShownParts(tokens, line, active, colors);
  }

  ghost predicate BackslashFree(tokens: seq<string>, line: seq<nat>) {
    forall i <- line :: !EndsInBackslash(TokenAt(tokens, i))
  }

  lemma LineOutgrows(tokens: seq<string>, line: seq<nat>, active: nat, colors: Colors)
    requires BracelessColors(colors)
    ensures var shown, plain := ShownLine(tokens, line, active, colors), Spaced(ReadEach(Pick(tokens, line)));
      if BackslashFree(tokens, line) then shown == plain else |shown| > |plain|
  {
    var more, fewer := ShownParts(tokens, line, active, colors), ReadEach(Pick(tokens, line));
    forall k | 0 <= k < |line|
      ensures if EndsInBackslash(TokenAt(tokens, line[k])) then |more[k]| > |fewer[k]| else more[k] == fewer[k]
    {
      TokenShows(TokenAt(tokens, line[k]), ColorOf(line[k], active, colors), colors.primary);
    }
    SpacedOutgrows(more, fewer);
    if BackslashFree(tokens, line) {
      assert more == fewer;
    } else {
      var i :| i in line && EndsInBackslash(TokenAt(tokens, i));
      var k :| 0 <= k < |line| && line[k] == i;
      assert more[k] != fewer[k];
    }
  }

  /**
   Override blocks left out, an emphasized body shows the lines of the static one exactly when none of
   their tokens ends in a backslash.
   */
  lemma ActiveBodyShowsStaticIff(upper: bool, tokens: seq<string>, lines: seq<seq<nat>>, active: nat, colors: Colors)
    requires BracelessColors(colors) && lines != [] && forall l <- lines :: l != []
    ensures Plain(Read(ActiveBody(upper, tokens, lines, active, colors))) == Broken(LineGlyphs(PickEach(tokens, lines)))
            <==> forall l <- lines :: BackslashFree(tokens, l)
  {
    hide ActiveBody;
    var more, fewer := ShownLines(tokens, lines, active, colors), LineGlyphs(PickEach(tokens, lines));
    BodyShows(upper, tokens, lines, active, colors);
    forall k | 0 <= k < |lines|
      ensures if BackslashFree(tokens, lines[k]) then more[k] == fewer[k] else |more[k]| > |fewer[k]|
    {
      LineOutgrows(tokens, lines[k], active, colors);
    }
    BrokenOutgrows(more, fewer);
    if forall l <- lines :: BackslashFree(tokens, l) {
      assert more == fewer;
    } else {
      var l :| l in lines && !BackslashFree(tokens, l);
      var k :| 0 <= k < |lines| && lines[k] == l;
      assert more[k] != fewer[k];
    }
  }
}
