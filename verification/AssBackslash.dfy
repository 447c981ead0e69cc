/** A caption whose emphasized states show the text of an override block. */
module AssBackslash {
  import opened AssBody
  import opened AssDocument
  import opened AssEmphasis
  import opened AssEscape
  import opened AssLines
  import opened AssTheorems
  import opened Bidi
  import opened CaptionTiming
  import opened CaptionWrap
  import opened Sequences
  import opened Texts
  import opened Wrappers

  /** The characters of a text, shown as they are. */
  function Literal(text: string): seq<Glyph> { MapSeq(text, (c: char) => Shown(c)) }

  lemma LiteralConcat(a: string, b: string)
    ensures Literal(a + b) == Literal(a) + Literal(b)
  {
  }

  lemma LiteralIsPlain(text: string)
    ensures Plain(Literal(text)) == Literal(text)
  {
    PlainKeeps(Literal(text));
  }

  lemma {:induction false} LiteralReads(text: string)
    requires '\\' !in text && '{' !in text
    ensures Read(text) == Literal(text)
  {
    if text != [] {
      assert text[0] in text && text == [text[0]] + text[1..];
      LiteralReads(text[1..]);
      ReadPlain(text[0], text[1..]);
      LiteralConcat([text[0]], text[1..]);
    }
  }

  /** Behind its brace the restoring block is text like any other. */
  lemma TailReads(primary: string)
    requires Braceless(primary) && '\\' !in primary
    ensures Read(Tail(primary)) == Literal(Tail(primary))
  {
    var rest := "c" + primary + "&" + "}";
    assert Tail(primary) == "\\" + rest && rest[0] == 'c';
    LiteralReads(rest);
    ReadLoneBackslash(rest);
    LiteralConcat("\\", rest);
  }

  lemma LoneBackslashEnds()
    ensures EndsInBackslash("\\") && TrailingBackslash("\\")
  {
    assert "\\"[1..] == [];
  }

  /** The backslash takes the brace of the restoring block: the block itself is shown, and the backslash is not. */
  lemma BackslashTokenShowsItsBlock(color: string, primary: string)
    requires Braceless(color) && Braceless(primary) && '\\' !in primary
    ensures Read(ColoredToken("\\", color, primary)) == [Override(Color(color))] + Literal(Block(Color(primary)))
    ensures ShownToken("\\", color, primary) == Literal(Block(Color(primary)))
  {
    var token := "\\";
    LoneBackslashEnds();
    BlockIsItsTail(primary);
    assert Read([]) == [];
    hide Read, ColoredToken, Escaped, Tail, Block, Color, Literal, Braceless;
    SpoiledReads(token, color, primary, []);
    assert ColoredToken(token, color, primary) + [] == ColoredToken(token, color, primary);
    TrailingTakes(token, Tail(primary));
    TailReads(primary);
    PlainBehindOverride(Color(color), Block(Color(primary)));
  }

  lemma BlockIsItsTail(primary: string)
    ensures Literal(Block(Color(primary))) == [Shown('{')] + Literal(Tail(primary))
  {
    assert Block(Color(primary)) == "{" + Tail(primary);
    LiteralConcat("{", Tail(primary));
  }

  lemma PlainBehindOverride(body: string, text: string)
    ensures Plain([Override(body)] + Literal(text)) == Literal(text)
  {
    LiteralIsPlain(text);
    FlatMapConcat([Override(body)], Literal(text), PlainOne);
    FlatMapOne(Override(body), PlainOne);
  }

  lemma LetterReadsBack()
    ensures ReadBack("a") == Literal("a") && ReadBack("\\") == Literal("\\") && !EndsInBackslash("a")
  {
    LoneBackslashEnds();
    TrailingReads("\\");
    assert "a"[1..] == [] && ReadBack([]) == [];
  }

  // ---- an event ------------------------------------------------------------------------------------

  /** Two seconds of two words, the second of them a backslash. */
  function BackslashEvent(layout: Layout): Draft {
    Draft(0, 0, 0.0, 2.0, "a \\", WrappedLines("a \\", layout), false,
          [Timing(0, "a", 0.0, 1.0), Timing(1, "\\", 1.0, 2.0)])
  }

  lemma BackslashEventTokens()
    ensures Split("a \\") == ["a", "\\"]
  {
    assert "a \\" == "a" + " " + "\\";
    SplitAtSpace("a", "\\");
    SplitSpaceless("\\");
  }

  lemma BackslashEventEmphasizes(style: Style, cls: Classes, layout: Layout)
    requires style.emphasis && !AnyRtl("a \\", cls)
    ensures Emphasizes(BackslashEvent(layout), style, cls)
  {
    assert "a \\"[1] == ' ' && ' ' in "a \\";
    EmphasisSafeIff("a \\", cls);
    BackslashEventTokens();
  }

  /** On one line, that is both tokens in order. */
  lemma OneLineOfBoth(layout: Layout)
    requires WrappedLines("a \\", layout) == ["a \\"]
    ensures LineTokens("a \\", ["a \\"]) == [[0, 1]]
  {
    var lines := WrapIndexes("a \\", layout);
    TokenLinesRecoverWrapping("a \\", layout);
    WrappedLinesAreJoins("a \\", layout);
    WrapIsGood("a \\", layout);
    BackslashEventTokens();
    hide Split;
    assert |lines| == 1 && Flatten(lines) == Range(0, 2);
    assert lines == [lines[0]] && Flatten(lines) == lines[0];
    assert Range(0, 2) == [0, 1];
  }

  lemma TwoSpaced(a: seq<Glyph>, b: seq<Glyph>)
    ensures Spaced([a, b]) == a + [Shown(' ')] + b && Broken([Spaced([a, b])]) == a + [Shown(' ')] + b
  {
    assert [a, b][1..] == [b];
  }

  lemma LiteralSpaced(a: string, b: string)
    ensures Literal(a) + [Shown(' ')] + Literal(b) == Literal(a + " " + b)
  {
  }

  lemma PairGlyphs(a: string, b: string)
    ensures LineGlyphs([[a, b]]) == [Spaced([ReadBack(a), ReadBack(b)])]
  {
    hide ReadBack, Spaced;
    assert ReadEach([a, b]) == [ReadBack(a), ReadBack(b)];
    assert LineGlyphs([[a, b]]) == [Spaced(ReadEach([a, b]))];
  }

  lemma StaticPairShows(upper: bool, a: string, b: string)
    ensures Plain(Read(StaticBody(upper, [[a, b]]))) == ReadBack(a) + [Shown(' ')] + ReadBack(b)
  {
    assert Nonempty([[a, b]]);
    hide *;
    StaticIsPlain(upper, [[a, b]]);
    PairGlyphs(a, b);
    TwoSpaced(ReadBack(a), ReadBack(b));
  }

  lemma ActivePairShows(upper: bool, a: string, b: string, i: nat, colors: Colors)
    requires BracelessColors(colors)
    ensures Plain(Read(ActiveBody(upper, [a, b], [[0, 1]], i, colors)))
         == ShownToken(a, ColorOf(0, i, colors), colors.primary) + [Shown(' ')]
            + ShownToken(b, ColorOf(1, i, colors), colors.primary)
  {
    var tokens: seq<string>, line: seq<nat> := [a, b], [0, 1];
    BodyShows(upper, tokens, [line], i, colors);
    hide Plain, Read, ActiveBody, ShownToken, Spaced, Broken, ColorOf;
    assert ShownLines(tokens, [line], i, colors) == [ShownLine(tokens, line, i, colors)];
    assert ShownParts(tokens, line, i, colors)
        == [ShownToken(a, ColorOf(0, i, colors), colors.primary), ShownToken(b, ColorOf(1, i, colors), colors.primary)];
    TwoSpaced(ShownToken(a, ColorOf(0, i, colors), colors.primary), ShownToken(b, ColorOf(1, i, colors), colors.primary));
  }

  lemma StaticShowsTheText(upper: bool)
    ensures Plain(Read(StaticBody(upper, [["a", "\\"]]))) == Literal("a" + " " + "\\")
  {
    LetterReadsBack();
    hide *;
    StaticPairShows(upper, "a", "\\");
    LiteralSpaced("a", "\\");
  }

  lemma StateShowsTheBlock(upper: bool, colors: Colors, i: nat)
    requires BracelessColors(colors) && '\\' !in colors.primary
    ensures Plain(Read(ActiveBody(upper, ["a", "\\"], [[0, 1]], i, colors)))
         == Literal("a" + " " + Block(Color(colors.primary)))
  {
    var active, other := ColorOf(0, i, colors), ColorOf(1, i, colors);
    assert Braceless(active) && Braceless(other) && Braceless(colors.primary);
    hide *;
    ActivePairShows(upper, "a", "\\", i, colors);
    LetterReadsBack();
    TokenShows("a", active, colors.primary);
    BackslashTokenShowsItsBlock(other, colors.primary);
    LiteralSpaced("a", Block(Color(colors.primary)));
  }

  /**
   On one line, the static state of the event shows its text; each of its word states shows, instead of
   the backslash, the block that was to restore the color.
   */
  lemma BackslashEventShowsItsBlock(style: Style, cls: Classes, layout: Layout, i: nat)
    requires style.emphasis && !AnyRtl("a \\", cls) && WrappedLines("a \\", layout) == ["a \\"] && i < 2
    requires BracelessColors(style.colors) && '\\' !in style.colors.primary
    ensures var e := BackslashEvent(layout);
      && |States(e, style, cls)| == 2
      && States(e, style, cls)[i].text == TextFor(e, style.colors, Some(i))
      && Plain(Read(TextFor(e, style.colors, None))) == Literal("a" + " " + "\\")
      && Plain(Read(States(e, style, cls)[i].text)) == Literal("a" + " " + Block(Color(style.colors.primary)))
  {
    var e := BackslashEvent(layout);
    BackslashEventEmphasizes(style, cls, layout);
    BackslashEventTokens();
    EventBodies(layout, style.colors, i);
    EventStates(e, style, cls, i);
    hide *;
    StaticShowsTheText(false);
    StateShowsTheBlock(false, style.colors, i);
  }

  lemma EventStates(e: Draft, style: Style, cls: Classes, i: nat)
    requires Emphasizes(e, style, cls) && i < |e.words|
    ensures |States(e, style, cls)| == |e.words| && States(e, style, cls)[i].text == TextFor(e, style.colors, Some(i))
  {
  }

  lemma EventBodies(layout: Layout, colors: Colors, i: nat)
    requires WrappedLines("a \\", layout) == ["a \\"]
    ensures TextFor(BackslashEvent(layout), colors, None) == StaticBody(false, [["a", "\\"]])
    ensures TextFor(BackslashEvent(layout), colors, Some(i)) == ActiveBody(false, ["a", "\\"], [[0, 1]], i, colors)
  {
    var e := BackslashEvent(layout);
    OneLineOfBoth(layout);
    BackslashEventTokens();
    hide ActiveBody, StaticBody, TextFor, Split, LineTokens, WrappedLines;
    TextForBodies(e, colors);
    assert PickEach(["a", "\\"], [[0, 1]]) == [["a", "\\"]] by {
      hide *;
      PickPair("a", "\\");
    }
  }

  lemma PickPair(a: string, b: string)
    ensures PickEach([a, b], [[0, 1]]) == [[a, b]]
  {
    var line: seq<nat> := [0, 1];
    assert Pick([a, b], line) == [a, b];
    assert PickEach([a, b], [line]) == [Pick([a, b], line)];
  }
}
