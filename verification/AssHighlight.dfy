/** Which word of a caption is highlighted, and when: every glyph with the color in effect where it stands. */
module AssHighlight {
  import opened AssBody
  import opened AssDocument
  import opened AssEmphasis
  import opened AssEscape
  import opened AssLines
  import opened AssTheorems
  import opened Bidi
  import opened CaptionTiming
  import opened CaptionWrap
  import opened Sequences
  import opened Texts
  import opened Wrappers

  /** A glyph under the override in effect. */
  datatype Painted = Painted(glyph: Glyph, under: string)

  /** The glyphs shown, each under the last override before it; `under` is in effect at first. */
  function Paint(glyphs: seq<Glyph>, under: string): seq<Painted> {
    if glyphs == [] then []
    else if glyphs[0].Override? then Paint(glyphs[1..], glyphs[0].body)
    else [Painted(glyphs[0], under)] + Paint(glyphs[1..], under)
  }

  /** The override in effect behind the glyphs. */
  function After(glyphs: seq<Glyph>, under: string): string {
    if glyphs == [] then under else After(glyphs[1..], if glyphs[0].Override? then glyphs[0].body else under)
  }

  lemma {:induction false} PaintConcat(a: seq<Glyph>, b: seq<Glyph>, under: string)
    ensures Paint(a + b, under) == Paint(a, under) + Paint(b, After(a, under))
    ensures After(a + b, under) == After(b, After(a, under))
  {
    if a == [] {
      assert a + b == b;
    } else {
      hide Paint, After;
      var g, rest := a[0], a[1..];
      assert a == [g] + rest && a + b == [g] + (rest + b);
      PaintHead(g, rest, under);
      PaintHead(g, rest + b, under);
      if g.Override? {
        PaintConcat(rest, b, g.body);
      } else {
        PaintConcat(rest, b, under);
        OneMore(Painted(g, under), Paint(rest, under), Paint(b, After(rest, under)));
      }
    }
  }

  lemma OneMore(p: Painted, a: seq<Painted>, b: seq<Painted>)
    ensures [p] + (a + b) == ([p] + a) + b
  {
  }

  lemma PaintHead(g: Glyph, rest: seq<Glyph>, under: string)
    ensures Paint([g] + rest, under)
         == if g.Override? then Paint(rest, g.body) else [Painted(g, under)] + Paint(rest, under)
    ensures After([g] + rest, under) == After(rest, if g.Override? then g.body else under)
  {
    assert ([g] + rest)[1..] == rest;
  }

  lemma PaintOne(g: Glyph, under: string)
    ensures Paint([g], under) == (if g.Override? then [] else [Painted(g, under)])
    ensures After([g], under) == if g.Override? then g.body else under
  {
    assert [g][1..] == [];
  }

  /** All glyphs under one override. */
  function Under(glyphs: seq<Glyph>, body: string): seq<Painted> { MapSeq(glyphs, (g: Glyph) => Painted(g, body)) }

  lemma {:induction false} PaintPlain(glyphs: seq<Glyph>, under: string)
    requires forall g <- glyphs :: !g.Override?
    ensures Paint(glyphs, under) == Under(glyphs, under) && After(glyphs, under) == under
  {
    if glyphs != [] {
      assert glyphs[0] in glyphs && forall g <- glyphs[1..] :: g in glyphs;
      PaintPlain(glyphs[1..], under);
      assert Under(glyphs, under) == [Painted(glyphs[0], under)] + Under(glyphs[1..], under);
    }
  }

  // ---- tokens, lines and texts ---------------------------------------------------------------------------

  /** The override that sets a color. */
  function Sets(color: string): string { "\\c" + color + "&" }

  /** Token `k` when word `spoken` is: in the active color exactly if it is that word, else in the primary one. */
  function TokenPainted(tokens: seq<string>, k: nat, spoken: nat, colors: Colors): seq<Painted> {
    Under(ReadBack(TokenAt(tokens, k)), if k == spoken then Sets(colors.active) else Sets(colors.primary))
  }

  /** The tokens of a line, with spaces in the primary color. */
  function LinePainted(tokens: seq<string>, line: seq<nat>, spoken: nat, colors: Colors): seq<Painted> {
    if line == [] then []
    else if |line| == 1 then TokenPainted(tokens, line[0], spoken, colors)
    else TokenPainted(tokens, line[0], spoken, colors) + [Painted(Shown(' '), Sets(colors.primary))]
           + LinePainted(tokens, line[1..], spoken, colors)
  }

  /** The lines, with breaks in the primary color. */
  function LinesPainted(tokens: seq<string>, lines: seq<seq<nat>>, spoken: nat, colors: Colors): seq<Painted> {
    if lines == [] then []
    else if |lines| == 1 then LinePainted(tokens, lines[0], spoken, colors)
    else LinePainted(tokens, lines[0], spoken, colors) + [Painted(LineBreak, Sets(colors.primary))]
           + LinesPainted(tokens, lines[1..], spoken, colors)
  }

  ghost predicate NoneEndsInBackslash(tokens: seq<string>) { forall t <- tokens :: !EndsInBackslash(t) }

  lemma PaintToken(tokens: seq<string>, k: nat, spoken: nat, colors: Colors, under: string)
    requires BracelessColors(colors) && !EndsInBackslash(TokenAt(tokens, k))
    ensures var glyphs := Read(ColoredToken(TokenAt(tokens, k), ColorOf(k, spoken, colors), colors.primary));
      Paint(glyphs, under) == TokenPainted(tokens, k, spoken, colors) && After(glyphs, under) == Sets(colors.primary)
  {
    var token, color := TokenAt(tokens, k), ColorOf(k, spoken, colors);
    assert Braceless(color) && Color(color) == if k == spoken then Sets(colors.active) else Sets(colors.primary);
    assert Color(colors.primary) == Sets(colors.primary);
    hide *;
    ColoredTokenReadsIff(token, color, colors.primary);
    PaintColored(token, color, colors.primary, under);
    TokenPaintedIs(tokens, k, spoken, colors);
  }

  lemma TokenPaintedIs(tokens: seq<string>, k: nat, spoken: nat, colors: Colors)
    ensures TokenPainted(tokens, k, spoken, colors)
         == Under(ReadBack(TokenAt(tokens, k)), if k == spoken then Sets(colors.active) else Sets(colors.primary))
  {
    hide Under, ReadBack, Sets, TokenAt;
  }

  lemma PaintColored(token: string, color: string, primary: string, under: string)
    ensures Paint(ColoredGlyphs(token, color, primary), under) == Under(ReadBack(token), Color(color))
    ensures After(ColoredGlyphs(token, color, primary), under) == Color(primary)
  {
    var open, shut := [Override(Color(color))], [Override(Color(primary))];
    ReadBackHasNoOverride(token);
    hide ReadBack, Color, Under;
    PaintConcat(open + ReadBack(token), shut, under);
    PaintConcat(open, ReadBack(token), under);
    PaintOne(Override(Color(color)), under);
    PaintPlain(ReadBack(token), Color(color));
    PaintOne(Override(Color(primary)), Color(color));
  }

  ghost predicate LineFree(tokens: seq<string>, line: seq<nat>) { forall k <- line :: !EndsInBackslash(TokenAt(tokens, k)) }

  lemma {:induction false} PaintLine(tokens: seq<string>, line: seq<nat>, spoken: nat, colors: Colors, under: string)
    requires BracelessColors(colors) && line != [] && LineFree(tokens, line)
    ensures var glyphs := Spaced(ReadParts(tokens, line, spoken, colors));
      Paint(glyphs, under) == LinePainted(tokens, line, spoken, colors) && After(glyphs, under) == Sets(colors.primary)
  {
    var parts := ReadParts(tokens, line, spoken, colors);
    assert line[0] in line && forall k <- line[1..] :: k in line;
    PaintToken(tokens, line[0], spoken, colors, under);
    if |line| > 1 {
      PaintLine(tokens, line[1..], spoken, colors, Sets(colors.primary));
      assert parts[1..] == ReadParts(tokens, line[1..], spoken, colors);
      hide Read, Sets, TokenPainted, ReadParts, Paint, After, ColoredToken, ColorOf;
      PaintJoined(parts[0], Shown(' '), Spaced(parts[1..]), under, Sets(colors.primary));
    }
  }

  /** Two stretches and a glyph between them, the first one ending under `middle`. */
  lemma PaintJoined(a: seq<Glyph>, g: Glyph, b: seq<Glyph>, under: string, middle: string)
    requires !g.Override? && After(a, under) == middle
    ensures Paint(a + [g] + b, under) == Paint(a, under) + [Painted(g, middle)] + Paint(b, middle)
    ensures After(a + [g] + b, under) == After(b, middle)
  {
    PaintConcat(a + [g], b, under);
    PaintConcat(a, [g], under);
    PaintOne(g, middle);
  }

  lemma {:induction false} PaintLines(tokens: seq<string>, lines: seq<seq<nat>>, spoken: nat, colors: Colors, under: string)
    requires BracelessColors(colors) && lines != [] && forall l <- lines :: l != [] && LineFree(tokens, l)
    ensures var glyphs := Broken(SpacedParts(tokens, lines, spoken, colors));
      Paint(glyphs, under) == LinesPainted(tokens, lines, spoken, colors) && After(glyphs, under) == Sets(colors.primary)
  {
    var parts := SpacedParts(tokens, lines, spoken, colors);
    assert lines[0] in lines && forall l <- lines[1..] :: l in lines;
    PaintLine(tokens, lines[0], spoken, colors, under);
    if |lines| > 1 {
      PaintLines(tokens, lines[1..], spoken, colors, Sets(colors.primary));
      assert parts[1..] == SpacedParts(tokens, lines[1..], spoken, colors);
      hide Sets, LinePainted, ReadParts, Spaced, Paint, After;
      PaintJoined(parts[0], LineBreak, Broken(parts[1..]), under, Sets(colors.primary));
    }
  }

  lemma BodyPainted(upper: bool, tokens: seq<string>, lines: seq<seq<nat>>, spoken: nat, colors: Colors)
    requires BracelessColors(colors) && lines != [] && forall l <- lines :: l != [] && LineFree(tokens, l)
    ensures Paint(Read(ActiveBody(upper, tokens, lines, spoken, colors)), "") == LinesPainted(tokens, lines, spoken, colors)
  {
    hide *;
    var glyphs, placement := Broken(SpacedParts(tokens, lines, spoken, colors)), if upper then "\\an8" else "\\an2";
    BodyReads(upper, tokens, lines, spoken, colors);
    PaintConcat([Override(placement)], glyphs, "");
    PaintOne(Override(placement), "");
    PaintLines(tokens, lines, spoken, colors, placement);
    assert [] + Paint(glyphs, placement) == Paint(glyphs, placement);
  }

  // ---- the states of an event ------------------------------------------------------------------------------

  lemma IndexesFree(text: string, layout: Layout)
    requires NoneEndsInBackslash(Split(text))
    ensures var lines := LineTokens(text, WrappedLines(text, layout));
      lines != [] && forall l <- lines :: l != [] && LineFree(Split(text), l)
  {
    var tokens, lines := Split(text), LineTokens(text, WrappedLines(text, layout));
    WrappedIndexesNonempty(text, layout);
    TokenLinesPartition(text, WrappedLines(text, layout));
    hide Split, LineTokens, WrappedLines;
    LinesBackslashFree(tokens, lines);
    forall l | l in lines ensures LineFree(tokens, l) {
      assert BackslashFree(tokens, l);
    }
  }

  /**
   While a word is spoken, from its start to the start of the next, the first one from the start and the
   last one to the end of the event, exactly that word is in the active color, and all else in the primary.
   */
  lemma SpokenWordIsHighlighted(e: Draft, style: Style, cls: Classes, layout: Layout, i: nat)
    requires Emphasizes(e, style, cls) && i < |e.words| && e.lines == WrappedLines(e.text, layout)
    requires BracelessColors(style.colors) && NoneEndsInBackslash(Split(e.text))
    ensures |States(e, style, cls)| == |e.words| == |Split(e.text)|
    ensures var state := States(e, style, cls)[i];
      && state.start == (if i == 0 then e.start else e.words[i].start)
      && state.end == (if i == |e.words| - 1 then e.end else e.words[i + 1].start)
      && Paint(Read(state.text), "") == LinesPainted(Split(e.text), LineTokens(e.text, e.lines), i, style.colors)
  {
    IndexesFree(e.text, layout);
    TextForBodies(e, style.colors);
    StateOfWord(e, style, cls, i);
    hide *;
    BodyPainted(e.upper, Split(e.text), LineTokens(e.text, e.lines), i, style.colors);
  }

  lemma StateOfWord(e: Draft, style: Style, cls: Classes, i: nat)
    requires Emphasizes(e, style, cls) && i < |e.words|
    ensures |States(e, style, cls)| == |e.words| == |Split(e.text)|
    ensures var state := States(e, style, cls)[i];
      && state.start == (if i == 0 then e.start else e.words[i].start)
      && state.end == (if i == |e.words| - 1 then e.end else e.words[i + 1].start)
      && state.text == TextFor(e, style.colors, Some(i))
  {
    hide TextFor, EmphasisSafe, Split;
  }

  /** The static state of an event is under no color at all. */
  lemma StaticHasNoColor(e: Draft, colors: Colors, layout: Layout)
    requires e.lines == WrappedLines(e.text, layout)
    ensures var glyphs := Read(TextFor(e, colors, None));
      Paint(glyphs, "") == Under(glyphs[1..], if e.upper then "\\an8" else "\\an2")
  {
    var lines := PickEach(Split(e.text), LineTokens(e.text, e.lines));
    WrappedEventLines(e.text, layout);
    TextForBodies(e, colors);
    StaticBodyReads(e.upper, lines);
    var rest, placement := Broken(LineGlyphs(lines)), if e.upper then "\\an8" else "\\an2";
    NoOverrides(lines);
    hide Split, LineTokens, LineGlyphs, Broken, Read, TextFor, StaticBody;
    PaintConcat([Override(placement)], rest, "");
    PaintOne(Override(placement), "");
    PaintPlain(rest, placement);
    assert ([Override(placement)] + rest)[1..] == rest;
  }

  lemma {:induction false} NoOverrides(lines: seq<seq<string>>)
    ensures forall g <- Broken(LineGlyphs(lines)) :: !g.Override?
  {
    if lines != [] {
      LineHasNoOverride(lines[0]);
      NoOverrides(lines[1..]);
      assert LineGlyphs(lines)[1..] == LineGlyphs(lines[1..]);
    }
  }

  lemma {:induction false} LineHasNoOverride(line: seq<string>)
    ensures forall g <- Spaced(ReadEach(line)) :: !g.Override?
  {
    if line != [] {
      ReadBackHasNoOverride(line[0]);
      LineHasNoOverride(line[1..]);
      assert ReadEach(line)[1..] == ReadEach(line[1..]);
    }
  }
}
