/** The text field of a dialogue: tokens on their lines, plain or with one word emphasized. */
module AssBody {
  import opened AssEscape
  import opened CaptionWrap
  import opened Sequences
  import opened Texts

  // ---- reading joined pieces -----------------------------------------------------------------

  /** A piece of dialogue text that reads as `glyphs`, whatever safe text follows it. */
  ghost predicate Composes(piece: string, glyphs: seq<Glyph>) {
    forall rest: string | SafeAfter(rest) :: ReadsAs(piece, glyphs, rest)
  }

  predicate ReadsAs(piece: string, glyphs: seq<Glyph>, rest: string) {
    Read(piece + rest) == glyphs + Read(rest)
  }

  /** Token glyphs with a space between them. */
  function Spaced(parts: seq<seq<Glyph>>): seq<Glyph> {
    if parts == [] then []
    else if |parts| == 1 then parts[0]
    else parts[0] + [Shown(' ')] + Spaced(parts[1..])
  }

  /** Line glyphs with a forced break between them. */
  function Broken(parts: seq<seq<Glyph>>): seq<Glyph> {
    if parts == [] then []
    else if |parts| == 1 then parts[0]
    else parts[0] + [LineBreak] + Broken(parts[1..])
  }

  lemma ReadAlone(piece: string, glyphs: seq<Glyph>)
    requires Composes(piece, glyphs)
    ensures Read(piece) == glyphs
  {
    assert ReadsAs(piece, glyphs, []);
    assert piece + [] == piece && glyphs + [] == glyphs;
  }

  lemma EscapedComposes(token: string)
    ensures Composes(Escaped(token), ReadBack(token))
  {
    forall rest: string | SafeAfter(rest) ensures ReadsAs(Escaped(token), ReadBack(token), rest) {
      ReadEscaped(token, rest);
    }
  }

  lemma Regroup(a: string, b: string, c: string, d: string)
    ensures (a + b + c) + d == a + (b + (c + d))
  {
  }

  /** A separator between two stretches of text, read as one glyph. */
  lemma Separate(whole: seq<Glyph>, a: seq<Glyph>, middle: seq<Glyph>, x: Glyph, inner: seq<Glyph>, b: seq<Glyph>, rest: seq<Glyph>)
    requires whole == a + middle && middle == [x] + inner && inner == b + rest
    ensures whole == (a + [x] + b) + rest
  {
  }

  lemma Around(first: string, a: seq<Glyph>, sep: string, x: Glyph, others: string, b: seq<Glyph>, rest: string)
    requires ReadsAs(first, a, sep + (others + rest)) && ReadsAs(others, b, rest)
    requires Read(sep + (others + rest)) == [x] + Read(others + rest)
    ensures ReadsAs(first + sep + others, a + [x] + b, rest)
  {
    Regroup(first, sep, others, rest);
    Separate(Read(first + (sep + (others + rest))), a, Read(sep + (others + rest)), x, Read(others + rest), b, Read(rest));
  }

  lemma SpaceBetween(first: string, a: seq<Glyph>, others: string, b: seq<Glyph>)
    requires Composes(first, a) && Composes(others, b)
    ensures Composes(first + " " + others, a + [Shown(' ')] + b)
  {
    forall rest: string | SafeAfter(rest)
      ensures ReadsAs(first + " " + others, a + [Shown(' ')] + b, rest)
    {
      ReadPlain(' ', others + rest);
      Around(first, a, " ", Shown(' '), others, b, rest);
    }
  }

  lemma BreakBetween(first: string, a: seq<Glyph>, others: string, b: seq<Glyph>)
    requires Composes(first, a) && Composes(others, b)
    ensures Composes(first + "\\N" + others, a + [LineBreak] + b)
  {
    forall rest: string | SafeAfter(rest)
      ensures ReadsAs(first + "\\N" + others, a + [LineBreak] + b, rest)
    {
      ReadPair('N', others + rest);
      Around(first, a, "\\N", LineBreak, others, b, rest);
    }
  }

  ghost predicate ComposeEach(pieces: seq<string>, parts: seq<seq<Glyph>>) {
    |pieces| == |parts| && forall i | 0 <= i < |pieces| :: Composes(pieces[i], parts[i])
  }

  lemma {:induction false} LineComposes(pieces: seq<string>, parts: seq<seq<Glyph>>)
    requires pieces != [] && ComposeEach(pieces, parts)
    ensures Composes(Join(pieces, " "), Spaced(parts))
  {
    if |pieces| > 1 {
      LineComposes(pieces[1..], parts[1..]);
      SpaceBetween(pieces[0], parts[0], Join(pieces[1..], " "), Spaced(parts[1..]));
    }
  }

  lemma {:induction false} LinesCompose(lines: seq<string>, parts: seq<seq<Glyph>>)
    requires lines != [] && ComposeEach(lines, parts)
    ensures Composes(Join(lines, "\\N"), Broken(parts))
  {
    if |lines| > 1 {
      LinesCompose(lines[1..], parts[1..]);
      BreakBetween(lines[0], parts[0], Join(lines[1..], "\\N"), Broken(parts[1..]));
    }
  }

  // ---- override blocks -----------------------------------------------------------------------

  function Block(body: string): string { "{" + body + "}" }

  lemma ReadBlock(body: string, tail: string)
    requires '}' !in body
    ensures Read(Block(body) + tail) == [Override(body)] + Read(tail)
  {
    var inner := body + "}" + tail;
    assert (Block(body) + tail)[1..] == inner;
    IndexAfter(body, '}', tail);
    assert inner[..|body|] == body && inner[|body| + 1..] == tail;
  }

  function Placement(upper: bool): string { if upper then "\\an8" else "\\an2" }

  // ---- the static body -------------------------------------------------------------------------

  function EscapedEach(tokens: seq<string>): seq<string> { MapSeq(tokens, Escaped) }

  function ReadEach(tokens: seq<string>): seq<seq<Glyph>> { MapSeq(tokens, ReadBack) }

  function LineTexts(lines: seq<seq<string>>): seq<string> {
    MapSeq(lines, (line: seq<string>) => Join(EscapedEach(line), " "))
  }

  function LineGlyphs(lines: seq<seq<string>>): seq<seq<Glyph>> {
    MapSeq(lines, (line: seq<string>) => Spaced(ReadEach(line)))
  }

  function StaticBody(upper: bool, lines: seq<seq<string>>): string {
    Block(Placement(upper)) + Join(LineTexts(lines), "\\N")
  }

  ghost predicate Nonempty(lines: seq<seq<string>>) { lines != [] && forall l <- lines :: l != [] }

  lemma TokenLineComposes(tokens: seq<string>)
    requires tokens != []
    ensures Composes(Join(EscapedEach(tokens), " "), Spaced(ReadEach(tokens)))
  {
    forall i | 0 <= i < |tokens| ensures Composes(EscapedEach(tokens)[i], ReadEach(tokens)[i]) {
      EscapedComposes(tokens[i]);
    }
    LineComposes(EscapedEach(tokens), ReadEach(tokens));
  }

  /** A static body reads as its placement override and its lines, whatever the tokens are. */
  lemma StaticBodyReads(upper: bool, lines: seq<seq<string>>)
    requires Nonempty(lines)
    ensures Read(StaticBody(upper, lines)) == [Override(if upper then "\\an8" else "\\an2")] + Broken(LineGlyphs(lines))
  {
    forall i | 0 <= i < |lines| ensures Composes(LineTexts(lines)[i], LineGlyphs(lines)[i]) {
      assert lines[i] in lines;
      TokenLineComposes(lines[i]);
    }
    LinesCompose(LineTexts(lines), LineGlyphs(lines));
    ReadAlone(Join(LineTexts(lines), "\\N"), Broken(LineGlyphs(lines)));
    ReadBlock(Placement(upper), Join(LineTexts(lines), "\\N"));
  }

  // ---- exactly when it shows its lines -----------------------------------------------------------

  /** The glyphs are the texts on lines of their own. */
  ghost predicate ShowsLines(glyphs: seq<Glyph>, texts: seq<string>) {
    exists parts: seq<seq<Glyph>> ::
      && glyphs == Broken(parts) && |parts| == |texts|
      && forall i | 0 <= i < |parts| :: Shows(parts[i], texts[i])
  }

  lemma ShowsSpaced(a: seq<Glyph>, first: string, b: seq<Glyph>, others: string)
    requires Shows(a, first) && Shows(b, others)
    ensures Shows(a + [Shown(' ')] + b, first + " " + others)
  {
    FlatMapConcat(a + [Shown(' ')], b, Visible);
    FlatMapConcat(a, [Shown(' ')], Visible);
    FlatMapConcat(first + " ", others, Clean);
    FlatMapConcat(first, " ", Clean);
    FlatMapOne(' ', Clean);
    ShownOne(' ');
    FlatMapConcat(Sanitized(first) + " ", Sanitized(others), Unjoined);
    FlatMapConcat(Sanitized(first), " ", Unjoined);
  }

  lemma {:induction false} LineShows(tokens: seq<string>)
    requires tokens != [] && forall t <- tokens :: !Hazard(t)
    ensures Shows(Spaced(ReadEach(tokens)), Join(tokens, " "))
  {
    HazardFreeShows(tokens[0]);
    if |tokens| > 1 {
      LineShows(tokens[1..]);
      assert ReadEach(tokens)[1..] == ReadEach(tokens[1..]);
      ShowsSpaced(ReadBack(tokens[0]), tokens[0], Spaced(ReadEach(tokens[1..])), Join(tokens[1..], " "));
    }
  }

  /** How many glyphs are not characters. */
  function Unshown(glyphs: seq<Glyph>): nat {
    if glyphs == [] then 0 else (if glyphs[0].Shown? then 0 else 1) + Unshown(glyphs[1..])
  }

  lemma {:induction false} UnshownConcat(a: seq<Glyph>, b: seq<Glyph>)
    ensures Unshown(a + b) == Unshown(a) + Unshown(b)
  {
    if a == [] {
      assert a + b == b;
    } else {
      UnshownConcat(a[1..], b);
      assert (a + b)[0] == a[0] && (a + b)[1..] == a[1..] + b;
    }
  }

  lemma {:induction false} AllShownIff(glyphs: seq<Glyph>)
    ensures AllShown(glyphs) <==> Unshown(glyphs) == 0
  {
    if glyphs != [] {
      AllShownIff(glyphs[1..]);
      assert glyphs == [glyphs[0]] + glyphs[1..];
    }
  }

  lemma {:induction false} SpacedUnshown(parts: seq<seq<Glyph>>, i: nat)
    requires i < |parts|
    ensures Unshown(Spaced(parts)) >= Unshown(parts[i])
  {
    if |parts| > 1 {
      UnshownConcat(parts[0] + [Shown(' ')], Spaced(parts[1..]));
      UnshownConcat(parts[0], [Shown(' ')]);
      if i > 0 {
        SpacedUnshown(parts[1..], i - 1);
      }
    }
  }

  lemma {:induction false} BrokenUnshown(parts: seq<seq<Glyph>>, i: nat)
    requires i < |parts|
    ensures Unshown(Broken(parts)) >= |parts| - 1 + Unshown(parts[i])
    ensures (forall p <- parts :: Unshown(p) == 0) ==> Unshown(Broken(parts)) == |parts| - 1
  {
    if |parts| > 1 {
      UnshownConcat(parts[0] + [LineBreak], Broken(parts[1..]));
      UnshownConcat(parts[0], [LineBreak]);
      BrokenUnshown(parts[1..], if i > 0 then i - 1 else 0);
    }
  }

  lemma ShownLinesAreBroken(glyphs: seq<Glyph>, texts: seq<string>)
    requires ShowsLines(glyphs, texts) && texts != []
    ensures Unshown(glyphs) == |texts| - 1
  {
    var parts :| glyphs == Broken(parts) && |parts| == |texts| && forall i | 0 <= i < |parts| :: Shows(parts[i], texts[i]);
    forall p | p in parts ensures Unshown(p) == 0 {
      var i :| 0 <= i < |parts| && parts[i] == p;
      assert Shows(parts[i], texts[i]);
      AllShownIff(p);
    }
    BrokenUnshown(parts, 0);
  }

  ghost predicate HazardFree(lines: seq<seq<string>>) {
    forall line <- lines :: forall t <- line :: !Hazard(t)
  }

  lemma HazardFreeBodyShows(lines: seq<seq<string>>)
    requires Nonempty(lines) && HazardFree(lines)
    ensures ShowsLines(Broken(LineGlyphs(lines)), JoinEach(lines))
  {
    var parts := LineGlyphs(lines);
    forall i | 0 <= i < |parts| ensures Shows(parts[i], JoinEach(lines)[i]) {
      assert lines[i] in lines;
      LineShows(lines[i]);
    }
  }

  lemma HazardousLine(line: seq<string>, t: string)
    requires t in line && Hazard(t)
    ensures Unshown(Spaced(ReadEach(line))) > 0
  {
    var k :| 0 <= k < |line| && line[k] == t;
    HazardBreaks(t);
    AllShownIff(ReadBack(t));
    SpacedUnshown(ReadEach(line), k);
  }

  lemma HazardousBodyFails(lines: seq<seq<string>>)
    requires Nonempty(lines) && !HazardFree(lines)
    ensures !ShowsLines(Broken(LineGlyphs(lines)), JoinEach(lines))
  {
    var line :| line in lines && exists t <- line :: Hazard(t);
    var t :| t in line && Hazard(t);
    var i :| 0 <= i < |lines| && lines[i] == line;
    HazardousLine(line, t);
    BrokenUnshown(LineGlyphs(lines), i);
    if ShowsLines(Broken(LineGlyphs(lines)), JoinEach(lines)) {
      ShownLinesAreBroken(Broken(LineGlyphs(lines)), JoinEach(lines));
    }
  }

  /** A static body shows exactly its lines exactly when none of its tokens hides a tag letter behind a backslash. */
  lemma StaticBodyShowsLinesIff(upper: bool, lines: seq<seq<string>>)
    requires Nonempty(lines)
    ensures Read(StaticBody(upper, lines)) != [] && Read(StaticBody(upper, lines))[0] == Override(Placement(upper))
    ensures ShowsLines(Read(StaticBody(upper, lines))[1..], JoinEach(lines)) <==> HazardFree(lines)
  {
    StaticBodyReads(upper, lines);
    assert Read(StaticBody(upper, lines))[1..] == Broken(LineGlyphs(lines));
    if HazardFree(lines) {
      HazardFreeBodyShows(lines);
    } else {
      HazardousBodyFails(lines);
    }
  }

  // ---- the emphasized body -------------------------------------------------------------------------

  function Color(color: string): string { "\\c" + color + "&" }

  predicate Braceless(text: string) { '{' !in text && '}' !in text }

  /** A token in its color, the primary color restored after it. */
  function ColoredToken(token: string, color: string, primary: string): string {
    Block(Color(color)) + Escaped(token) + Block(Color(primary))
  }

  function ColoredGlyphs(token: string, color: string, primary: string): seq<Glyph> {
    [Override(Color(color))] + ReadBack(token) + [Override(Color(primary))]
  }

  lemma Enclose(whole: seq<Glyph>, x: Glyph, middle: seq<Glyph>, b: seq<Glyph>, tail: seq<Glyph>, y: Glyph, rest: seq<Glyph>)
    requires whole == [x] + middle && middle == b + tail && tail == [y] + rest
    ensures whole == ([x] + b + [y]) + rest
  {
  }

  lemma ReadBetweenBlocks(token: string, color: string, primary: string, rest: string)
    requires Braceless(color) && Braceless(primary) && !EndsInBackslash(token)
    ensures Read(ColoredToken(token, color, primary) + rest) == ColoredGlyphs(token, color, primary) + Read(rest)
  {
    var close := Block(Color(primary)) + rest;
    Regroup(Block(Color(color)), Escaped(token), Block(Color(primary)), rest);
    ReadBlock(Color(color), Escaped(token) + close);
    ReadEscaped(token, close);
    ReadBlock(Color(primary), rest);
    Enclose(Read(Block(Color(color)) + (Escaped(token) + close)), Override(Color(color)), Read(Escaped(token) + close),
            ReadBack(token), Read(close), Override(Color(primary)), Read(rest));
  }

  lemma ColoredComposes(token: string, color: string, primary: string)
    requires Braceless(color) && Braceless(primary) && !EndsInBackslash(token)
    ensures Composes(ColoredToken(token, color, primary), ColoredGlyphs(token, color, primary))
  {
    forall rest: string | SafeAfter(rest)
      ensures ReadsAs(ColoredToken(token, color, primary), ColoredGlyphs(token, color, primary), rest)
    {
      ReadBetweenBlocks(token, color, primary, rest);
    }
  }

  /** The number of override blocks. */
  function Overrides(glyphs: seq<Glyph>): nat {
    if glyphs == [] then 0 else (if glyphs[0].Override? then 1 else 0) + Overrides(glyphs[1..])
  }

  lemma {:induction false} OverridesConcat(a: seq<Glyph>, b: seq<Glyph>)
    ensures Overrides(a + b) == Overrides(a) + Overrides(b)
  {
    if a == [] {
      assert a + b == b;
    } else {
      OverridesConcat(a[1..], b);
      assert (a + b)[0] == a[0] && (a + b)[1..] == a[1..] + b;
    }
  }

  lemma {:induction false} BracelessReadsNoOverride(text: string)
    requires '{' !in text
    ensures Overrides(Read(text)) == 0
    decreases |text|
  {
    if text != [] {
      assert text[0] in text;
      BracelessReadsNoOverride(text[1..]);
      if |text| > 1 {
        BracelessReadsNoOverride(text[2..]);
      }
    }
  }

  lemma StepHasNoOverride(text: string)
    requires text != []
    ensures Overrides(StepGlyphs(text)) == 0
  {
    NoOverrideCounts(StepGlyphs(text));
  }

  /** A trailing backslash takes the brace of the block behind it: the block's own text is shown instead. */
  lemma {:induction false} BackslashTakesBrace(text: string, body: string)
    requires EndsInBackslash(text) && '{' !in body
    ensures Overrides(Read(Escaped(text) + ("{" + body))) == 0
    decreases |text|
  {
    var rest := "{" + body;
    if TrailingBackslash(text) {
      EscapedHead(text[1..]);
      assert text[1..] != [] ==> text[1..][0] == text[1];
      assert Escaped(text) == "\\";
      assert Escaped(text) + rest == ['\\', '{'] + body;
      ReadPair('{', body);
      BracelessReadsNoOverride(body);
    } else {
      ReadStep(text, rest);
      StepEnds(text);
      BackslashTakesBrace(StepRest(text), body);
      StepHasNoOverride(text);
      OverridesConcat(StepGlyphs(text), Read(Escaped(StepRest(text)) + rest));
    }
  }

  lemma {:induction false} KeptEnds(text: string)
    requires EndsInBackslash(text) && FirstKept(text) != [] && FirstKept(text)[0] != '\\'
    ensures EndsInBackslash(AfterKept(text))
  {
    if IsDropped(text[0]) {
      KeptEnds(text[1..]);
    }
  }

  lemma StepEnds(text: string)
    requires EndsInBackslash(text) && !TrailingBackslash(text)
    ensures EndsInBackslash(StepRest(text))
  {
    if HazardHere(text) {
      KeptEnds(text[1..]);
    }
  }

  lemma ReadBackOverrides(token: string)
    ensures Overrides(ReadBack(token)) == 0
  {
    ReadBackHasNoOverride(token);
    NoOverrideCounts(ReadBack(token));
  }

  lemma {:induction false} NoOverrideCounts(glyphs: seq<Glyph>)
    requires forall g <- glyphs :: !g.Override?
    ensures Overrides(glyphs) == 0
  {
    if glyphs != [] {
      assert glyphs[0] in glyphs && forall g <- glyphs[1..] :: g in glyphs;
      NoOverrideCounts(glyphs[1..]);
    }
  }

  lemma ColoredOverrides(token: string, color: string, primary: string)
    ensures Overrides(ColoredGlyphs(token, color, primary)) == 2
  {
    ReadBackOverrides(token);
    OverridesConcat([Override(Color(color))] + ReadBack(token), [Override(Color(primary))]);
    OverridesConcat([Override(Color(color))], ReadBack(token));
  }

  lemma ColoredSplits(token: string, color: string, primary: string)
    ensures ColoredToken(token, color, primary)
         == Block(Color(color)) + (Escaped(token) + ("{" + (Color(primary) + "}")))
  {
    assert Block(Color(primary)) == "{" + (Color(primary) + "}");
  }

  lemma OneBlock(body: string, inner: string)
    requires '}' !in body && Overrides(Read(inner)) == 0
    ensures Overrides(Read(Block(body) + inner)) == 1
  {
    ReadBlock(body, inner);
    OverridesConcat([Override(body)], Read(inner));
  }

  lemma BackslashSpoils(token: string, color: string, primary: string)
    requires Braceless(color) && Braceless(primary) && EndsInBackslash(token)
    ensures Overrides(Read(ColoredToken(token, color, primary))) == 1
  {
    var body := Color(primary) + "}";
    ColoredSplits(token, color, primary);
    BackslashTakesBrace(token, body);
    OneBlock(Color(color), Escaped(token) + ("{" + body));
  }

  /** An emphasized token reads as itself between its two color blocks exactly when it does not end in a backslash. */
  lemma ColoredTokenReadsIff(token: string, color: string, primary: string)
    requires Braceless(color) && Braceless(primary)
    ensures Read(ColoredToken(token, color, primary)) == ColoredGlyphs(token, color, primary) <==> !EndsInBackslash(token)
  {
    if EndsInBackslash(token) {
      BackslashSpoils(token, color, primary);
      ColoredOverrides(token, color, primary);
    } else {
      ColoredComposes(token, color, primary);
      ReadAlone(ColoredToken(token, color, primary), ColoredGlyphs(token, color, primary));
    }
  }

  datatype Colors = Colors(primary: string, active: string)

  function ColorOf(i: nat, active: nat, colors: Colors): string { if i == active then colors.active else colors.primary }

  function ColoredLine(tokens: seq<string>, line: seq<nat>, active: nat, colors: Colors): seq<string> {
    MapSeq(line, (i: nat) => ColoredToken(TokenAt(tokens, i), ColorOf(i, active, colors), colors.primary))
  }

  function ActiveTexts(tokens: seq<string>, lines: seq<seq<nat>>, active: nat, colors: Colors): seq<string> {
    MapSeq(lines, (line: seq<nat>) => Join(ColoredLine(tokens, line, active, colors), " "))
  }

  /** Every token in its colors, the active one in the active color. */
  function ActiveBody(upper: bool, tokens: seq<string>, lines: seq<seq<nat>>, active: nat, colors: Colors): string {
    Block(Placement(upper)) + Join(ActiveTexts(tokens, lines, active, colors), "\\N")
  }

  /** The glyphs without override blocks. */
  function Plain(glyphs: seq<Glyph>): seq<Glyph> { FlatMap(glyphs, PlainOne) }

  function PlainOne(g: Glyph): seq<Glyph> { if g.Override? then [] else [g] }

  lemma PlainConcat(a: seq<Glyph>, x: Glyph, b: seq<Glyph>)
    ensures Plain(a + [x] + b) == Plain(a) + PlainOne(x) + Plain(b)
  {
    FlatMapConcat(a + [x], b, PlainOne);
    FlatMapConcat(a, [x], PlainOne);
    FlatMapOne(x, PlainOne);
  }

  lemma {:induction false} PlainKeeps(glyphs: seq<Glyph>)
    requires forall g <- glyphs :: !g.Override?
    ensures Plain(glyphs) == glyphs
  {
    if glyphs != [] {
      assert glyphs[0] in glyphs && forall g <- glyphs[1..] :: g in glyphs;
      PlainKeeps(glyphs[1..]);
    }
  }

  lemma PlainColored(token: string, color: string, primary: string)
    ensures Plain(ColoredGlyphs(token, color, primary)) == ReadBack(token)
  {
    ReadBackHasNoOverride(token);
    PlainKeeps(ReadBack(token));
    FlatMapConcat([Override(Color(color))] + ReadBack(token), [Override(Color(primary))], PlainOne);
    FlatMapConcat([Override(Color(color))], ReadBack(token), PlainOne);
    FlatMapOne(Override(Color(color)), PlainOne);
    FlatMapOne(Override(Color(primary)), PlainOne);
  }

  function PlainEach(parts: seq<seq<Glyph>>): seq<seq<Glyph>> { MapSeq(parts, Plain) }

  lemma {:induction false} PlainSpaced(parts: seq<seq<Glyph>>)
    ensures Plain(Spaced(parts)) == Spaced(PlainEach(parts))
  {
    if |parts| > 1 {
      PlainSpaced(parts[1..]);
      assert PlainEach(parts)[1..] == PlainEach(parts[1..]);
      PlainConcat(parts[0], Shown(' '), Spaced(parts[1..]));
    }
  }

  lemma {:induction false} PlainBroken(parts: seq<seq<Glyph>>)
    ensures Plain(Broken(parts)) == Broken(PlainEach(parts))
  {
    if |parts| > 1 {
      PlainBroken(parts[1..]);
      assert PlainEach(parts)[1..] == PlainEach(parts[1..]);
      PlainConcat(parts[0], LineBreak, Broken(parts[1..]));
    }
  }
}
