/** Escaping caption text for ASS, read back by libass' scan rule. */
module AssEscape {
  import opened Sequences
  import opened Texts

  const WORD_JOINER: char := '\U{2060}'

  predicate IsBidiControl(c: char) {
    '\U{202A}' <= c <= '\U{202E}' || '\U{2066}' <= c <= '\U{2069}'
  }

  /** Tab, line feeds, carriage return and the Unicode line separators become spaces. */
  predicate IsBreak(c: char) {
    '\U{0009}' <= c <= '\U{000D}' || c == '\U{2028}' || c == '\U{2029}'
  }

  predicate IsControl(c: char) {
    c < '\U{0020}' || '\U{007F}' <= c <= '\U{009F}'
  }

  predicate IsDropped(c: char) { IsBidiControl(c) || (IsControl(c) && !IsBreak(c)) }

  /** libass' newline and hard-space letters. */
  predicate IsTag(c: char) { c == 'N' || c == 'n' || c == 'h' }

  predicate IsBrace(c: char) { c == '{' || c == '}' }

  /** What one kept character is written as, given the source character after it. */
  function Emitted(c: char, after: string): string {
    if IsBreak(c) then " "
    else if c == '\\' then (if after != [] && IsTag(after[0]) then ['\\', WORD_JOINER] else "\\")
    else if IsBrace(c) then ['\\', c]
    else [c]
  }

  /** What one source character contributes. */
  function Piece(c: char, after: string): string { if IsDropped(c) then [] else Emitted(c, after) }

  function Escaped(text: string): string {
    if text == [] then [] else Piece(text[0], text[1..]) + Escaped(text[1..])
  }

  method EscapeAt(text: string, index: nat) returns (piece: string, bidi: bool)
    requires index < |text|
    ensures piece == Piece(text[index], text[index + 1..]) && bidi == IsBidiControl(text[index])
  {
    var c := text[index];
    piece, bidi := [], false;
    if IsBidiControl(c) {
      bidi := true;
    } else if IsBreak(c) {
      piece := " ";
    } else if IsControl(c) {
    } else if c == '\\' {
      piece := "\\";
      if index + 1 < |text| && IsTag(text[index + 1]) {
        piece := piece + [WORD_JOINER];
      }
    } else if IsBrace(c) {
      piece := ['\\', c];
    } else {
      piece := [c];
    }
  }

  method Escape(text: string) returns (escaped: string, bidiFound: bool)
    ensures escaped == Escaped(text)
    ensures bidiFound <==> exists i | 0 <= i < |text| :: IsBidiControl(text[i])
  {
    hide Piece, IsBidiControl;
    escaped, bidiFound := [], false;
    var index := 0;
    while index < |text|
      invariant index <= |text| && escaped + Escaped(text[index..]) == Escaped(text)
      invariant bidiFound <==> exists i | 0 <= i < index :: IsBidiControl(text[i])
    {
      var piece, bidi := EscapeAt(text, index);
      EscapedStep(text, index, escaped);
      escaped := escaped + piece;
      bidiFound := bidiFound || bidi;
      index := index + 1;
    }
  }

  /** A character is removed: a bidi control, or a control character that is not white space. */
  predicate Removed(code: int) {
    || code in {0x202A, 0x202B, 0x202C, 0x202D, 0x202E, 0x2066, 0x2067, 0x2068, 0x2069}
    || 0 <= code < 9 || 14 <= code < 32 || 127 <= code < 160
  }

  /** A character is written as a space: tab, line and page feeds, carriage return, Unicode line separators. */
  predicate Blank(code: int) { 9 <= code < 14 || code == 0x2028 || code == 0x2029 }

  /** By its code alone, whether a character is removed, becomes a space, or stays. */
  lemma CharacterIsWritten(c: char, after: string)
    ensures var code := c as int;
      && (Removed(code) <==> Piece(c, after) == [])
      && (Blank(code) || c == ' ' <==> Piece(c, after) == " ")
      && (!Removed(code) && !Blank(code) && c != '{' && c != '}' && c != '\\' ==> Piece(c, after) == [c])
  {
  }

  /** A brace is written behind a backslash, and a backslash before a tag letter is cut off from it. */
  lemma SpecialIsWritten(after: string)
    ensures Piece('{', after) == "\\{" && Piece('}', after) == "\\}"
    ensures Piece('\\', after) == if after != [] && after[0] in "Nnh" then ['\\', '\U{2060}'] else "\\"
  {
  }

  lemma EscapedStep(text: string, index: nat, before: string)
    requires index < |text|
    ensures before + Escaped(text[index..])
         == (before + Piece(text[index], text[index + 1..])) + Escaped(text[index + 1..])
  {
    assert text[index..][1..] == text[index + 1..];
  }

  /** The source text as it should show: dropped characters gone, breaks as spaces. */
  function Sanitized(text: string): string { FlatMap(text, Clean) }

  function Clean(c: char): string { if IsDropped(c) then [] else if IsBreak(c) then " " else [c] }

  // ---- the reader --------------------------------------------------------------------

  /** What libass makes of a dialogue text: characters, forced breaks, hard spaces, override blocks. */
  datatype Glyph = Shown(c: char) | LineBreak | HardSpace | Override(body: string)

  function TagGlyph(c: char): Glyph { if c == 'h' then HardSpace else LineBreak }

  /**
   The scan rule: a backslash and one of `N`, `n`, `h`, `{`, `}` is a pair, any other backslash is
   literal; an unpaired `{` opens an override block up to the next `}`.
   */
  function Read(text: string): seq<Glyph>
    decreases |text|
  {
    if text == [] then []
    else if text[0] == '\\' && |text| > 1 && IsTag(text[1]) then [TagGlyph(text[1])] + Read(text[2..])
    else if text[0] == '\\' && |text| > 1 && IsBrace(text[1]) then [Shown(text[1])] + Read(text[2..])
    else if text[0] == '{' then
      var body := text[1..];
      var n := IndexOf(body, '}');
      [Override(body[..n])] + Read(if n < |body| then body[n + 1..] else [])
    else [Shown(text[0])] + Read(text[1..])
  }

  /** The next kept character. */
  function FirstKept(text: string): (r: string)
    ensures |r| <= 1
  {
    if text == [] then [] else if IsDropped(text[0]) then FirstKept(text[1..]) else text[..1]
  }

  /** A backslash whose tag letter is hidden behind dropped characters only. */
  predicate HazardHere(text: string) {
    && text != [] && text[0] == '\\'
    && |text| > 1 && IsDropped(text[1])
    && FirstKept(text[1..]) != [] && IsTag(FirstKept(text[1..])[0])
  }

  ghost predicate Hazard(text: string) {
    exists i | 0 <= i < |text| :: HazardHere(text[i..])
  }

  /** What a character other than the backslash shows as. */
  function Ordinary(c: char): seq<Glyph> {
    if IsDropped(c) then [] else if IsBreak(c) then [Shown(' ')] else [Shown(c)]
  }

  /** The text after its first kept character. */
  function AfterKept(text: string): (r: string)
    ensures |r| <= |text| && (text != [] ==> |r| < |text|)
  {
    if text == [] then [] else if IsDropped(text[0]) then AfterKept(text[1..]) else text[1..]
  }

  /** The source text that remains after the first step of `ReadBack`, and the glyphs of that step. */
  function StepRest(text: string): (r: string)
    requires text != []
    ensures |r| < |text|
  {
    if HazardHere(text) then AfterKept(text[1..]) else text[1..]
  }

  function StepGlyphs(text: string): seq<Glyph>
    requires text != []
  {
    if text[0] != '\\' then Ordinary(text[0])
    else if HazardHere(text) then [TagGlyph(FirstKept(text[1..])[0])]
    else if |text| > 1 && IsTag(text[1]) then [Shown('\\'), Shown(WORD_JOINER)]
    else [Shown('\\')]
  }

  /** What an escaped text reads back as. */
  function ReadBack(text: string): seq<Glyph>
    decreases |text|
  {
    if text == [] then [] else StepGlyphs(text) + ReadBack(StepRest(text))
  }

  /** Text that cannot complete a pair begun by a backslash before it. */
  predicate SafeAfter(rest: string) { rest == [] || (!IsTag(rest[0]) && !IsBrace(rest[0])) }

  // ---- escaped text read back ----------------------------------------------------------

  lemma EscapedDrops(text: string)
    requires text != [] && IsDropped(text[0])
    ensures Escaped(text) == Escaped(text[1..])
  {
  }

  /** How an escaped text starts. */
  lemma {:induction false} EscapedHead(text: string)
    ensures FirstKept(text) == [] ==> Escaped(text) == []
    ensures FirstKept(text) != [] ==>
              && Escaped(text) != []
              && !IsBrace(Escaped(text)[0])
              && (IsTag(Escaped(text)[0]) <==> IsTag(FirstKept(text)[0]))
  {
    if text != [] && IsDropped(text[0]) {
      EscapedDrops(text);
      EscapedHead(text[1..]);
    }
  }

  /** A tag letter that comes first is written as it is. */
  lemma {:induction false} EscapedTag(text: string)
    requires FirstKept(text) != [] && IsTag(FirstKept(text)[0])
    ensures Escaped(text) == [FirstKept(text)[0]] + Escaped(AfterKept(text))
  {
    if IsDropped(text[0]) {
      EscapedDrops(text);
      EscapedTag(text[1..]);
    } else {
      assert Piece(text[0], text[1..]) == [text[0]];
    }
  }

  lemma ReadPlain(c: char, tail: string)
    requires c != '\\' && c != '{'
    ensures Read([c] + tail) == [Shown(c)] + Read(tail)
  {
    assert ([c] + tail)[1..] == tail;
  }

  lemma ReadPair(c: char, tail: string)
    ensures IsBrace(c) ==> Read(['\\', c] + tail) == [Shown(c)] + Read(tail)
    ensures IsTag(c) ==> Read(['\\', c] + tail) == [TagGlyph(c)] + Read(tail)
    ensures c == 'N' || c == 'n' ==> Read(['\\', c] + tail) == [LineBreak] + Read(tail)
    ensures c == 'h' ==> Read(['\\', c] + tail) == [HardSpace] + Read(tail)
  {
    assert (['\\', c] + tail)[2..] == tail;
  }

  lemma ReadLoneBackslash(tail: string)
    requires SafeAfter(tail)
    ensures Read("\\" + tail) == [Shown('\\')] + Read(tail)
  {
    assert ("\\" + tail)[1..] == tail;
  }

  lemma ReadOrdinary(text: string, rest: string)
    requires text != [] && text[0] != '\\'
    ensures Read(Escaped(text) + rest) == Ordinary(text[0]) + Read(Escaped(text[1..]) + rest)
  {
    var tail := Escaped(text[1..]) + rest;
    assert Escaped(text) + rest == Piece(text[0], text[1..]) + tail;
    if IsDropped(text[0]) {
      assert [] + tail == tail;
    } else if IsBreak(text[0]) {
      ReadPlain(' ', tail);
    } else if IsBrace(text[0]) {
      ReadPair(text[0], tail);
    } else {
      ReadPlain(text[0], tail);
    }
  }

  lemma ReadJoined(text: string, rest: string)
    requires |text| > 1 && text[0] == '\\' && IsTag(text[1])
    ensures Read(Escaped(text) + rest) == [Shown('\\'), Shown(WORD_JOINER)] + Read(Escaped(text[1..]) + rest)
  {
    var tail := Escaped(text[1..]) + rest;
    assert text[1..][0] == text[1];
    assert Escaped(text) + rest == "\\" + ([WORD_JOINER] + tail);
    ReadLoneBackslash([WORD_JOINER] + tail);
    ReadPlain(WORD_JOINER, tail);
  }

  lemma EscapedHazard(text: string)
    requires HazardHere(text)
    ensures Escaped(text) == ['\\', FirstKept(text[1..])[0]] + Escaped(AfterKept(text[1..]))
  {
    EscapedTag(text[1..]);
    assert text[1..][0] == text[1];
    assert Piece(text[0], text[1..]) == ['\\'];
    hide Piece;
    var c, after := FirstKept(text[1..])[0], Escaped(AfterKept(text[1..]));
    assert ['\\'] + ([c] + after) == ['\\', c] + after;
  }

  lemma ReadHazard(text: string, rest: string)
    requires HazardHere(text)
    ensures Read(Escaped(text) + rest)
         == [TagGlyph(FirstKept(text[1..])[0])] + Read(Escaped(AfterKept(text[1..])) + rest)
  {
    var c := FirstKept(text[1..])[0];
    var after := Escaped(AfterKept(text[1..])) + rest;
    EscapedHazard(text);
    assert ['\\', c] + Escaped(AfterKept(text[1..])) + rest == ['\\', c] + after;
    ReadPair(c, after);
  }

  /** A backslash that no kept character follows. */
  predicate TrailingBackslash(text: string) { text != [] && text[0] == '\\' && FirstKept(text[1..]) == [] }

  predicate EndsInBackslash(text: string) {
    text != [] && (TrailingBackslash(text) || EndsInBackslash(text[1..]))
  }

  lemma ReadLone(text: string, rest: string)
    requires text != [] && text[0] == '\\' && (SafeAfter(rest) || !TrailingBackslash(text))
    requires !HazardHere(text) && !(|text| > 1 && IsTag(text[1]))
    ensures Read(Escaped(text) + rest) == [Shown('\\')] + Read(Escaped(text[1..]) + rest)
  {
    EscapedLone(text);
    LoneTailIsSafe(text, rest);
    Associate("\\", Escaped(text[1..]), rest);
    ReadLoneBackslash(Escaped(text[1..]) + rest);
  }

  lemma LonePiece(after: string)
    requires !(after != [] && IsTag(after[0]))
    ensures Piece('\\', after) == "\\"
  {
  }

  lemma EscapedLone(text: string)
    requires text != [] && text[0] == '\\' && !(|text| > 1 && IsTag(text[1]))
    ensures Escaped(text) == "\\" + Escaped(text[1..])
  {
    assert text[1..] != [] ==> text[1..][0] == text[1];
    LonePiece(text[1..]);
    hide Piece, IsTag;
  }

  lemma LoneTailIsSafe(text: string, rest: string)
    requires text != [] && text[0] == '\\' && (SafeAfter(rest) || !TrailingBackslash(text))
    requires !HazardHere(text) && !(|text| > 1 && IsTag(text[1]))
    ensures SafeAfter(Escaped(text[1..]) + rest)
  {
    EscapedHead(text[1..]);
    assert text[1..] != [] ==> text[1..][0] == text[1];
    assert Escaped(text[1..]) == [] ==> Escaped(text[1..]) + rest == rest;
  }

  lemma Chain(whole: seq<Glyph>, head: seq<Glyph>, middle: seq<Glyph>, back: seq<Glyph>, rest: seq<Glyph>)
    requires whole == head + middle && middle == back + rest
    ensures whole == (head + back) + rest
  {
  }

  lemma ReadStep(text: string, rest: string)
    requires text != [] && (SafeAfter(rest) || !TrailingBackslash(text))
    ensures Read(Escaped(text) + rest) == StepGlyphs(text) + Read(Escaped(StepRest(text)) + rest)
  {
    if text[0] != '\\' {
      ReadOrdinary(text, rest);
    } else if HazardHere(text) {
      ReadHazard(text, rest);
    } else if |text| > 1 && IsTag(text[1]) {
      ReadJoined(text, rest);
    } else {
      ReadLone(text, rest);
    }
  }

  lemma {:induction false} AfterKeptEnds(text: string)
    ensures EndsInBackslash(AfterKept(text)) ==> EndsInBackslash(text)
  {
    if text != [] && IsDropped(text[0]) {
      AfterKeptEnds(text[1..]);
    }
  }

  /** libass reads an escaped text as `ReadBack` says, whatever follows a text that does not end in a backslash. */
  lemma {:induction false} ReadEscaped(text: string, rest: string)
    requires SafeAfter(rest) || !EndsInBackslash(text)
    ensures Read(Escaped(text) + rest) == ReadBack(text) + Read(rest)
    decreases |text|
  {
    if text == [] {
      assert Escaped(text) + rest == rest;
    } else {
      var next := StepRest(text);
      AfterKeptEnds(text[1..]);
      ReadStep(text, rest);
      ReadEscaped(next, rest);
      Chain(Read(Escaped(text) + rest), StepGlyphs(text), Read(Escaped(next) + rest), ReadBack(next), Read(rest));
    }
  }

  lemma {:induction false} ReadBackHasNoOverride(text: string)
    ensures forall g <- ReadBack(text) :: !g.Override?
    decreases |text|
  {
    if text != [] {
      ReadBackHasNoOverride(StepRest(text));
    }
  }

  /** No source text ever opens an override block. */
  lemma EscapedNeverOpensOverride(text: string)
    ensures forall g <- Read(Escaped(text)) :: !g.Override?
  {
    ReadEscaped(text, []);
    assert Escaped(text) + [] == Escaped(text) && ReadBack(text) + [] == ReadBack(text);
    ReadBackHasNoOverride(text);
  }

  // ---- exactly when it shows the source text -------------------------------------------------

  predicate AllShown(glyphs: seq<Glyph>) { forall g <- glyphs :: g.Shown? }

  function Visible(g: Glyph): string { if g.Shown? then Unjoined(g.c) else [] }

  function Unjoined(c: char): string { if c == WORD_JOINER then [] else [c] }

  /** The characters shown, word joiners (which have no width) left out. */
  function ShownText(glyphs: seq<Glyph>): string { FlatMap(glyphs, Visible) }

  function WithoutJoiners(text: string): string { FlatMap(text, Unjoined) }

  /** The glyphs are the sanitized text, up to word joiners. */
  predicate Shows(glyphs: seq<Glyph>, text: string) {
    AllShown(glyphs) && ShownText(glyphs) == WithoutJoiners(Sanitized(text))
  }

  lemma HazardSplits(text: string)
    requires text != []
    ensures Hazard(text) <==> HazardHere(text) || Hazard(text[1..])
  {
    assert text[0..] == text;
    forall i | 0 <= i < |text[1..]| ensures text[1..][i..] == text[i + 1..] {
    }
    if Hazard(text) && !HazardHere(text) {
      var i :| 0 <= i < |text| && HazardHere(text[i..]);
      assert text[1..][i - 1..] == text[i..];
    }
    if Hazard(text[1..]) {
      var i :| 0 <= i < |text[1..]| && HazardHere(text[1..][i..]);
      assert HazardHere(text[i + 1..]);
    }
  }

  lemma ShownOne(c: char)
    ensures ShownText([Shown(c)]) == Unjoined(c) == WithoutJoiners([c])
  {
    FlatMapOne(Shown(c), Visible);
    FlatMapOne(c, Unjoined);
  }

  lemma StepShows(text: string)
    requires text != [] && !HazardHere(text)
    ensures AllShown(StepGlyphs(text))
    ensures ShownText(StepGlyphs(text)) == WithoutJoiners(Clean(text[0]))
  {
    var c := text[0];
    if c == '\\' && |text| > 1 && IsTag(text[1]) {
      ShownOne('\\');
      ShownOne(WORD_JOINER);
      FlatMapConcat([Shown('\\')], [Shown(WORD_JOINER)], Visible);
      assert StepGlyphs(text) == [Shown('\\')] + [Shown(WORD_JOINER)];
      assert Clean(c) == ['\\'];
    } else if !IsDropped(c) {
      ShownOne(Clean(c)[0]);
      assert Clean(c) == [Clean(c)[0]];
    }
  }

  lemma {:induction false} HazardFreeShows(text: string)
    requires !Hazard(text)
    ensures Shows(ReadBack(text), text)
  {
    if text != [] {
      HazardSplits(text);
      HazardFreeShows(text[1..]);
      StepShows(text);
      FlatMapConcat(StepGlyphs(text), ReadBack(text[1..]), Visible);
      FlatMapConcat(Clean(text[0]), Sanitized(text[1..]), Unjoined);
    }
  }

  lemma {:induction false} HazardBreaks(text: string)
    requires Hazard(text)
    ensures !AllShown(ReadBack(text))
    decreases |text|
  {
    HazardSplits(text);
    if HazardHere(text) {
      assert ReadBack(text)[0] == TagGlyph(FirstKept(text[1..])[0]);
      assert ReadBack(text)[0] in ReadBack(text);
    } else {
      HazardBreaks(text[1..]);
      var bad :| bad in ReadBack(text[1..]) && !bad.Shown?;
      assert bad in ReadBack(text);
    }
  }

  /**
   Escaped text shows the sanitized source text exactly when no backslash is followed, across one or
   more dropped characters and nothing else, by `N`, `n` or `h`.
   */
  lemma EscapeRoundTripIff(text: string)
    ensures Shows(Read(Escaped(text)), text) <==> !Hazard(text)
  {
    ReadEscaped(text, []);
    assert Escaped(text) + [] == Escaped(text) && ReadBack(text) + [] == ReadBack(text);
    if Hazard(text) {
      HazardBreaks(text);
    } else {
      HazardFreeShows(text);
    }
  }

  /** A character written as it is: neither removed nor a break, and no word joiner. */
  predicate Printable(c: char) { !Removed(c as int) && !Blank(c as int) && c as int != 0x2060 }

  lemma {:induction false} PrintableStays(text: string)
    requires forall c <- text :: Printable(c)
    ensures WithoutJoiners(Sanitized(text)) == text && !Hazard(text)
  {
    if text != [] {
      assert text[0] in text && Printable(text[0]);
      HazardSplits(text);
      if |text| > 1 {
        assert text[1] in text && Printable(text[1]);
      }
      PrintableStays(text[1..]);
      assert Clean(text[0]) == [text[0]];
      FlatMapConcat([text[0]], Sanitized(text[1..]), Unjoined);
      FlatMapOne(text[0], Unjoined);
      assert text == [text[0]] + text[1..];
    }
  }

  /** A text of printable characters, braces and backslashes among them, is shown character by character. */
  lemma PrintableTextIsShown(text: string)
    requires forall c <- text :: Printable(c)
    ensures AllShown(Read(Escaped(text))) && ShownText(Read(Escaped(text))) == text
  {
    PrintableStays(text);
    EscapeRoundTripIff(text);
  }

  /** A text outside the condition: a backslash, a bidi control and an `N` read as a line break. */
  lemma HiddenTagIsALineBreak()
    ensures Read(Escaped(['\\', '\U{202A}', 'N'])) == [LineBreak]
  {
    var text := ['\\', '\U{202A}', 'N'];
    assert text[1..] == ['\U{202A}', 'N'] && text[1..][1..] == ['N'] && ['N'][1..] == [];
    assert Escaped(text) == "\\N";
    assert Read("\\N") == [LineBreak] + Read([]);
  }

  /** No line feed survives escaping, so a dialogue stays on its line. */
  lemma {:induction false} EscapedHasNoLineFeed(text: string)
    ensures '\n' !in Escaped(text)
  {
    if text != [] {
      EscapedHasNoLineFeed(text[1..]);
      assert '\n' !in Piece(text[0], text[1..]);
    }
  }
}
