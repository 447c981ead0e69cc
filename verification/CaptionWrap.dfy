/** Greedy line wrapping that keeps left-to-right runs together. */
module CaptionWrap {
  import opened Bidi
  import opened BidiOrder
  import opened Sequences
  import opened Texts

  /** What wrapping depends on: the estimated width, the line width and count, the character classes. */
  datatype Layout = Layout(width: string -> real, maxWidth: real, maxLines: nat, cls: Classes)

  function TokenAt(tokens: seq<string>, i: nat): string { if i < |tokens| then tokens[i] else [] }

  /** The tokens at a line's indexes. */
  function Pick(tokens: seq<string>, line: seq<nat>): seq<string> {
    MapSeq(line, (i: nat) => TokenAt(tokens, i))
  }

  predicate LineFits(tokens: seq<string>, line: seq<nat>, layout: Layout) {
    layout.width(Join(Pick(tokens, line), " ")) <= layout.maxWidth
  }

  type Fit = seq<nat> -> bool

  function FitOf(text: string, layout: Layout): Fit {
    var tokens := Split(text);
    (line: seq<nat>) => LineFits(tokens, line, layout)
  }

  /** Finished lines and the line being filled. */
  datatype Wrapping = Wrapping(lines: seq<seq<nat>>, current: seq<nat>) {
    function All(): seq<seq<nat>> { if current == [] then lines else lines + [current] }
  }

  function PlaceToken(w: Wrapping, t: nat, fits: Fit): Wrapping {
    if w.current != [] && !fits(w.current + [t]) then Wrapping(w.lines + [w.current], [t])
    else w.(current := w.current + [t])
  }

  function PlaceTokens(w: Wrapping, unit: seq<nat>, fits: Fit): Wrapping {
    if unit == [] then w
    else PlaceToken(PlaceTokens(w, unit[..|unit| - 1], fits), unit[|unit| - 1], fits)
  }

  /** One unit's turn. */
  function PlaceUnit(w: Wrapping, unit: seq<nat>, fits: Fit): Wrapping {
    if fits(w.current + unit) then w.(current := w.current + unit)
    else if w.current == [] then PlaceTokens(w, unit, fits)
    else if |unit| > 1 && fits(unit) then Wrapping(w.lines + [w.current], unit)
    else PlaceTokens(Wrapping(w.lines + [w.current], []), unit, fits)
  }

  function PlaceUnits(units: seq<seq<nat>>, fits: Fit): Wrapping {
    if units == [] then Wrapping([], [])
    else PlaceUnit(PlaceUnits(units[..|units| - 1], fits), units[|units| - 1], fits)
  }

  function UnitsIn(text: string, layout: Layout): seq<seq<nat>> {
    UnitsOf(Directions(Split(text), ParagraphDirection(text, layout.cls), layout.cls))
  }

  /** The wrapped lines of a text, as token indexes. */
  function WrapIndexes(text: string, layout: Layout): seq<seq<nat>> {
    PlaceUnits(UnitsIn(text, layout), FitOf(text, layout)).All()
  }

  function LinesOf(tokens: seq<string>, lines: seq<seq<nat>>): seq<string> {
    MapSeq(lines, (line: seq<nat>) => Join(Pick(tokens, line), " "))
  }

  function WrappedLines(text: string, layout: Layout): seq<string> {
    LinesOf(Split(text), WrapIndexes(text, layout))
  }

  predicate Overflows(text: string, layout: Layout) { |WrappedLines(text, layout)| > layout.maxLines }

  method WrapText(text: string, layout: Layout) returns (wrapped: seq<string>, overflow: bool)
    ensures wrapped == WrappedLines(text, layout) && overflow == Overflows(text, layout)
  {
    var tokens := Split(text);
    var base := ScanDirection(text, layout.cls);
    var units := AtomicUnits(tokens, base, layout.cls);
    var lines := PackUnits(units, FitOf(text, layout));
    wrapped := LinesOf(tokens, lines);
    overflow := |wrapped| > layout.maxLines;
  }

  /** The loop over the units. */
  method PackUnits(units: seq<seq<nat>>, fits: Fit) returns (lines: seq<seq<nat>>)
    ensures lines == PlaceUnits(units, fits).All()
  {
    lines := [];
    var current: seq<nat> := [];
    for i := 0 to |units|
      invariant Wrapping(lines, current) == PlaceUnits(units[..i], fits)
    {
      var unit := units[i];
      assert units[..i + 1][..i] == units[..i];
      if fits(current + unit) {
        current := current + unit;
      } else if current != [] && |unit| > 1 && fits(unit) {
        lines := lines + [current];
        current := unit;
      } else {
        if current != [] {
          lines := lines + [current];
          current := [];
        }
        lines, current := SpreadUnit(lines, current, unit, fits);
      }
    }
    assert units[..|units|] == units;
    if current != [] {
      lines := lines + [current];
    }
  }

  /** The token loop over a unit that does not fit as a whole. */
  method SpreadUnit(lines0: seq<seq<nat>>, current0: seq<nat>, unit: seq<nat>, fits: Fit)
    returns (lines: seq<seq<nat>>, current: seq<nat>)
    ensures Wrapping(lines, current) == PlaceTokens(Wrapping(lines0, current0), unit, fits)
  {
    lines, current := lines0, current0;
    for i := 0 to |unit|
      invariant Wrapping(lines, current) == PlaceTokens(Wrapping(lines0, current0), unit[..i], fits)
    {
      assert unit[..i + 1][..i] == unit[..i];
      if current != [] && !fits(current + [unit[i]]) {
        lines := lines + [current];
        current := [];
      }
      current := current + [unit[i]];
    }
    assert unit[..|unit|] == unit;
  }

  // ---- what a wrapping promises ------------------------------------------------------

  /** No line is empty, and a line of several tokens fits the width. */
  ghost predicate LinesFit(lines: seq<seq<nat>>, fits: Fit) {
    forall line <- lines :: line != [] && (|line| > 1 ==> fits(line))
  }

  /** Token `t` had to open a new line: the unit it starts, or the over-wide unit it lies in, left it no room. */
  predicate ForcedBy(before: seq<nat>, t: nat, unit: seq<nat>, fits: Fit) {
    t in unit && if t == unit[0] then !fits(before + unit) else !fits(unit) && !fits(before + [t])
  }

  ghost predicate Forced(before: seq<nat>, line: seq<nat>, units: seq<seq<nat>>, fits: Fit) {
    line != [] && exists unit <- units :: ForcedBy(before, line[0], unit, fits)
  }

  ghost predicate ForcedBreaks(lines: seq<seq<nat>>, units: seq<seq<nat>>, fits: Fit) {
    forall i | 0 < i < |lines| :: Forced(lines[i - 1], lines[i], units, fits)
  }

  /** The lines hold exactly the tokens `part`, in order, fit, and break only where they must. */
  ghost predicate Good(lines: seq<seq<nat>>, part: seq<nat>, units: seq<seq<nat>>, fits: Fit) {
    Flatten(lines) == part && LinesFit(lines, fits) && ForcedBreaks(lines, units, fits)
  }

  lemma OpenedBreaks(lines: seq<seq<nat>>, line: seq<nat>, units: seq<seq<nat>>, fits: Fit)
    requires ForcedBreaks(lines, units, fits)
    requires lines != [] ==> Forced(lines[|lines| - 1], line, units, fits)
    ensures ForcedBreaks(lines + [line], units, fits)
  {
    var more := lines + [line];
    forall i | 0 < i < |more| ensures Forced(more[i - 1], more[i], units, fits) {
      assert i < |lines| ==> Forced(lines[i - 1], lines[i], units, fits);
    }
  }

  lemma OpenLine(lines: seq<seq<nat>>, line: seq<nat>, part: seq<nat>, units: seq<seq<nat>>, fits: Fit)
    requires Good(lines, part, units, fits) && line != [] && (|line| > 1 ==> fits(line))
    requires lines != [] ==> Forced(lines[|lines| - 1], line, units, fits)
    ensures Good(lines + [line], part + line, units, fits)
  {
    FlattenAppend(lines, line);
    OpenedBreaks(lines, line, units, fits);
  }

  lemma GrownBreaks(lines: seq<seq<nat>>, line: seq<nat>, grown: seq<nat>, units: seq<seq<nat>>, fits: Fit)
    requires ForcedBreaks(lines + [line], units, fits) && line != [] && grown != [] && grown[0] == line[0]
    ensures ForcedBreaks(lines + [grown], units, fits)
  {
    var was, more := lines + [line], lines + [grown];
    forall i | 0 < i < |more| ensures Forced(more[i - 1], more[i], units, fits) {
      assert Forced(was[i - 1], was[i], units, fits);
    }
  }

  lemma GrowLine(lines: seq<seq<nat>>, line: seq<nat>, tail: seq<nat>, part: seq<nat>, units: seq<seq<nat>>, fits: Fit)
    requires Good(lines + [line], part, units, fits) && line != [] && fits(line + tail)
    ensures Good(lines + [line + tail], part + tail, units, fits)
  {
    FlattenAppend(lines, line);
    FlattenAppend(lines, line + tail);
    assert Flatten(lines) + (line + tail) == part + tail;
    GrownBreaks(lines, line, line + tail, units, fits);
    forall l | l in lines + [line + tail] ensures l != [] && (|l| > 1 ==> fits(l)) {
      assert l in lines + [line] || l == line + tail;
    }
  }

  lemma StepToken(w: Wrapping, t: nat, part: seq<nat>, unit: seq<nat>, units: seq<seq<nat>>, fits: Fit)
    requires Good(w.All(), part, units, fits) && unit in units && t in unit
    requires w.current != [] ==> t != unit[0] && !fits(unit)
    requires w.current == [] && w.lines != [] ==> ForcedBy(w.lines[|w.lines| - 1], t, unit, fits)
    ensures PlaceToken(w, t, fits).current != []
    ensures Good(PlaceToken(w, t, fits).All(), part + [t], units, fits)
  {
    if w.current == [] {
      OpenLine(w.lines, [t], part, units, fits);
      assert w.current + [t] == [t];
    } else if fits(w.current + [t]) {
      GrowLine(w.lines, w.current, [t], part, units, fits);
    } else {
      assert ForcedBy(w.current, t, unit, fits);
      OpenLine(w.All(), [t], part, units, fits);
    }
  }

  /** The first index of a unit appears in it once. */
  predicate HeadOnce(unit: seq<nat>) { unit != [] && forall k | 0 < k < |unit| :: unit[k] != unit[0] }

  lemma PlaceTokensNext(w: Wrapping, unit: seq<nat>, n: nat, fits: Fit)
    requires 0 < n <= |unit|
    ensures PlaceTokens(w, unit[..n], fits) == PlaceToken(PlaceTokens(w, unit[..n - 1], fits), unit[n - 1], fits)
  {
    assert unit[..n][..n - 1] == unit[..n - 1];
  }

  /** A unit that has no room as a whole, spread token by token from a fresh line on. */
  lemma {:induction false} SpreadGood(w: Wrapping, n: nat, part: seq<nat>, unit: seq<nat>, units: seq<seq<nat>>, fits: Fit)
    requires w.current == [] && Good(w.lines, part, units, fits)
    requires unit in units && HeadOnce(unit) && 0 < n <= |unit|
    requires |unit| > 1 ==> !fits(unit)
    requires w.lines != [] ==> !fits(w.lines[|w.lines| - 1] + unit)
    ensures PlaceTokens(w, unit[..n], fits).current != []
    ensures Good(PlaceTokens(w, unit[..n], fits).All(), part + unit[..n], units, fits)
  {
    var front, t := unit[..n - 1], unit[n - 1];
    PlaceTokensNext(w, unit, n, fits);
    assert part + front + [t] == part + unit[..n];
    if n > 1 {
      SpreadGood(w, n - 1, part, unit, units, fits);
      StepToken(PlaceTokens(w, front, fits), t, part + front, unit, units, fits);
    } else {
      assert PlaceTokens(w, front, fits) == w && part + front == part;
      StepToken(w, t, part, unit, units, fits);
    }
  }

  /** Good lines, with a line being filled once any is finished. */
  ghost predicate Placed(w: Wrapping, part: seq<nat>, units: seq<seq<nat>>, fits: Fit) {
    Good(w.All(), part, units, fits) && (w.lines != [] ==> w.current != [])
  }

  lemma StepUnit(w: Wrapping, part: seq<nat>, unit: seq<nat>, units: seq<seq<nat>>, fits: Fit)
    requires Placed(w, part, units, fits) && unit in units && HeadOnce(unit)
    ensures Placed(PlaceUnit(w, unit, fits), part + unit, units, fits)
  {
    assert unit[..|unit|] == unit;
    if w.current == [] {
      assert w.current + unit == unit;
      if fits(unit) {
        OpenLine([], unit, part, units, fits);
      } else {
        SpreadGood(w, |unit|, part, unit, units, fits);
      }
    } else if fits(w.current + unit) {
      GrowLine(w.lines, w.current, unit, part, units, fits);
    } else {
      assert ForcedBy(w.current, unit[0], unit, fits);
      if |unit| > 1 && fits(unit) {
        OpenLine(w.All(), unit, part, units, fits);
      } else {
        SpreadGood(Wrapping(w.All(), []), |unit|, part, unit, units, fits);
      }
    }
  }

  lemma {:induction false} PlacedGood(n: nat, units: seq<seq<nat>>, fits: Fit)
    requires n <= |units| && forall u <- units :: HeadOnce(u)
    ensures Placed(PlaceUnits(units[..n], fits), Flatten(units[..n]), units, fits)
  {
    if n > 0 {
      var front, unit := units[..n - 1], units[n - 1];
      PlacedGood(n - 1, units, fits);
      FlattenAppend(front, unit);
      StepUnit(PlaceUnits(front, fits), Flatten(front), unit, units, fits);
      PlaceNext(units, n, fits);
    }
  }

  lemma PlaceNext(units: seq<seq<nat>>, n: nat, fits: Fit)
    requires 0 < n <= |units|
    ensures units[..n] == units[..n - 1] + [units[n - 1]]
    ensures PlaceUnits(units[..n], fits) == PlaceUnit(PlaceUnits(units[..n - 1], fits), units[n - 1], fits)
  {
    assert units[..n][..n - 1] == units[..n - 1];
  }

  /**
   The wrapped lines partition the tokens in order; lines of several tokens fit the width; and every
   line break is forced.
   */
  lemma WrapIsGood(text: string, layout: Layout)
    ensures Good(WrapIndexes(text, layout), Range(0, |Split(text)|), UnitsIn(text, layout), FitOf(text, layout))
  {
    var units := UnitsIn(text, layout);
    var directions := Directions(Split(text), ParagraphDirection(text, layout.cls), layout.cls);
    UnitsPartition(directions);
    forall u | u in units ensures HeadOnce(u) {
      assert IsUnit(u, directions);
      var k :| 0 <= k < |units| && units[k] == u;
      PartOfRange(units, |Split(text)|, k);
    }
    PlacedGood(|units|, units, FitOf(text, layout));
    assert units[..|units|] == units;
  }

  /** The tokens `a` and `b` lie in one line. */
  ghost predicate SameLine(lines: seq<seq<nat>>, a: nat, b: nat) {
    exists line <- lines :: a in line && b in line
  }

  lemma NoBreakInside(lines: seq<seq<nat>>, units: seq<seq<nat>>, n: nat, fits: Fit, at: nat, k: nat, t: nat)
    requires Flatten(lines) == Range(0, n) == Flatten(units) && ForcedBreaks(lines, units, fits)
    requires at < |units| && fits(units[at]) && 0 < k < |lines| && lines[k] != [] && lines[k][0] == t && t in units[at]
    ensures t == units[at][0]
  {
    assert Forced(lines[k - 1], lines[k], units, fits);
    var u :| u in units && ForcedBy(lines[k - 1], t, u, fits);
    var i :| 0 <= i < |units| && units[i] == u;
    PartsAreDisjoint(units, n, at, i, t);
  }

  /** A left-to-right run that fits on a line is never split across lines. */
  lemma FittingUnitStaysTogether(text: string, layout: Layout, at: nat, a: nat, b: nat)
    requires at < |UnitsIn(text, layout)| && LineFits(Split(text), UnitsIn(text, layout)[at], layout)
    requires a <= b && a in UnitsIn(text, layout)[at] && b in UnitsIn(text, layout)[at]
    ensures SameLine(WrapIndexes(text, layout), a, b)
  {
    hide Split;
    var units, lines, n := UnitsIn(text, layout), WrapIndexes(text, layout), |Split(text)|;
    WrapIsGood(text, layout);
    UnitsPartition(Directions(Split(text), ParagraphDirection(text, layout.cls), layout.cls));
    PartOfRange(units, n, at);
    var from, to := Offset(units, at), Offset(units, at + 1);
    InRange(from, to, a);
    InRange(from, to, b);
    var i := PartHolding(lines, n, a);
    var k := PartHolding(lines, n, b);
    if i < k {
      var t := Offset(lines, k);
      OffsetsGrow(lines, i + 1, k);
      InRange(from, to, t);
      LineStarts(lines, n, k);
      NoBreakInside(lines, units, n, FitOf(text, layout), at, k, t);
    } else if k < i {
      OffsetsGrow(lines, k + 1, i);
    }
    assert lines[i] in lines;
  }

  lemma LineStarts(lines: seq<seq<nat>>, n: nat, k: nat)
    requires Flatten(lines) == Range(0, n) && k < |lines| && Offset(lines, k) < Offset(lines, k + 1)
    ensures lines[k] != [] && lines[k][0] == Offset(lines, k)
  {
    PartOfRange(lines, n, k);
  }

  function PickEach(tokens: seq<string>, lines: seq<seq<nat>>): seq<seq<string>> {
    MapSeq(lines, (line: seq<nat>) => Pick(tokens, line))
  }

  lemma {:induction false} PickFlatten(tokens: seq<string>, lines: seq<seq<nat>>)
    ensures Flatten(PickEach(tokens, lines)) == Pick(tokens, Flatten(lines))
  {
    if lines != [] {
      PickFlatten(tokens, lines[1..]);
      assert PickEach(tokens, lines)[1..] == PickEach(tokens, lines[1..]);
    }
  }

  lemma WrappedLinesAreJoins(text: string, layout: Layout)
    ensures var tokens, lines := Split(text), WrapIndexes(text, layout);
      && WrappedLines(text, layout) == JoinEach(PickEach(tokens, lines))
      && Flatten(PickEach(tokens, lines)) == tokens
      && lines != [] && forall line <- PickEach(tokens, lines) :: line != []
  {
    hide Split;
    var tokens, lines := Split(text), WrapIndexes(text, layout);
    WrapIsGood(text, layout);
    PickFlatten(tokens, lines);
    assert Pick(tokens, Range(0, |tokens|)) == tokens;
    forall line | line in PickEach(tokens, lines) ensures line != [] {
      var i :| 0 <= i < |lines| && PickEach(tokens, lines)[i] == line;
      assert lines[i] in lines;
    }
  }

  /** Wrapping loses nothing: the lines joined by spaces are the text. */
  lemma WrapJoinsBack(text: string, layout: Layout)
    ensures Join(WrappedLines(text, layout), " ") == text
  {
    WrappedLinesAreJoins(text, layout);
    JoinLines(PickEach(Split(text), WrapIndexes(text, layout)));
    JoinSplit(text);
  }
}
