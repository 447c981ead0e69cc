/** The dialogue lines of a caption plan: word states, time stamps, and the document they make. */
module AssDocument {
  import opened AssBody
  import opened AssLines
  import opened Bidi
  import opened CaptionTiming
  import opened CaptionWrap
  import opened Sequences
  import opened Sorting
  import opened Texts
  import opened Wrappers

  datatype Style = Style(emphasis: bool, colors: Colors)

  // ---- when word emphasis is allowed ------------------------------------------------------

  /** A left-to-right paragraph none of whose tokens is right-to-left. */
  ghost predicate EmphasisSafe(text: string, cls: Classes) {
    ParagraphDirection(text, cls).LTR? && forall t <- Split(text) :: TokenDirection(t, cls) != Some(RTL)
  }

  method ActiveEmphasisSafe(text: string, cls: Classes) returns (safe: bool)
    ensures safe == EmphasisSafe(text, cls)
  {
    var direction := ScanDirection(text, cls);
    if direction != LTR {
      return false;
    }
    var tokens := Split(text);
    for i := 0 to |tokens|
      invariant forall k | 0 <= k < i :: TokenDirection(tokens[k], cls) != Some(RTL)
    {
      if tokens[i] != [] && TokenDirection(tokens[i], cls) == Some(RTL) {
        return false;
      }
    }
    return true;
  }

  lemma {:induction false} CharInToken(text: string, c: char)
    requires c in text && c != ' '
    ensures exists t <- Split(text) :: c in t
  {
    var rest, tokens := Split(text[1..]), Split(text);
    assert tokens == if text[0] == ' ' then [[]] + rest else [[text[0]] + rest[0]] + rest[1..];
    if text[0] == c {
      hide Split;
      assert tokens[0] in tokens && tokens[0] == [c] + rest[0];
    } else {
      CharInToken(text[1..], c);
      hide Split;
      var t :| t in rest && c in t;
      var k :| 0 <= k < |rest| && rest[k] == t;
      var at := if text[0] == ' ' then k + 1 else k;
      assert tokens[at] in tokens && c in tokens[at];
    }
  }

  lemma {:induction false} TokenCharInText(text: string, t: string, c: char)
    requires t in Split(text) && c in t
    ensures c in text
  {
    if text != [] {
      var rest := Split(text[1..]);
      if t in rest {
        TokenCharInText(text[1..], t, c);
      } else if text[0] != ' ' {
        assert t == [text[0]] + rest[0];
        if c != text[0] {
          assert c in rest[0] && rest[0] in rest;
          TokenCharInText(text[1..], rest[0], c);
        }
      }
    }
  }

  /** Words are emphasized only in texts without a single right-to-left character. */
  lemma EmphasisSafeIff(text: string, cls: Classes)
    requires !IsRtl(cls(' '))
    ensures EmphasisSafe(text, cls) <==> !AnyRtl(text, cls)
  {
    if AnyRtl(text, cls) {
      var c :| c in text && IsRtl(cls(c));
      CharInToken(text, c);
      var t :| t in Split(text) && c in t;
      assert AnyRtl(t, cls);
    } else {
      forall t | t in Split(text) ensures TokenDirection(t, cls) != Some(RTL) {
        forall c | c in t ensures !IsRtl(cls(c)) {
          TokenCharInText(text, t, c);
        }
      }
    }
  }

  // ---- the text of an event -------------------------------------------------------------------

  /** One line: escaped tokens, or every token in its colors. */
  function RenderLine(tokens: seq<string>, line: seq<nat>, colors: Colors, active: Option<nat>): string {
    match active
    case None => Join(EscapedEach(Pick(tokens, line)), " ")
    case Some(i) => Join(ColoredLine(tokens, line, i, colors), " ")
  }

  function RenderLines(tokens: seq<string>, lines: seq<seq<nat>>, colors: Colors, active: Option<nat>): seq<string> {
    MapSeq(lines, (line: seq<nat>) => RenderLine(tokens, line, colors, active))
  }

  function TextFor(e: Draft, colors: Colors, active: Option<nat>): string {
    Block(Placement(e.upper))
    + Join(RenderLines(Split(e.text), LineTokens(e.text, e.lines), colors, active), "\\N")
  }

  lemma TextForBodies(e: Draft, colors: Colors)
    ensures TextFor(e, colors, None) == StaticBody(e.upper, PickEach(Split(e.text), LineTokens(e.text, e.lines)))
    ensures forall i: nat ::
              TextFor(e, colors, Some(i)) == ActiveBody(e.upper, Split(e.text), LineTokens(e.text, e.lines), i, colors)
  {
    var tokens, lines := Split(e.text), LineTokens(e.text, e.lines);
    assert RenderLines(tokens, lines, colors, None) == LineTexts(PickEach(tokens, lines));
    forall i: nat
      ensures TextFor(e, colors, Some(i)) == ActiveBody(e.upper, tokens, lines, i, colors)
    {
      assert RenderLines(tokens, lines, colors, Some(i)) == ActiveTexts(tokens, lines, i, colors);
    }
  }

  lemma RenderNext(tokens: seq<string>, lines: seq<seq<nat>>, i: nat, colors: Colors, active: Option<nat>)
    requires i < |lines|
    ensures RenderLines(tokens, lines[..i + 1], colors, active)
         == RenderLines(tokens, lines[..i], colors, active) + [RenderLine(tokens, lines[i], colors, active)]
  {
    assert lines[..i + 1] == lines[..i] + [lines[i]];
  }

  method RenderEach(tokens: seq<string>, lines: seq<seq<nat>>, colors: Colors, active: Option<nat>)
    returns (rendered: seq<string>)
    ensures rendered == RenderLines(tokens, lines, colors, active)
  {
    rendered := [];
    for i := 0 to |lines|
      invariant rendered == RenderLines(tokens, lines[..i], colors, active)
    {
      RenderNext(tokens, lines, i, colors, active);
      rendered := rendered + [RenderLine(tokens, lines[i], colors, active)];
    }
    assert lines[..|lines|] == lines;
  }

  method EventText(e: Draft, colors: Colors, active: Option<nat>) returns (text: string)
    ensures text == TextFor(e, colors, active)
  {
    var tokens, lines := TokenLines(e.text, e.lines);
    var rendered := RenderEach(tokens, lines, colors, active);
    text := Block(Placement(e.upper)) + Join(rendered, "\\N");
  }

  // ---- word states -----------------------------------------------------------------------------

  const MIN_STATE := 0.05
  const TIMING_TOLERANCE := 0.0001

  datatype State = State(start: real, end: real, text: string)

  /** The times at which the active word changes: the event's start and end, and the later words' starts. */
  function Boundary(e: Draft, i: nat): real
    requires i <= |e.words|
  {
    if i == 0 then e.start else if i == |e.words| then e.end else e.words[i].start
  }

  /** The words can be emphasized one by one. */
  ghost predicate Emphasizes(e: Draft, style: Style, cls: Classes) {
    && style.emphasis && |e.words| >= 2 && EmphasisSafe(e.text, cls)
    && |e.words| == |Split(e.text)|
    && (forall w <- e.words :: w.start < w.end)
    && -TIMING_TOLERANCE <= e.words[0].start - e.start <= TIMING_TOLERANCE
    && (forall i | 0 <= i < |e.words| :: Boundary(e, i + 1) - Boundary(e, i) >= MIN_STATE)
  }

  ghost function States(e: Draft, style: Style, cls: Classes): seq<State> {
    if Emphasizes(e, style, cls) then
      seq(|e.words|, i requires 0 <= i < |e.words| => WordState(e, style, i))
    else [State(e.start, e.end, TextFor(e, style.colors, None))]
  }

  method TimingsUsable(e: Draft) returns (ok: bool)
    requires |e.words| >= 2
    ensures ok <==>
              && (forall w <- e.words :: w.start < w.end)
              && -TIMING_TOLERANCE <= e.words[0].start - e.start <= TIMING_TOLERANCE
              && (forall i | 0 <= i < |e.words| :: Boundary(e, i + 1) - Boundary(e, i) >= MIN_STATE)
  {
    for i := 0 to |e.words|
      invariant forall k | 0 <= k < i :: e.words[k].start < e.words[k].end
    {
      if e.words[i].end <= e.words[i].start {
        assert e.words[i] in e.words;
        return false;
      }
    }
    var offset := e.words[0].start - e.start;
    if offset > TIMING_TOLERANCE || -offset > TIMING_TOLERANCE {
      return false;
    }
    for i := 0 to |e.words|
      invariant forall k | 0 <= k < i :: Boundary(e, k + 1) - Boundary(e, k) >= MIN_STATE
    {
      if Boundary(e, i + 1) - Boundary(e, i) < MIN_STATE {
        return false;
      }
    }
    return true;
  }

  method CanEmphasize(e: Draft, style: Style, cls: Classes) returns (ok: bool)
    ensures ok == Emphasizes(e, style, cls)
  {
    if !style.emphasis || |e.words| < 2 {
      return false;
    }
    var safe := ActiveEmphasisSafe(e.text, cls);
    if !safe || |e.words| != |Split(e.text)| {
      return false;
    }
    ok := TimingsUsable(e);
  }

  ghost function WordState(e: Draft, style: Style, i: nat): State
    requires i < |e.words|
  {
    State(Boundary(e, i), Boundary(e, i + 1), TextFor(e, style.colors, Some(i)))
  }

  method ActiveWordStates(e: Draft, style: Style, cls: Classes) returns (states: seq<State>)
    ensures states == States(e, style, cls)
  {
    hide TextFor, Emphasizes;
    var emphasize := CanEmphasize(e, style, cls);
    if !emphasize {
      var still := EventText(e, style.colors, None);
      return [State(e.start, e.end, still)];
    }
    states := [];
    for i := 0 to |e.words|
      invariant |states| == i && forall k | 0 <= k < i :: states[k] == WordState(e, style, k)
    {
      var text := EventText(e, style.colors, Some(i));
      states := states + [State(Boundary(e, i), Boundary(e, i + 1), text)];
    }
  }

  predicate StateBefore(a: State, b: State) { a.end <= b.start }

  /** The states of an event tile exactly its interval; emphasized ones last at least the minimum. */
  lemma StatesTile(e: Draft, style: Style, cls: Classes)
    ensures var s := States(e, style, cls);
      && s != [] && s[0].start == e.start && s[|s| - 1].end == e.end
      && (forall i | 0 < i < |s| :: s[i].start == s[i - 1].end)
      && (|s| > 1 ==> forall i | 0 <= i < |s| :: s[i].end - s[i].start >= 0.05)
  {
    hide EmphasisSafe, TextFor, Split;
  }

  /** Consecutive words start five hundredths of a second apart, from the event's start to its end. */
  ghost predicate SpokenApart(e: Draft) {
    && |e.words| >= 2 && e.words[1].start - e.start >= 0.05 && e.end - e.words[|e.words| - 1].start >= 0.05
    && forall i | 1 <= i < |e.words| - 1 :: e.words[i + 1].start - e.words[i].start >= 0.05
  }

  lemma SpokenApartIff(e: Draft)
    requires |e.words| >= 2
    ensures SpokenApart(e) <==> forall i | 0 <= i < |e.words| :: Boundary(e, i + 1) - Boundary(e, i) >= MIN_STATE
  {
    if forall i | 0 <= i < |e.words| :: Boundary(e, i + 1) - Boundary(e, i) >= MIN_STATE {
      assert Boundary(e, 0 + 1) - Boundary(e, 0) >= MIN_STATE;
      assert Boundary(e, |e.words| - 1 + 1) - Boundary(e, |e.words| - 1) >= MIN_STATE;
      forall i | 1 <= i < |e.words| - 1 ensures e.words[i + 1].start - e.words[i].start >= 0.05 {
        assert Boundary(e, i + 1) - Boundary(e, i) >= MIN_STATE;
      }
    }
  }

  /**
   An event is emphasized word by word exactly when the style asks for it, no character runs right to
   left, each token has its word, every word takes time, the first starts within a ten-thousandth of a
   second of the event and all are spoken apart.
   */
  lemma WordStatesIff(e: Draft, style: Style, cls: Classes)
    requires !IsRtl(cls(' '))
    ensures |States(e, style, cls)| > 1 <==>
              && style.emphasis && !AnyRtl(e.text, cls) && |e.words| == |Split(e.text)| && SpokenApart(e)
              && (forall w <- e.words :: w.start < w.end)
              && e.words[0].start - e.start <= 0.0001 && e.start - e.words[0].start <= 0.0001
  {
    EmphasisSafeIff(e.text, cls);
    if |e.words| >= 2 {
      SpokenApartIff(e);
    }
    hide EmphasisSafe, AnyRtl, Split, TextFor, Boundary;
  }

  lemma {:induction false} BoundariesAscend(e: Draft, i: nat, k: nat)
    requires i <= k <= |e.words|
    requires forall m | 0 <= m < |e.words| :: Boundary(e, m + 1) - Boundary(e, m) >= MIN_STATE
    ensures Boundary(e, i) <= Boundary(e, k)
  {
    if i < k {
      BoundariesAscend(e, i, k - 1);
      assert Boundary(e, k - 1 + 1) - Boundary(e, k - 1) >= MIN_STATE;
    }
  }

  lemma StatesAscend(e: Draft, style: Style, cls: Classes)
    requires Emphasizes(e, style, cls)
    ensures Pairwise(States(e, style, cls), StateBefore)
  {
    hide EmphasisSafe, TextFor, Split;
    var states := States(e, style, cls);
    forall i, k | 0 <= i < k < |states| ensures StateBefore(states[i], states[k]) {
      BoundariesAscend(e, i + 1, k);
    }
  }

  lemma StatesWithin(e: Draft, style: Style, cls: Classes)
    requires Emphasizes(e, style, cls)
    ensures forall s <- States(e, style, cls) :: e.start <= s.start <= s.end <= e.end
  {
    var states := States(e, style, cls);
    forall i | 0 <= i < |states| ensures e.start <= states[i].start <= states[i].end <= e.end {
      BoundariesAscend(e, 0, i);
      BoundariesAscend(e, i, i + 1);
      BoundariesAscend(e, i + 1, |e.words|);
    }
  }

  lemma StatesFollow(e: Draft, style: Style, cls: Classes)
    requires e.start <= e.end
    ensures Pairwise(States(e, style, cls), StateBefore)
    ensures forall s <- States(e, style, cls) :: e.start <= s.start <= s.end <= e.end
  {
    if Emphasizes(e, style, cls) {
      StatesAscend(e, style, cls);
      StatesWithin(e, style, cls);
    }
  }

  // ---- the whole plan ------------------------------------------------------------------------------

  ghost function AllStates(events: seq<Draft>, style: Style, cls: Classes): seq<State> {
    if events == [] then [] else States(events[0], style, cls) + AllStates(events[1..], style, cls)
  }

  lemma {:induction false} AllStatesWithin(events: seq<Draft>, style: Style, cls: Classes)
    requires Pairwise(events, DraftBefore) && Forward(events) && events != []
    ensures forall s <- AllStates(events, style, cls) :: events[0].start <= s.start <= s.end
  {
    assert events[0] in events && forall e <- events[1..] :: e in events;
    StatesFollow(events[0], style, cls);
    if |events| > 1 {
      AllStatesWithin(events[1..], style, cls);
      assert DraftBefore(events[0], events[1]);
    }
  }

  lemma {:induction false} AllStatesFollow(events: seq<Draft>, style: Style, cls: Classes)
    requires Pairwise(events, DraftBefore) && Forward(events)
    ensures Pairwise(AllStates(events, style, cls), StateBefore)
  {
    if events != [] {
      var first, rest := States(events[0], style, cls), AllStates(events[1..], style, cls);
      assert events[0] in events && forall e <- events[1..] :: e in events;
      StatesFollow(events[0], style, cls);
      AllStatesFollow(events[1..], style, cls);
      if |events| > 1 {
        AllStatesWithin(events[1..], style, cls);
        assert DraftBefore(events[0], events[1]);
      }
      JoinPairwise(first, rest);
    }
  }

  lemma JoinPairwise(a: seq<State>, b: seq<State>)
    requires Pairwise(a, StateBefore) && Pairwise(b, StateBefore)
    requires forall x <- a, y <- b :: StateBefore(x, y)
    ensures Pairwise(a + b, StateBefore)
  {
    var s := a + b;
    forall i, k | 0 <= i < k < |s| ensures StateBefore(s[i], s[k]) {
      if k < |a| {
        assert StateBefore(a[i], a[k]);
      } else if i >= |a| {
        assert StateBefore(b[i - |a|], b[k - |a|]);
      } else {
        assert s[i] in a && s[k] in b;
      }
    }
  }
}
