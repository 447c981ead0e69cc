/** What a viewer of the serialized captions sees of each event. */
module AssTheorems {
  import opened AssBody
  import opened AssEmphasis
  import opened AssDialogue
  import opened AssDocument
  import opened AssEscape
  import opened AssLines
  import opened AssTime
  import opened Bidi
  import opened CaptionSegments
  import opened CaptionTiming
  import opened CaptionWrap
  import opened Rounding
  import opened Sequences
  import opened Sorting
  import opened Texts
  import opened Wrappers

  lemma {:induction false} InFlatten<T>(parts: seq<seq<T>>, x: T)
    ensures x in Flatten(parts) <==> exists p <- parts :: x in p
  {
    if parts != [] {
      InFlatten(parts[1..], x);
      assert parts == [parts[0]] + parts[1..];
    }
  }

  lemma HazardFreeTokens(lines: seq<seq<string>>)
    ensures HazardFree(lines) <==> forall t <- Flatten(lines) :: !Hazard(t)
  {
    forall t ensures t in Flatten(lines) <==> exists p <- lines :: t in p {
      InFlatten(lines, t);
    }
  }

  lemma WrappedEventLines(text: string, layout: Layout)
    ensures var lines := PickEach(Split(text), LineTokens(text, WrappedLines(text, layout)));
      && JoinEach(lines) == WrappedLines(text, layout)
      && Flatten(lines) == Split(text) && Nonempty(lines)
  {
    TokenLinesRecoverWrapping(text, layout);
    WrappedLinesAreJoins(text, layout);
  }

  /**
   The static dialogue of a wrapped event shows exactly the event's lines exactly when no token of
   the text hides `N`, `n` or `h` from the backslash before it by dropped characters.
   */
  lemma StaticEventShowsItsLinesIff(e: Draft, colors: Colors, layout: Layout)
    requires e.lines == WrappedLines(e.text, layout)
    ensures var glyphs := Read(TextFor(e, colors, None));
      && glyphs != [] && glyphs[0] == Override(if e.upper then "\\an8" else "\\an2")
      && (ShowsLines(glyphs[1..], e.lines) <==> forall t <- Split(e.text) :: !Hazard(t))
  {
    var lines := PickEach(Split(e.text), LineTokens(e.text, e.lines));
    WrappedEventLines(e.text, layout);
    TextForBodies(e, colors);
    StaticBodyShowsLinesIff(e.upper, lines);
    HazardFreeTokens(lines);
  }

  lemma BodiesAgreeIff(upper: bool, tokens: seq<string>, indexes: seq<seq<nat>>, active: nat, colors: Colors)
    requires BracelessColors(colors) && indexes != [] && forall l <- indexes :: l != []
    ensures Plain(Read(ActiveBody(upper, tokens, indexes, active, colors))) == Plain(Read(StaticBody(upper, PickEach(tokens, indexes))))
            <==> forall l <- indexes :: BackslashFree(tokens, l)
  {
    var lines := PickEach(tokens, indexes);
    forall l | l in lines ensures l != [] {
      var i :| 0 <= i < |lines| && lines[i] == l;
      assert indexes[i] in indexes;
    }
    ActiveBodyShowsStaticIff(upper, tokens, indexes, active, colors);
    StaticIsPlain(upper, lines);
  }

  /** Lines of all tokens hold a token just when the text does. */
  lemma LinesBackslashFree(tokens: seq<string>, indexes: seq<seq<nat>>)
    requires Flatten(indexes) == Range(0, |tokens|)
    ensures (forall l <- indexes :: BackslashFree(tokens, l)) <==> forall t <- tokens :: !EndsInBackslash(t)
  {
    if forall l <- indexes :: BackslashFree(tokens, l) {
      forall t | t in tokens ensures !EndsInBackslash(t) {
        var k :| 0 <= k < |tokens| && tokens[k] == t;
        OnSomeLine(tokens, indexes, k);
      }
    } else {
      var l :| l in indexes && !BackslashFree(tokens, l);
      var i :| i in l && EndsInBackslash(TokenAt(tokens, i));
      assert i < |tokens| && tokens[i] in tokens;
    }
  }

  lemma OnSomeLine(tokens: seq<string>, indexes: seq<seq<nat>>, k: nat)
    requires Flatten(indexes) == Range(0, |tokens|) && k < |tokens|
    requires forall l <- indexes :: BackslashFree(tokens, l)
    ensures !EndsInBackslash(tokens[k])
  {
    assert Range(0, |tokens|)[k] == k;
    InFlatten(indexes, k);
    var l :| l in indexes && k in l;
    assert TokenAt(tokens, k) == tokens[k];
  }

  lemma WrappedIndexesNonempty(text: string, layout: Layout)
    ensures var indexes := LineTokens(text, WrappedLines(text, layout));
      indexes != [] && forall l <- indexes :: l != []
  {
    TokenLinesRecoverWrapping(text, layout);
    WrapIsGood(text, layout);
    WrappedLinesAreJoins(text, layout);
  }

  /** The emphasized states of an event show what its static state shows exactly when no token ends in a backslash. */
  lemma EmphasisShowsTheSameLinesIff(e: Draft, colors: Colors, layout: Layout, active: nat)
    requires e.lines == WrappedLines(e.text, layout) && BracelessColors(colors)
    ensures Plain(Read(TextFor(e, colors, Some(active)))) == Plain(Read(TextFor(e, colors, None)))
            <==> forall t <- Split(e.text) :: !EndsInBackslash(t)
  {
    hide StaticBody;
    WrappedIndexesNonempty(e.text, layout);
    TextForBodies(e, colors);
    BodiesAgreeIff(e.upper, Split(e.text), LineTokens(e.text, e.lines), active, colors);
    TokenLinesPartition(e.text, e.lines);
    LinesBackslashFree(Split(e.text), LineTokens(e.text, e.lines));
  }

  lemma StaticIsPlain(upper: bool, lines: seq<seq<string>>)
    requires Nonempty(lines)
    ensures Plain(Read(StaticBody(upper, lines))) == Broken(LineGlyphs(lines))
  {
    var parts := LineGlyphs(lines);
    StaticBodyReads(upper, lines);
    FlatMapConcat([Override(Placement(upper))], Broken(parts), PlainOne);
    FlatMapOne(Override(Placement(upper)), PlainOne);
    PlainBroken(parts);
    forall i | 0 <= i < |parts| ensures PlainEach(parts)[i] == parts[i] {
      PlainLine(lines[i]);
    }
    assert PlainEach(parts) == parts;
  }

  lemma PlainLine(tokens: seq<string>)
    ensures Plain(Spaced(ReadEach(tokens))) == Spaced(ReadEach(tokens))
  {
    var parts := ReadEach(tokens);
    PlainSpaced(parts);
    forall i | 0 <= i < |parts| ensures PlainEach(parts)[i] == parts[i] {
      ReadBackHasNoOverride(tokens[i]);
      PlainKeeps(parts[i]);
    }
    assert PlainEach(parts) == parts;
  }

  // ---- nothing flashes by ----------------------------------------------------------------------

  lemma KeptStartsNonnegative(drafts: seq<Draft>, space: char -> bool)
    requires forall d <- drafts :: 0.0 <= d.start
    ensures forall e <- KeptEvents(drafts, space) :: 0.0 <= e.start
  {
    var s := SortBy(drafts, DraftLe);
    var t := Trimmed(s);
    SortHasSameElements(drafts, DraftLe);
    SortHasSameElements(MapSeq(t, EventOf), DraftLe);
    forall e | e in MapSeq(t, EventOf) ensures 0.0 <= e.start {
      var i :| 0 <= i < |t| && MapSeq(t, EventOf)[i] == e;
      TrimmedIndex(s, i);
      assert s[i] in drafts;
      Round4IsMonotone(0.0, s[i].start);
      assert Round4(0.0) == 0.0;
    }
  }

  lemma StateLasts(s: State)
    requires 0.0 <= s.start && s.start + 0.01 < s.end
    ensures Stamped(DialogueOf(s, true)) && ParseTime(FormatTime(s.start)) < ParseTime(FormatTime(s.end))
  {
    FormatParses(Centiseconds(s.start));
    FormatParses(Centiseconds(s.end));
    CentisecondsSeparate(s.start, s.end);
  }

  lemma StatesLast(e: Draft, style: Style, cls: Classes, s: State)
    requires 0.0 <= e.start && e.end - e.start >= MIN_EVENT_SECONDS - FLOAT_EPSILON && s in States(e, style, cls)
    ensures 0.0 <= s.start && s.start + 0.01 < s.end
  {
    var states := States(e, style, cls);
    StatesTile(e, style, cls);
    StatesFollow(e, style, cls);
    var i :| 0 <= i < |states| && states[i] == s;
    if |states| == 1 {
      assert s == states[0];
    }
  }

  lemma {:induction false} AllStatesLast(events: seq<Draft>, style: Style, cls: Classes)
    requires forall e <- events :: 0.0 <= e.start && e.end - e.start >= MIN_EVENT_SECONDS - FLOAT_EPSILON
    ensures forall s <- AllStates(events, style, cls) :: 0.0 <= s.start && s.start + 0.01 < s.end
  {
    if events != [] {
      assert events[0] in events && forall e <- events[1..] :: e in events;
      AllStatesLast(events[1..], style, cls);
      forall s | s in States(events[0], style, cls) ensures 0.0 <= s.start && s.start + 0.01 < s.end {
        StatesLast(events[0], style, cls, s);
      }
    }
  }

  /** For nonnegative times every dialogue line, as written, ends after it starts. */
  lemma DocumentIntervalsLast(drafts: seq<Draft>, space: char -> bool, style: Style, cls: Classes)
    requires Forward(drafts) && forall d <- drafts :: 0.0 <= d.start
    ensures forall d <- AllDialogues(KeptEvents(drafts, space), style, cls) ::
              Stamped(d) && ParseTime(d.start) < ParseTime(d.end)
  {
    var kept := KeptEvents(drafts, space);
    KeptStartsNonnegative(drafts, space);
    KeptEventsFollow(drafts, space);
    AllStatesLast(kept, style, cls);
    DialoguesShowStates(kept, style, cls);
    var dialogues, states := AllDialogues(kept, style, cls), AllStates(kept, style, cls);
    forall d | d in dialogues ensures Stamped(d) && ParseTime(d.start) < ParseTime(d.end) {
      var i :| 0 <= i < |dialogues| && dialogues[i] == d;
      assert Stamps(dialogues[i], states[i]) && states[i] in states;
      StateLasts(states[i]);
    }
  }

  /** The drafts of fragments run forward, so the results above hold of every caption plan. */
  lemma DraftsRunForward(fragments: seq<seq<Word>>, drafts: seq<Draft>, block: int, spanEnd: real, upper: bool, limits: Limits)
    requires |drafts| == |fragments|
    requires forall i | 0 <= i < |fragments| :: fragments[i] != [] && drafts[i] == DraftOf(fragments[i], block, spanEnd, upper, limits)
    ensures Forward(drafts)
    ensures forall i | 0 <= i < |drafts| :: drafts[i].lines == WrappedLines(drafts[i].text, limits.layout)
  {
    forall d | d in drafts ensures d.start <= d.end {
      var i :| 0 <= i < |drafts| && drafts[i] == d;
      assert fragments[i] != [];
    }
  }
}
