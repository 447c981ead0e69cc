/** Dialogue lines, the document they make, and what a reader of the document finds. */
module AssDialogue {
  import opened AssDocument
  import opened AssTime
  import opened Bidi
  import opened CaptionTiming
  import opened Sequences
  import opened Sorting
  import opened Texts

  datatype Dialogue = Dialogue(start: string, end: string, style: string, text: string)

  function StyleName(upper: bool): string { if upper then "CaptionUpper" else "CaptionLower" }

  function DialogueOf(s: State, upper: bool): Dialogue {
    Dialogue(FormatTime(s.start), FormatTime(s.end), StyleName(upper), s.text)
  }

  /** Fields, each closed by a comma, and the text that ends the line. */
  function WithFields(fields: seq<string>, text: string): string {
    if fields == [] then text else fields[0] + "," + WithFields(fields[1..], text)
  }

  /** Layer, start, end, style, then an empty name, three zero margins and an empty effect. */
  function FieldsOf(d: Dialogue): seq<string> {
    ["Dialogue: 0", d.start, d.end, d.style, "", "0", "0", "0", ""]
  }

  function Render(d: Dialogue): string { WithFields(FieldsOf(d), d.text) }

  ghost function DialoguesOf(e: Draft, style: Style, cls: Classes): seq<Dialogue> {
    DialoguesAt(States(e, style, cls), e.upper)
  }

  ghost function AllDialogues(events: seq<Draft>, style: Style, cls: Classes): seq<Dialogue> {
    if events == [] then [] else DialoguesOf(events[0], style, cls) + AllDialogues(events[1..], style, cls)
  }

  function RenderEach(dialogues: seq<Dialogue>): seq<string> { MapSeq(dialogues, Render) }

  /** The document: the header, one line per dialogue, a line feed after each. */
  method BuildAssText(events: seq<Draft>, style: Style, cls: Classes, header: seq<string>) returns (document: string)
    ensures document == Join(header + RenderEach(AllDialogues(SortBy(events, DraftLe), style, cls)), "\n") + "\n"
  {
    var lines := DialogueLines(SortBy(events, DraftLe), style, cls);
    document := Join(header + lines, "\n") + "\n";
  }

  method DialogueLines(ordered: seq<Draft>, style: Style, cls: Classes) returns (lines: seq<string>)
    ensures lines == RenderEach(AllDialogues(ordered, style, cls))
  {
    hide DialoguesOf;
    lines := [];
    for i := 0 to |ordered|
      invariant lines + RenderEach(AllDialogues(ordered[i..], style, cls)) == RenderEach(AllDialogues(ordered, style, cls))
    {
      var more := EventLines(ordered[i], style, cls);
      RenderStep(lines, ordered, i, style, cls);
      lines := lines + more;
    }
    assert RenderEach(AllDialogues(ordered[|ordered|..], style, cls)) == [];
  }

  lemma RenderStep(lines: seq<string>, ordered: seq<Draft>, i: nat, style: Style, cls: Classes)
    requires i < |ordered|
    ensures lines + RenderEach(AllDialogues(ordered[i..], style, cls))
         == (lines + RenderEach(DialoguesOf(ordered[i], style, cls)))
            + RenderEach(AllDialogues(ordered[i + 1..], style, cls))
  {
    var these, rest := DialoguesOf(ordered[i], style, cls), AllDialogues(ordered[i + 1..], style, cls);
    FirstDialogues(ordered[i..], style, cls);
    assert ordered[i..][1..] == ordered[i + 1..];
    MapSeqConcat(these, rest, Render);
    Associate(lines, RenderEach(these), RenderEach(rest));
  }

  lemma FirstDialogues(events: seq<Draft>, style: Style, cls: Classes)
    requires events != []
    ensures AllDialogues(events, style, cls) == DialoguesOf(events[0], style, cls) + AllDialogues(events[1..], style, cls)
  {
  }

  function ForPlacement(upper: bool): State -> Dialogue { (s: State) => DialogueOf(s, upper) }

  function DialoguesAt(states: seq<State>, upper: bool): seq<Dialogue> { MapSeq(states, ForPlacement(upper)) }

  lemma OneMoreDialogue(states: seq<State>, i: nat, upper: bool)
    requires i < |states|
    ensures RenderEach(DialoguesAt(states[..i + 1], upper))
         == RenderEach(DialoguesAt(states[..i], upper)) + [Render(DialogueOf(states[i], upper))]
  {
    assert states[..i + 1] == states[..i] + [states[i]];
    MapSeqSnoc(states[..i], states[i], ForPlacement(upper));
    MapSeqSnoc(DialoguesAt(states[..i], upper), ForPlacement(upper)(states[i]), Render);
  }

  method EventLines(e: Draft, style: Style, cls: Classes) returns (lines: seq<string>)
    ensures lines == RenderEach(DialoguesOf(e, style, cls))
  {
    var states := ActiveWordStates(e, style, cls);
    lines := [];
    for i := 0 to |states|
      invariant lines == RenderEach(DialoguesAt(states[..i], e.upper))
    {
      OneMoreDialogue(states, i, e.upper);
      lines := lines + [Render(DialogueOf(states[i], e.upper))];
    }
    assert states[..|states|] == states;
  }

  // ---- a dialogue line read back --------------------------------------------------------------

  function Field(s: string): string { s[..IndexOf(s, ',')] }

  function AfterField(s: string): string {
    if IndexOf(s, ',') < |s| then s[IndexOf(s, ',') + 1..] else []
  }

  /** The line without its first fields. */
  function Skip(s: string, fields: nat): string
    decreases fields
  {
    if fields == 0 then s else Skip(AfterField(s), fields - 1)
  }

  /** The fields after the layer: start, end, style, five more, and the rest of the line. */
  function ReadDialogue(line: string): Dialogue {
    Dialogue(Field(Skip(line, 1)), Field(Skip(line, 2)), Field(Skip(line, 3)), Skip(line, 9))
  }

  predicate Commaless(s: string) { ',' !in s }

  lemma FieldReads(field: string, rest: string)
    requires Commaless(field)
    ensures Field(field + "," + rest) == field && AfterField(field + "," + rest) == rest
  {
    IndexAfter(field, ',', rest);
    var s := field + "," + rest;
    assert s[..|field|] == field && s[|field| + 1..] == rest;
  }

  lemma {:induction false} SkipReads(fields: seq<string>, text: string, n: nat)
    requires n <= |fields| && forall f <- fields :: Commaless(f)
    ensures Skip(WithFields(fields, text), n) == WithFields(fields[n..], text)
  {
    if n > 0 {
      assert fields[0] in fields && forall f <- fields[1..] :: f in fields;
      FieldReads(fields[0], WithFields(fields[1..], text));
      SkipReads(fields[1..], text, n - 1);
      assert fields[1..][n - 1..] == fields[n..];
    }
  }

  lemma FieldAt(fields: seq<string>, text: string, n: nat)
    requires n < |fields| && forall f <- fields :: Commaless(f)
    ensures Field(Skip(WithFields(fields, text), n)) == fields[n]
  {
    SkipReads(fields, text, n);
    assert fields[n] in fields;
    FieldReads(fields[n], WithFields(fields[n + 1..], text));
    assert fields[n..][1..] == fields[n + 1..];
  }

  /** A dialogue line reads back as the dialogue it was written from, commas in its text included. */
  lemma DialogueReadsBack(d: Dialogue)
    requires Commaless(d.start) && Commaless(d.end) && Commaless(d.style)
    ensures ReadDialogue(Render(d)) == d
  {
    var fields := FieldsOf(d);
    forall f | f in fields ensures Commaless(f) {
    }
    FieldAt(fields, d.text, 1);
    FieldAt(fields, d.text, 2);
    FieldAt(fields, d.text, 3);
    SkipReads(fields, d.text, 9);
    assert fields[9..] == [];
  }

  lemma {:induction false} DecimalIsCommaless(n: nat)
    ensures Commaless(Decimal(n))
  {
    if n >= 10 {
      DecimalIsCommaless(n / 10);
    }
  }

  lemma TwoIsCommaless(n: nat)
    requires n < 100
    ensures Commaless(Two(n))
  {
  }

  lemma CommalessConcat(a: string, b: string)
    requires Commaless(a) && Commaless(b)
    ensures Commaless(a + b)
  {
  }

  lemma TimeIsCommaless(n: nat)
    ensures Commaless(FormatCentiseconds(n))
  {
    var seconds := n / 100;
    DecimalIsCommaless(seconds / 3600);
    TwoIsCommaless(seconds / 60 % 60);
    TwoIsCommaless(seconds % 60);
    TwoIsCommaless(n % 100);
    assert Commaless(":") && Commaless(".");
    hide Decimal, Two, Commaless;
    var hours := Decimal(seconds / 3600) + ":";
    CommalessConcat(Decimal(seconds / 3600), ":");
    var minutes := hours + Two(seconds / 60 % 60);
    CommalessConcat(hours, Two(seconds / 60 % 60));
    CommalessConcat(minutes, ":");
    CommalessConcat(minutes + ":", Two(seconds % 60));
    CommalessConcat(minutes + ":" + Two(seconds % 60), ".");
    CommalessConcat(minutes + ":" + Two(seconds % 60) + ".", Two(n % 100));
  }

  /** Every line of the document reads back as its state: its times to the centisecond, its style and its text. */
  lemma StateLineReadsBack(s: State, upper: bool)
    ensures var d := ReadDialogue(Render(DialogueOf(s, upper)));
      && d == DialogueOf(s, upper) && d.text == s.text && d.style == (if upper then "CaptionUpper" else "CaptionLower")
      && ParseTime(d.start) == Centiseconds(s.start) && ParseTime(d.end) == Centiseconds(s.end)
  {
    FormatParses(Centiseconds(s.start));
    FormatParses(Centiseconds(s.end));
    TimeIsCommaless(Centiseconds(s.start));
    TimeIsCommaless(Centiseconds(s.end));
    DialogueReadsBack(DialogueOf(s, upper));
  }

  // ---- the intervals of the whole document ------------------------------------------------------

  predicate Stamped(d: Dialogue) { |d.start| >= 9 && |d.end| >= 9 }

  /** By the time stamps as written, `a` is over when `b` starts. */
  predicate StampedBefore(a: Dialogue, b: Dialogue) {
    Stamped(a) && Stamped(b) && ParseTime(a.end) <= ParseTime(b.start)
  }

  ghost predicate StatesOf(dialogues: seq<Dialogue>, states: seq<State>) {
    |dialogues| == |states| && forall i | 0 <= i < |states| :: Stamps(dialogues[i], states[i])
  }

  predicate Stamps(d: Dialogue, s: State) { d.start == FormatTime(s.start) && d.end == FormatTime(s.end) }

  lemma StatesOfConcat(a: seq<Dialogue>, b: seq<Dialogue>, s: seq<State>, t: seq<State>)
    requires StatesOf(a, s) && StatesOf(b, t)
    ensures StatesOf(a + b, s + t)
  {
    forall i | 0 <= i < |s + t| ensures Stamps((a + b)[i], (s + t)[i]) {
      if i < |s| {
        assert Stamps(a[i], s[i]);
      } else {
        assert Stamps(b[i - |s|], t[i - |s|]);
      }
    }
  }

  lemma {:induction false} DialoguesShowStates(events: seq<Draft>, style: Style, cls: Classes)
    ensures StatesOf(AllDialogues(events, style, cls), AllStates(events, style, cls))
  {
    if events != [] {
      DialoguesShowStates(events[1..], style, cls);
      StatesOfConcat(DialoguesOf(events[0], style, cls), AllDialogues(events[1..], style, cls),
                     States(events[0], style, cls), AllStates(events[1..], style, cls));
    }
  }

  lemma StampsKeepOrder(a: real, b: real)
    requires a <= b
    ensures |FormatTime(a)| >= 9 && |FormatTime(b)| >= 9 && ParseTime(FormatTime(a)) <= ParseTime(FormatTime(b))
  {
    FormatParses(Centiseconds(a));
    FormatParses(Centiseconds(b));
    CentisecondsMonotone(a, b);
  }

  /**
   The dialogues of a whole document are in order and do not overlap, by the time stamps as written:
   through trimming, rounding, filtering, word states and formatting.
   */
  lemma DocumentIntervalsFollow(drafts: seq<Draft>, space: char -> bool, style: Style, cls: Classes)
    requires Forward(drafts)
    ensures var kept := KeptEvents(drafts, space); var dialogues := AllDialogues(SortBy(kept, DraftLe), style, cls);
      && Pairwise(dialogues, StampedBefore)
      && (forall d <- dialogues :: Stamped(d) && ParseTime(d.start) <= ParseTime(d.end))
  {
    var kept := KeptEvents(drafts, space);
    KeptEventsFollow(drafts, space);
    SortedIsUnchanged(kept, DraftLe);
    EventIntervalsFollow(kept, style, cls);
  }

  lemma EventIntervalsFollow(events: seq<Draft>, style: Style, cls: Classes)
    requires Pairwise(events, DraftBefore) && Forward(events)
    ensures Pairwise(AllDialogues(events, style, cls), StampedBefore)
    ensures forall d <- AllDialogues(events, style, cls) :: Stamped(d) && ParseTime(d.start) <= ParseTime(d.end)
  {
    hide States;
    var dialogues, states := AllDialogues(events, style, cls), AllStates(events, style, cls);
    DialoguesShowStates(events, style, cls);
    AllStatesFollow(events, style, cls);
    forall i, k | 0 <= i < k < |dialogues| ensures StampedBefore(dialogues[i], dialogues[k]) {
      assert StateBefore(states[i], states[k]) && Stamps(dialogues[i], states[i]) && Stamps(dialogues[k], states[k]);
      StampsKeepOrder(states[i].end, states[k].start);
    }
    if events != [] {
      AllStatesWithin(events, style, cls);
    }
    forall d | d in dialogues ensures Stamped(d) && ParseTime(d.start) <= ParseTime(d.end) {
      var i :| 0 <= i < |dialogues| && dialogues[i] == d;
      assert states[i] in states;
      StampsKeepOrder(states[i].start, states[i].end);
    }
  }
}
