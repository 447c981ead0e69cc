/** What a registration answers, read from the history of the key alone. */
module CandidateAnswers {
  import opened CandidateRows
  import opened Wrappers

  /** At most a millionth of a second apart. */
  ghost predicate Near(a: real, b: real) { a - b <= 0.000001 && b - a <= 0.000001 }

  ghost predicate SameSpan(a: Window, b: Window) {
    && Near(a.startTime, b.startTime) && Near(a.endTime, b.endTime)
    && a.startIndex == b.startIndex && a.endIndex == b.endIndex
  }

  /** The evidence still has the fingerprint pinned by a marker of the first version. */
  ghost predicate Pinned(m: Marker, ev: Evidence) {
    m.version == 1 && ev.fingerprint(m.window.startIndex, m.window.endIndex) == Some(m.fingerprint)
  }

  /** Current at first, and found pinned by every reanalysis since. */
  ghost predicate Stands(row: Row, steps: seq<Step>) {
    row.marker.Some? && row.current && forall s <- steps | s.Persisting? :: Pinned(row.marker.value, s.ev)
  }

  /** The marker was made for this very window, key and evidence. */
  ghost predicate MadeFor(m: Marker, ev: Evidence, window: Window, key: Key) {
    && Pinned(m, ev) && m.identity == ev.identity && m.key == key
    && SameSpan(m.window, window) && m.window.segments == window.segments
  }

  lemma StandsIsCurrent(rows: map<Key, Row>, steps: seq<Step>, k: Key)
    requires Owned(rows, k)
    ensures Stands(rows[k], steps) <==> rows[k].current && EvidenceHolds(rows[k].marker.value, steps)
  {
  }

  /**
   After any run, an operator's key is answered by the standing of its row and by what its marker was
   made for; the two evidence checks of the source amount to the one in `MadeFor`.
   */
  lemma OperatorKeyAnswers(rows: map<Key, Row>, steps: seq<Step>, ev: Evidence, window: Window, key: Key)
    requires Owned(rows, key) && ev.fingerprint(window.startIndex, window.endIndex).Some?
    ensures var answer := RegisterOutcome(Run(rows, steps), ev, window, key);
      var stands, same := Stands(rows[key], steps), MadeFor(rows[key].marker.value, ev, window, key);
      && (answer == Refused(StaleOperator) <==> !stands)
      && (answer == Refused(RawIdentity) <==> stands && !same)
      && (answer == ReusedOperator <==> stands && same)
  {
    OperatorRowEndures(rows, steps, key);
    StandsIsCurrent(rows, steps, key);
    hide Run, EvidenceHolds, Stands;
  }

  /**
   A window registered for a free key is reused ever after exactly for the same window under the same
   identity and fingerprint, as long as no reanalysis in between found the fingerprint changed.
   */
  lemma CreatedKeyAnswers(rows: map<Key, Row>, ev: Evidence, window: Window, key: Key, reason: nat, payload: nat,
                          steps: seq<Step>, ev': Evidence, window': Window)
    requires RegisterOutcome(rows, ev, window, key) == Created
    ensures var printed := ev.fingerprint(window.startIndex, window.endIndex);
      var after := Run(Registered(rows, ev, window, key, reason, payload), steps);
      && key !in rows && printed.Some?
      && (RegisterOutcome(after, ev', window', key) == ReusedOperator
          <==> && (forall s <- steps | s.Persisting? :: s.ev.fingerprint(window.startIndex, window.endIndex) == printed)
               && SameSpan(window, window') && window.segments == window'.segments && ev.identity == ev'.identity
               && ev'.fingerprint(window'.startIndex, window'.endIndex) == printed)
  {
    var r := Registered(rows, ev, window, key, reason, payload);
    var m := r[key].marker.value;
    assert m.window == window && m.version == 1 && m.key == key && m.identity == ev.identity;
    assert Owned(r, key) && r[key].current;
    assert Some(m.fingerprint) == ev.fingerprint(window.startIndex, window.endIndex);
    if ev'.fingerprint(window'.startIndex, window'.endIndex).Some? {
      OperatorKeyAnswers(r, steps, ev', window', key);
      hide Run, Registered, RegisterOutcome;
    }
  }

  // ---- automatic keys -------------------------------------------------------------------------------

  ghost predicate OnlyRegisters(steps: seq<Step>) { forall s <- steps :: s.Registering? }

  lemma RegistersKeep(rows: map<Key, Row>, step: Step, key: Key)
    requires key in rows && step.Registering?
    ensures After(rows, step) == Registered(rows, step.ev, step.window, step.key, step.reason, step.payload)
    ensures key in After(rows, step) && After(rows, step)[key] == rows[key]
  {
  }

  /** Registrations never change a row that is already there. */
  lemma {:induction false} RowsSurviveRegisters(rows: map<Key, Row>, steps: seq<Step>, key: Key)
    requires key in rows && OnlyRegisters(steps)
    ensures key in Run(rows, steps) && Run(rows, steps)[key] == rows[key]
  {
    if steps != [] {
      var front, last := steps[..|steps| - 1], steps[|steps| - 1];
      RowsSurviveRegisters(rows, front, key);
      RegistersKeep(Run(rows, front), last, key);
    }
  }

  lemma {:induction false} FieldsAreDrafted(drafts: seq<Draft>, i: nat)
    requires DistinctKeys(drafts) && i < |drafts|
    ensures drafts[i].key in Emitted(drafts) && FieldsFor(drafts, drafts[i].key) == drafts[i].fields
  {
    assert drafts[i] in drafts;
    if i > 0 {
      assert drafts[0].key != drafts[i].key;
      FieldsAreDrafted(drafts[1..], i - 1);
    }
  }

  /**
   A drafted key no operator owns is answered from its draft until the next reanalysis: the drafted
   window is reused and any other refused.
   */
  lemma DraftedKeyAnswers(rows: map<Key, Row>, drafts: seq<Draft>, at: Evidence, i: nat, steps: seq<Step>,
                          ev: Evidence, window: Window)
    requires DistinctKeys(drafts) && i < |drafts| && !Owned(rows, drafts[i].key) && OnlyRegisters(steps)
    requires ev.fingerprint(window.startIndex, window.endIndex).Some?
    ensures var answer := RegisterOutcome(Run(Persisted(rows, drafts, at), steps), ev, window, drafts[i].key);
      var drafted := drafts[i].fields.window;
      var same := SameSpan(drafted, window) && drafted.segments == window.segments && drafted.excerpt == window.excerpt;
      && (answer == ReusedAutomatic <==> same)
      && (answer == Refused(DifferentWindow) <==> !same)
  {
    FieldsAreDrafted(drafts, i);
    RowsSurviveRegisters(Persisted(rows, drafts, at), steps, drafts[i].key);
  }

  /** A key dropped by a reanalysis is refused as stale until the next one. */
  lemma DroppedKeyAnswers(rows: map<Key, Row>, drafts: seq<Draft>, at: Evidence, key: Key, steps: seq<Step>,
                          ev: Evidence, window: Window)
    requires key in rows && !Owned(rows, key) && (forall d <- drafts :: d.key != key) && OnlyRegisters(steps)
    requires ev.fingerprint(window.startIndex, window.endIndex).Some?
    ensures RegisterOutcome(Run(Persisted(rows, drafts, at), steps), ev, window, key) == Refused(StaleAutomatic)
  {
    RowsSurviveRegisters(Persisted(rows, drafts, at), steps, key);
  }

  /** Evidence without the segment range is invalid for every key, and only then; a key without a row is created. */
  lemma AbsentKeyAnswers(rows: map<Key, Row>, ev: Evidence, window: Window, key: Key)
    ensures var answer := RegisterOutcome(rows, ev, window, key);
      var valid := ev.fingerprint(window.startIndex, window.endIndex).Some?;
      && (answer == InvalidEvidence <==> !valid) && (answer == Created <==> valid && key !in rows)
  {
  }

  // ---- drafts that meet an operator's row ------------------------------------------------------------

  /** The `i`-th draft falls on an operator's row for the same span, over all segments of that span. */
  ghost predicate MeetsOwnWindow(rows: map<Key, Row>, drafts: seq<Draft>, i: int) {
    && 0 <= i < |drafts| && drafts[i].key in rows && rows[drafts[i].key].marker.Some?
    && var w, own := drafts[i].fields.window, rows[drafts[i].key].marker.value.window;
       SameSpan(own, w)
       && |own.segments| == (if w.startIndex <= w.endIndex then w.endIndex - w.startIndex + 1 else 0)
       && forall k | 0 <= k < |own.segments| :: own.segments[k] == w.startIndex + k
  }

  ghost function Meeting(rows: map<Key, Row>, drafts: seq<Draft>): set<int> {
    set i | 0 <= i < |drafts| && MeetsOwnWindow(rows, drafts, i)
  }

  ghost function OnOwned(rows: map<Key, Row>, drafts: seq<Draft>): set<int> {
    set i | 0 <= i < |drafts| && drafts[i].key in rows && rows[drafts[i].key].marker.Some?
  }

  lemma DraftMatchesIff(rows: map<Key, Row>, drafts: seq<Draft>, i: nat)
    requires i < |drafts| && Owned(rows, drafts[i].key)
    ensures DraftMatches(rows[drafts[i].key], drafts[i]) <==> MeetsOwnWindow(rows, drafts, i)
  {
    var w, own := drafts[i].fields.window, rows[drafts[i].key].marker.value.window;
    var all := Consecutive(w.startIndex, w.endIndex);
    assert own.segments == all <==>
           |own.segments| == |all| && forall k | 0 <= k < |own.segments| :: own.segments[k] == all[k];
  }

  /** The counts of a reanalysis: drafts applied, met with their own window, and turned away from another. */
  lemma {:induction false} CountsMean(rows: map<Key, Row>, drafts: seq<Draft>)
    ensures var c := CountsOf(rows, drafts);
      && c.matched == |Meeting(rows, drafts)| && c.matched + c.collided == |OnOwned(rows, drafts)|
      && c.applied == |drafts| - |OnOwned(rows, drafts)|
  {
    if drafts == [] {
      assert Meeting(rows, drafts) == {} && OnOwned(rows, drafts) == {};
    } else {
      var last := |drafts| - 1;
      var front := drafts[..last];
      CountsMean(rows, front);
      MeetingSnoc(rows, drafts);
      OnOwnedSnoc(rows, drafts);
      if Owned(rows, drafts[last].key) {
        DraftMatchesIff(rows, drafts, last);
      }
      hide MeetsOwnWindow, DraftMatches;
      assert last in Meeting(rows, drafts) <==> MeetsOwnWindow(rows, drafts, last);
      assert last in OnOwned(rows, drafts) <==> Owned(rows, drafts[last].key);
      hide Meeting, OnOwned;
    }
  }

  lemma MeetingSnoc(rows: map<Key, Row>, drafts: seq<Draft>)
    requires drafts != []
    ensures var last: int := |drafts| - 1; Meeting(rows, drafts) - {last} == Meeting(rows, drafts[..last])
  {
    var last: int := |drafts| - 1;
    var front := drafts[..last];
    forall i | 0 <= i < last ensures MeetsOwnWindow(rows, front, i) <==> MeetsOwnWindow(rows, drafts, i) {
      assert front[i] == drafts[i];
    }
    hide MeetsOwnWindow;
    forall i: int ensures i in Meeting(rows, drafts) - {last} <==> i in Meeting(rows, front) {}
  }

  lemma OnOwnedSnoc(rows: map<Key, Row>, drafts: seq<Draft>)
    requires drafts != []
    ensures var last: int := |drafts| - 1; OnOwned(rows, drafts) - {last} == OnOwned(rows, drafts[..last])
  {
    var last: int := |drafts| - 1;
    var front := drafts[..last];
    forall i: int ensures i in OnOwned(rows, drafts) - {last} <==> i in OnOwned(rows, front) {
      assert 0 <= i < last ==> front[i] == drafts[i];
    }
  }
}
