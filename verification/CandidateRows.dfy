/** Operator-owned and automatic candidate rows of one source, through registrations and reanalyses. */
module CandidateRows {
  import opened Wrappers

  type Key = nat

  const SELECTION_VERSION := 1
  const BOUND_TOLERANCE := 0.000001

  /** A window of transcript segments; `excerpt` stands for its normalized, cut-off text. */
  datatype Window = Window(startTime: real, endTime: real, startIndex: int, endIndex: int, segments: seq<int>, excerpt: nat)

  /** What a registration pins: the raw evidence it saw, by identity and span fingerprint. */
  datatype Marker = Marker(version: nat, identity: nat, window: Window, fingerprint: nat, key: Key, reason: nat)

  /** The columns copied from a draft. */
  datatype Fields = Fields(window: Window, payload: nat)

  datatype Row = Row(current: bool, analysed: bool, fields: Fields, marker: Option<Marker>)

  /** The source's raw evidence; the fingerprint of a segment range, when the range is valid. */
  datatype Evidence = Evidence(identity: nat, fingerprint: (int, int) -> Option<nat>)

  /** An automatic draft; its snapshots carry no operator marker. */
  datatype Draft = Draft(key: Key, fields: Fields)

  predicate Owned(rows: map<Key, Row>, k: Key) { k in rows && rows[k].marker.Some? }

  predicate MarkerIsCurrent(m: Marker, ev: Evidence) {
    && m.version == SELECTION_VERSION
    && ev.fingerprint(m.window.startIndex, m.window.endIndex) == Some(m.fingerprint)
  }

  /** `operator_identity_is_current`. */
  predicate IdentityIsCurrent(row: Row, ev: Evidence) { row.marker.Some? && MarkerIsCurrent(row.marker.value, ev) }

  predicate Close(a: real, b: real) { -BOUND_TOLERANCE <= a - b <= BOUND_TOLERANCE }

  predicate SameWindow(a: Window, b: Window) {
    && Close(a.startTime, b.startTime) && Close(a.endTime, b.endTime)
    && a.startIndex == b.startIndex && a.endIndex == b.endIndex
  }

  // ---- registration ---------------------------------------------------------------------

  datatype Conflict = StaleOperator | RawIdentity | StaleAutomatic | DifferentWindow

  datatype Outcome = Created | ReusedOperator | ReusedAutomatic | Refused(conflict: Conflict) | InvalidEvidence

  predicate MarkerMatches(m: Marker, ev: Evidence, window: Window, fingerprint: nat, key: Key) {
    && m.version == SELECTION_VERSION && m.identity == ev.identity
    && SameWindow(m.window, window) && m.window.segments == window.segments
    && m.fingerprint == fingerprint && m.key == key
  }

  predicate AutomaticIsExact(row: Row, window: Window) {
    && row.analysed && SameWindow(row.fields.window, window)
    && row.fields.window.segments == window.segments && row.fields.window.excerpt == window.excerpt
  }

  function ReuseOutcome(row: Row, ev: Evidence, window: Window, fingerprint: nat, key: Key): Outcome {
    match row.marker
    case Some(m) =>
      if !row.current then Refused(StaleOperator)
      else if !MarkerMatches(m, ev, window, fingerprint, key) || !IdentityIsCurrent(row, ev) then Refused(RawIdentity)
      else ReusedOperator
    case None =>
      if !row.current then Refused(StaleAutomatic)
      else if !AutomaticIsExact(row, window) then Refused(DifferentWindow)
      else ReusedAutomatic
  }

  function RegisterOutcome(rows: map<Key, Row>, ev: Evidence, window: Window, key: Key): Outcome {
    var fingerprint := ev.fingerprint(window.startIndex, window.endIndex);
    if fingerprint.None? then InvalidEvidence
    else if key in rows then ReuseOutcome(rows[key], ev, window, fingerprint.value, key)
    else Created
  }

  function OperatorRow(ev: Evidence, window: Window, fingerprint: nat, key: Key, reason: nat, payload: nat): Row {
    Row(true, false, Fields(window, payload),
        Some(Marker(SELECTION_VERSION, ev.identity, window, fingerprint, key, reason)))
  }

  function Registered(rows: map<Key, Row>, ev: Evidence, window: Window, key: Key, reason: nat, payload: nat): map<Key, Row> {
    if RegisterOutcome(rows, ev, window, key) == Created then
      rows[key := OperatorRow(ev, window, ev.fingerprint(window.startIndex, window.endIndex).value, key, reason, payload)]
    else rows
  }

  // ---- reanalysis ----------------------------------------------------------------------------

  ghost predicate DistinctKeys(drafts: seq<Draft>) {
    forall i, k | 0 <= i < k < |drafts| :: drafts[i].key != drafts[k].key
  }

  function Emitted(drafts: seq<Draft>): set<Key> { set d <- drafts :: d.key }

  /** The fields drafted for a key. */
  function FieldsFor(drafts: seq<Draft>, k: Key): Fields
    requires k in Emitted(drafts)
  {
    if drafts[0].key == k then drafts[0].fields else FieldsFor(drafts[1..], k)
  }

  function Staled(row: Row, ev: Evidence): Row {
    if row.marker.Some? && !IdentityIsCurrent(row, ev) then row.(current := false) else row
  }

  function DraftedRow(fields: Fields): Row { Row(true, true, fields, None) }

  /** What a reanalysis leaves at key `k`. */
  function PersistedRow(rows: map<Key, Row>, drafts: seq<Draft>, ev: Evidence, k: Key): Row
    requires k in rows || k in Emitted(drafts)
  {
    if Owned(rows, k) then Staled(rows[k], ev)
    else if k in Emitted(drafts) then DraftedRow(FieldsFor(drafts, k))
    else rows[k].(current := false)
  }

  function Persisted(rows: map<Key, Row>, drafts: seq<Draft>, ev: Evidence): map<Key, Row> {
    map k | k in rows.Keys + Emitted(drafts) :: PersistedRow(rows, drafts, ev, k)
  }

  /** How many drafts were applied, and how many gave way to operator rows with and without the same window. */
  datatype Counts = Counts(applied: nat, matched: nat, collided: nat)

  /** `operator_draft_matches_window`. */
  predicate DraftMatches(row: Row, d: Draft) {
    row.marker.Some? && SameWindow(row.marker.value.window, d.fields.window)
    && row.marker.value.window.segments == Consecutive(d.fields.window.startIndex, d.fields.window.endIndex)
  }

  function Consecutive(from: int, to: int): seq<int> {
    if to < from then [] else seq(to + 1 - from, i requires 0 <= i => from + i)
  }

  class CandidateStore {
    var rows: map<Key, Row>

    constructor ()
      ensures rows == map[]
    {
      rows := map[];
    }

    method RegisterOperatorCandidate(ev: Evidence, window: Window, key: Key, reason: nat, payload: nat)
      returns (outcome: Outcome)
      modifies this
      ensures outcome == RegisterOutcome(old(rows), ev, window, key)
      ensures rows == Registered(old(rows), ev, window, key, reason, payload)
    {
      var fingerprint := ev.fingerprint(window.startIndex, window.endIndex);
      if fingerprint.None? {
        return InvalidEvidence;
      }
      if key in rows {
        return ReuseOutcome(rows[key], ev, window, fingerprint.value, key);
      }
      rows := rows[key := OperatorRow(ev, window, fingerprint.value, key, reason, payload)];
      return Created;
    }

    /** Operator rows whose raw evidence has changed are retired. */
    method StaleOperatorRows(ev: Evidence)
      modifies this
      ensures rows.Keys == old(rows).Keys
      ensures forall k <- rows :: rows[k] == Staled(old(rows)[k], ev)
    {
      var todo := rows.Keys;
      while todo != {}
        invariant rows.Keys == old(rows).Keys && todo <= rows.Keys
        invariant forall k <- todo :: rows[k] == old(rows)[k]
        invariant forall k <- rows.Keys - todo :: rows[k] == Staled(old(rows)[k], ev)
        decreases todo
      {
        var k :| k in todo;
        if rows[k].marker.Some? && !IdentityIsCurrent(rows[k], ev) && rows[k].current {
          rows := rows[k := rows[k].(current := false)];
        }
        todo := todo - {k};
      }
    }

    /** Drafts fill their rows, except those an operator owns. */
    method ApplyDrafts(drafts: seq<Draft>) returns (counts: Counts)
      modifies this
      ensures rows == Applied(old(rows), drafts) && counts == CountsOf(old(rows), drafts)
    {
      counts := Counts(0, 0, 0);
      for i := 0 to |drafts|
        invariant rows == Applied(old(rows), drafts[..i]) && counts == CountsOf(old(rows), drafts[..i])
      {
        var d := drafts[i];
        assert drafts[..i + 1][..i] == drafts[..i];
        AppliedKeepsOwned(old(rows), drafts[..i], d.key);
        if d.key in rows && rows[d.key].marker.Some? {
          counts := if DraftMatches(rows[d.key], d) then counts.(matched := counts.matched + 1)
                    else counts.(collided := counts.collided + 1);
        } else {
          rows := rows[d.key := DraftedRow(d.fields)];
          counts := counts.(applied := counts.applied + 1);
        }
      }
      assert drafts[..|drafts|] == drafts;
    }

    /** Automatic rows that were not drafted again are retired. */
    method RetireOthers(existing: set<Key>, emitted: set<Key>)
      requires existing <= rows.Keys
      modifies this
      ensures rows.Keys == old(rows).Keys
      ensures forall k <- rows :: rows[k] ==
                if k in existing && k !in emitted && !Owned(old(rows), k) then old(rows)[k].(current := false) else old(rows)[k]
    {
      var todo := existing;
      while todo != {}
        invariant rows.Keys == old(rows).Keys && todo <= existing
        invariant forall k <- rows :: rows[k] ==
                    if k in existing - todo && k !in emitted && !Owned(old(rows), k) then old(rows)[k].(current := false)
                    else old(rows)[k]
        decreases todo
      {
        var k :| k in todo;
        if k !in emitted && rows[k].marker.None? {
          rows := rows[k := rows[k].(current := false)];
        }
        todo := todo - {k};
      }
    }

    method Persist(drafts: seq<Draft>, ev: Evidence) returns (counts: Counts)
      requires DistinctKeys(drafts)
      modifies this
      ensures rows == Persisted(old(rows), drafts, ev)
      ensures counts.applied + counts.matched + counts.collided == |drafts|
    {
      hide Applied, Emitted;
      var existing := rows.Keys;
      StaleOperatorRows(ev);
      ghost var staled := rows;
      counts := ApplyDrafts(drafts);
      AppliedRows(staled, drafts);
      CountsAddUp(staled, drafts);
      RetireOthers(existing, Emitted(drafts));
    }
  }

  // ---- applying drafts one by one ---------------------------------------------------------------

  function ApplyOne(rows: map<Key, Row>, d: Draft): map<Key, Row> {
    if Owned(rows, d.key) then rows else rows[d.key := DraftedRow(d.fields)]
  }

  function Applied(rows: map<Key, Row>, drafts: seq<Draft>): map<Key, Row> {
    if drafts == [] then rows else ApplyOne(Applied(rows, drafts[..|drafts| - 1]), drafts[|drafts| - 1])
  }

  function CountsOf(rows: map<Key, Row>, drafts: seq<Draft>): Counts {
    if drafts == [] then Counts(0, 0, 0)
    else
      var c, d := CountsOf(rows, drafts[..|drafts| - 1]), drafts[|drafts| - 1];
      if !Owned(rows, d.key) then c.(applied := c.applied + 1)
      else if DraftMatches(rows[d.key], d) then c.(matched := c.matched + 1)
      else c.(collided := c.collided + 1)
  }

  lemma {:induction false} CountsAddUp(rows: map<Key, Row>, drafts: seq<Draft>)
    ensures var c := CountsOf(rows, drafts); c.applied + c.matched + c.collided == |drafts|
  {
    if drafts != [] {
      CountsAddUp(rows, drafts[..|drafts| - 1]);
    }
  }

  /** Applying drafts neither makes nor takes an operator row, nor changes one. */
  lemma {:induction false} AppliedKeepsOwned(rows: map<Key, Row>, drafts: seq<Draft>, k: Key)
    ensures Owned(Applied(rows, drafts), k) == Owned(rows, k)
    ensures Owned(rows, k) ==> Applied(rows, drafts)[k] == rows[k]
  {
    if drafts != [] {
      AppliedKeepsOwned(rows, drafts[..|drafts| - 1], k);
    }
  }

  /** Row by row, what applying the drafts does. */
  lemma {:induction false} AppliedRows(rows: map<Key, Row>, drafts: seq<Draft>)
    requires DistinctKeys(drafts)
    ensures var r := Applied(rows, drafts);
      && r.Keys == rows.Keys + Emitted(drafts)
      && forall k <- r :: r[k] ==
           if k in Emitted(drafts) && !Owned(rows, k) then DraftedRow(FieldsFor(drafts, k)) else rows[k]
  {
    if drafts != [] {
      var last := |drafts| - 1;
      AppliedRows(rows, drafts[..last]);
      EmitOne(drafts, last);
      assert drafts[..last + 1] == drafts;
      AppliedKeepsOwned(rows, drafts[..last], drafts[last].key);
    }
  }

  lemma EmitOne(drafts: seq<Draft>, i: nat)
    requires DistinctKeys(drafts) && i < |drafts|
    ensures Emitted(drafts[..i + 1]) == Emitted(drafts[..i]) + {drafts[i].key} && drafts[i].key !in Emitted(drafts[..i])
    ensures FieldsFor(drafts[..i + 1], drafts[i].key) == drafts[i].fields
    ensures forall k <- Emitted(drafts[..i]) :: FieldsFor(drafts[..i + 1], k) == FieldsFor(drafts[..i], k)
  {
    assert drafts[..i + 1] == drafts[..i] + [drafts[i]];
    FieldsOfLast(drafts[..i], drafts[i]);
    forall k | k in Emitted(drafts[..i]) ensures FieldsFor(drafts[..i + 1], k) == FieldsFor(drafts[..i], k) {
      FieldsStay(drafts[..i], drafts[i], k);
    }
  }

  lemma {:induction false} FieldsOfLast(drafts: seq<Draft>, d: Draft)
    requires d.key !in Emitted(drafts)
    ensures d.key in Emitted(drafts + [d]) && FieldsFor(drafts + [d], d.key) == d.fields
  {
    assert d in drafts + [d];
    if drafts != [] {
      assert drafts[0] in drafts && (drafts + [d])[1..] == drafts[1..] + [d];
      FieldsOfLast(drafts[1..], d);
    }
  }

  lemma {:induction false} FieldsStay(drafts: seq<Draft>, d: Draft, k: Key)
    requires k in Emitted(drafts)
    ensures k in Emitted(drafts + [d]) && FieldsFor(drafts + [d], k) == FieldsFor(drafts, k)
  {
    var e :| e in drafts && e.key == k;
    assert e in drafts + [d];
    if drafts[0].key != k {
      assert (drafts + [d])[1..] == drafts[1..] + [d];
      FieldsStay(drafts[1..], d, k);
    }
  }

  // ---- every run ----------------------------------------------------------------------------------

  datatype Step =
    | Registering(ev: Evidence, window: Window, key: Key, reason: nat, payload: nat)
    | Persisting(drafts: seq<Draft>, ev: Evidence)

  function After(rows: map<Key, Row>, step: Step): map<Key, Row> {
    match step
    case Registering(ev, window, key, reason, payload) => Registered(rows, ev, window, key, reason, payload)
    case Persisting(drafts, ev) => Persisted(rows, drafts, ev)
  }

  function Run(rows: map<Key, Row>, steps: seq<Step>): map<Key, Row> {
    if steps == [] then rows else After(Run(rows, steps[..|steps| - 1]), steps[|steps| - 1])
  }

  /** No reanalysis among the steps finds the raw evidence under the marker changed. */
  ghost predicate EvidenceHolds(m: Marker, steps: seq<Step>) {
    forall s <- steps :: s.Persisting? ==> MarkerIsCurrent(m, s.ev)
  }

  /**
   An operator's row outlives every run unchanged but for being current: it is current at the end
   exactly when it was at the start and no reanalysis in between found its evidence changed.  So a
   stale one never becomes current again, even if the evidence reverts.
   */
  lemma {:induction false} OperatorRowEndures(rows: map<Key, Row>, steps: seq<Step>, k: Key)
    requires Owned(rows, k)
    ensures var r := Run(rows, steps);
      && Owned(r, k) && r[k] == rows[k].(current := r[k].current)
      && (r[k].current <==> rows[k].current && EvidenceHolds(rows[k].marker.value, steps))
  {
    if steps != [] {
      var front, last := steps[..|steps| - 1], steps[|steps| - 1];
      OperatorRowEndures(rows, front, k);
      OwnedAfter(Run(rows, front), last, k);
      EvidenceSnoc(rows[k].marker.value, front, last);
      assert steps == front + [last];
    }
  }

  lemma OwnedAfter(rows: map<Key, Row>, step: Step, k: Key)
    requires Owned(rows, k)
    ensures var r := After(rows, step);
      && Owned(r, k) && r[k] == rows[k].(current := r[k].current)
      && (r[k].current <==> rows[k].current && (step.Persisting? ==> MarkerIsCurrent(rows[k].marker.value, step.ev)))
  {
  }

  lemma EvidenceSnoc(m: Marker, front: seq<Step>, last: Step)
    ensures EvidenceHolds(m, front + [last]) <==>
              EvidenceHolds(m, front) && (last.Persisting? ==> MarkerIsCurrent(m, last.ev))
  {
    assert last in front + [last] && forall s <- front :: s in front + [last];
  }

  function CurrentAutomatic(rows: map<Key, Row>): set<Key> {
    set k | k in rows && rows[k].current && rows[k].marker.None?
  }

  function OwnedKeys(rows: map<Key, Row>): set<Key> { set k | k in rows && rows[k].marker.Some? }

  /** After a reanalysis the current automatic rows are exactly the drafted keys no operator owns. */
  lemma CurrentAutomaticRowsAreTheDrafted(rows: map<Key, Row>, drafts: seq<Draft>, ev: Evidence)
    ensures CurrentAutomatic(Persisted(rows, drafts, ev)) == Emitted(drafts) - OwnedKeys(rows)
    ensures OwnedKeys(Persisted(rows, drafts, ev)) == OwnedKeys(rows)
    ensures forall k <- Emitted(drafts) - OwnedKeys(rows) :: Persisted(rows, drafts, ev)[k].fields == FieldsFor(drafts, k)
  {
  }

  /** A registration adds at most its own row, current under the evidence it saw and not analysed, and changes no other. */
  lemma RegistrationAddsOneRow(rows: map<Key, Row>, ev: Evidence, window: Window, key: Key, reason: nat, payload: nat)
    ensures var r := Registered(rows, ev, window, key, reason, payload);
      && (forall k <- rows :: k in r && r[k] == rows[k])
      && (if RegisterOutcome(rows, ev, window, key) == Created
          then && r.Keys == rows.Keys + {key} && key !in rows && r[key].current && IdentityIsCurrent(r[key], ev)
               && r[key].fields == Fields(window, payload) && !r[key].analysed
          else r == rows)
  {
  }

  /** Registering the same window again, the evidence unchanged, finds the operator's row. */
  lemma RegisteringTwiceReuses(rows: map<Key, Row>, ev: Evidence, window: Window, key: Key, reason: nat, payload: nat)
    requires RegisterOutcome(rows, ev, window, key) == Created
    ensures RegisterOutcome(Registered(rows, ev, window, key, reason, payload), ev, window, key) == ReusedOperator
  {
  }

  /** An operator's row is handed out only while it is current and its raw evidence unchanged. */
  lemma ReuseNeedsUnchangedEvidence(rows: map<Key, Row>, steps: seq<Step>, ev: Evidence, window: Window, key: Key)
    requires Owned(rows, key) && RegisterOutcome(Run(rows, steps), ev, window, key) == ReusedOperator
    ensures rows[key].current && EvidenceHolds(rows[key].marker.value, steps) && MarkerIsCurrent(rows[key].marker.value, ev)
  {
    OperatorRowEndures(rows, steps, key);
  }
}
