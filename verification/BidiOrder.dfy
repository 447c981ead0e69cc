/** Visual token order as direction runs, proved to be rule L2 of UAX #9, and the wrapping units. */
module BidiOrder {
  import opened Bidi
  import opened Sequences

  // ---- rule L2 ----------------------------------------------------------------------

  predicate Hot(i: nat, marks: seq<bool>) { i < |marks| && marks[i] }

  /** How many leading indexes are marked. */
  function HotPrefix(s: seq<nat>, marks: seq<bool>): (n: nat)
    ensures n <= |s|
  {
    if s == [] || !Hot(s[0], marks) then 0 else 1 + HotPrefix(s[1..], marks)
  }

  /** Reverses every maximal stretch of marked indexes. */
  function ReverseWhere(s: seq<nat>, marks: seq<bool>): seq<nat>
    decreases |s|
  {
    if s == [] then []
    else
      var n := HotPrefix(s, marks);
      if n == 0 then [s[0]] + ReverseWhere(s[1..], marks)
      else Reverse(s[..n]) + ReverseWhere(s[n..], marks)
  }

  /** The embedding level of a direction: 1 and 2 for an RTL base, 0 and 1 for an LTR base. */
  function Level(base: Direction, d: Direction): nat {
    match base case RTL => (if d.RTL? then 1 else 2) case LTR => (if d.RTL? then 1 else 0)
  }

  function AtLeast(directions: seq<Direction>, base: Direction, level: nat): (marks: seq<bool>)
    ensures |marks| == |directions|
  {
    seq(|directions|, i requires 0 <= i < |directions| => Level(base, directions[i]) >= level)
  }

  /** Rule L2: from the highest level down to the lowest odd one, reverse what lies at that level or above. */
  function RuleL2(directions: seq<Direction>, base: Direction): seq<nat> {
    ReverseWhere(ReverseWhere(Range(0, |directions|), AtLeast(directions, base, 2)), AtLeast(directions, base, 1))
  }

  lemma ConcatMultiset(a: seq<nat>, b: seq<nat>)
    ensures multiset(a + b) == multiset(a) + multiset(b)
  {
  }

  lemma {:induction false} ReverseWhereKeeps(s: seq<nat>, marks: seq<bool>)
    ensures multiset(ReverseWhere(s, marks)) == multiset(s)
    decreases |s|
  {
    if s != [] {
      var n := HotPrefix(s, marks);
      var cut := if n == 0 then 1 else n;
      ReverseWhereKeeps(s[cut..], marks);
      ConcatMultiset(s[..cut], s[cut..]);
      assert s == s[..cut] + s[cut..];
      if n == 0 {
        assert s[..1] == [s[0]];
        ConcatMultiset([s[0]], ReverseWhere(s[1..], marks));
      } else {
        ReverseKeeps(s[..n]);
        ConcatMultiset(Reverse(s[..n]), ReverseWhere(s[n..], marks));
      }
    }
  }

  lemma {:induction false} ColdStaysPut(cold: seq<nat>, rest: seq<nat>, marks: seq<bool>)
    requires forall i | 0 <= i < |cold| :: !Hot(cold[i], marks)
    ensures ReverseWhere(cold + rest, marks) == cold + ReverseWhere(rest, marks)
  {
    if cold == [] {
      assert cold + rest == rest;
    } else {
      ColdStaysPut(cold[1..], rest, marks);
      assert (cold + rest)[1..] == cold[1..] + rest;
      assert cold == [cold[0]] + cold[1..];
    }
  }

  lemma {:induction false} HotPrefixIs(warm: seq<nat>, rest: seq<nat>, marks: seq<bool>)
    requires forall i | 0 <= i < |warm| :: Hot(warm[i], marks)
    requires rest != [] ==> !Hot(rest[0], marks)
    ensures HotPrefix(warm + rest, marks) == |warm|
  {
    if warm == [] {
      assert warm + rest == rest;
    } else {
      HotPrefixIs(warm[1..], rest, marks);
      assert (warm + rest)[1..] == warm[1..] + rest;
    }
  }

  lemma HotIsReversed(warm: seq<nat>, rest: seq<nat>, marks: seq<bool>)
    requires forall i | 0 <= i < |warm| :: Hot(warm[i], marks)
    requires rest != [] ==> !Hot(rest[0], marks)
    ensures ReverseWhere(warm + rest, marks) == Reverse(warm) + ReverseWhere(rest, marks)
  {
    if warm == [] {
      assert warm + rest == rest;
    } else {
      HotPrefixIs(warm, rest, marks);
      assert (warm + rest)[..|warm|] == warm && (warm + rest)[|warm|..] == rest;
    }
  }

  // ---- runs --------------------------------------------------------------------------

  datatype Run = Run(direction: Direction, indexes: seq<nat>)

  function Indexes(runs: seq<Run>): seq<seq<nat>> { MapSeq(runs, (r: Run) => r.indexes) }

  /** Each run is a nonempty stretch of one direction, and neighbours differ. */
  ghost predicate AreRuns(runs: seq<Run>, directions: seq<Direction>) {
    && (forall r <- runs :: r.indexes != [])
    && (forall r <- runs :: forall i <- r.indexes :: i < |directions| && directions[i] == r.direction)
    && (forall k | 0 < k < |runs| :: runs[k].direction != runs[k - 1].direction)
  }

  /** The loop's step: index `i` joins the last run or opens a new one. */
  function AddToRuns(runs: seq<Run>, i: nat, d: Direction): seq<Run> {
    var last := |runs| - 1;
    if runs != [] && runs[last].direction == d then runs[last := Run(d, runs[last].indexes + [i])]
    else runs + [Run(d, [i])]
  }

  lemma AddKeepsRuns(runs: seq<Run>, i: nat, directions: seq<Direction>)
    requires AreRuns(runs, directions) && i < |directions|
    ensures AreRuns(AddToRuns(runs, i, directions[i]), directions)
  {
    var more := AddToRuns(runs, i, directions[i]);
    forall r | r in more ensures r.indexes != [] && forall k <- r.indexes :: k < |directions| && directions[k] == r.direction {
      if r !in runs {
        assert r == more[|more| - 1];
        assert |more| == |runs| ==> runs[|runs| - 1] in runs;
      }
    }
  }

  lemma AddExtends(runs: seq<Run>, i: nat, d: Direction)
    ensures Flatten(Indexes(AddToRuns(runs, i, d))) == Flatten(Indexes(runs)) + [i]
  {
    var last := |runs| - 1;
    var alone: seq<nat> := [i];
    if runs != [] && runs[last].direction == d {
      var parts := Indexes(runs);
      GrowLast(parts, i);
      assert Indexes(AddToRuns(runs, i, d)) == parts[last := parts[last] + [i]];
    } else {
      FlattenAppend(Indexes(runs), alone);
      assert Indexes(AddToRuns(runs, i, d)) == Indexes(runs) + [alone];
    }
  }

  lemma AddStep(runs: seq<Run>, i: nat, directions: seq<Direction>)
    requires AreRuns(runs, directions) && Flatten(Indexes(runs)) == Range(0, i) && i < |directions|
    ensures var more := AddToRuns(runs, i, directions[i]);
      AreRuns(more, directions) && Flatten(Indexes(more)) == Range(0, i + 1)
  {
    AddKeepsRuns(runs, i, directions);
    AddExtends(runs, i, directions[i]);
    RangeGrows(0, i, i + 1);
    assert Range(i, i + 1) == [i];
  }

  method CollectRuns(directions: seq<Direction>) returns (runs: seq<Run>)
    ensures AreRuns(runs, directions) && Flatten(Indexes(runs)) == Range(0, |directions|)
  {
    runs := [];
    for i := 0 to |directions|
      invariant AreRuns(runs, directions) && Flatten(Indexes(runs)) == Range(0, i)
    {
      AddStep(runs, i, directions);
      runs := AddToRuns(runs, i, directions[i]);
    }
  }

  lemma GrowLast(parts: seq<seq<nat>>, x: nat)
    requires parts != []
    ensures var last := |parts| - 1; Flatten(parts[last := parts[last] + [x]]) == Flatten(parts) + [x]
  {
    var last := |parts| - 1;
    assert parts == parts[..last] + [parts[last]];
    assert parts[last := parts[last] + [x]] == parts[..last] + [parts[last] + [x]];
    FlattenAppend(parts[..last], parts[last]);
    FlattenAppend(parts[..last], parts[last] + [x]);
  }

  /** A run's indexes from left to right. */
  function Oriented(r: Run): seq<nat> { if r.direction.RTL? then Reverse(r.indexes) else r.indexes }

  function OrientedRuns(runs: seq<Run>): seq<seq<nat>> { MapSeq(runs, Oriented) }

  function OrderOfRuns(runs: seq<Run>, base: Direction): seq<nat> {
    Flatten(OrientedRuns(if base.RTL? then Reverse(runs) else runs))
  }

  method VisualOrder(tokens: seq<string>, base: Direction, cls: Classes) returns (ordered: seq<nat>)
    ensures ordered == RuleL2(Directions(tokens, base, cls), base)
    ensures multiset(ordered) == multiset(Range(0, |tokens|))
  {
    if tokens == [] {
      return [];
    }
    var directions := ResolveDirections(tokens, base, cls);
    var runs := CollectRuns(directions);
    var sequence := if base.RTL? then Reverse(runs) else runs;
    ordered := [];
    for i := 0 to |sequence|
      invariant ordered == Flatten(OrientedRuns(sequence[..i]))
    {
      FlattenAppend(OrientedRuns(sequence[..i]), Oriented(sequence[i]));
      assert OrientedRuns(sequence[..i + 1]) == OrientedRuns(sequence[..i]) + [Oriented(sequence[i])];
      if sequence[i].direction.RTL? {
        ordered := ordered + Reverse(sequence[i].indexes);
      } else {
        ordered := ordered + sequence[i].indexes;
      }
    }
    assert sequence[..|sequence|] == sequence;
    RunOrderIsRuleL2(runs, directions, base);
    L2IsPermutation(directions, base);
  }

  lemma L2IsPermutation(directions: seq<Direction>, base: Direction)
    ensures multiset(RuleL2(directions, base)) == multiset(Range(0, |directions|))
  {
    var s := Range(0, |directions|);
    ReverseWhereKeeps(s, AtLeast(directions, base, 2));
    ReverseWhereKeeps(ReverseWhere(s, AtLeast(directions, base, 2)), AtLeast(directions, base, 1));
  }

  // ---- runs obey the rule --------------------------------------------------------------

  /** The runs with those of direction `d` reversed. */
  function Turned(runs: seq<Run>, d: Direction): seq<nat> {
    if runs == [] then []
    else (if runs[0].direction == d then Reverse(runs[0].indexes) else runs[0].indexes) + Turned(runs[1..], d)
  }

  /** The marks pick out direction `d`. */
  ghost predicate Marks(marks: seq<bool>, directions: seq<Direction>, d: Direction) {
    |marks| == |directions| && forall i | 0 <= i < |marks| :: marks[i] <==> directions[i] == d
  }

  lemma RunIsUniform(r: Run, runs: seq<Run>, directions: seq<Direction>, d: Direction, marks: seq<bool>)
    requires AreRuns(runs, directions) && r in runs && Marks(marks, directions, d)
    ensures r.indexes != []
    ensures forall i | 0 <= i < |r.indexes| :: Hot(r.indexes[i], marks) <==> r.direction == d
  {
    forall i | 0 <= i < |r.indexes| ensures Hot(r.indexes[i], marks) <==> r.direction == d {
      assert r.indexes[i] in r.indexes;
    }
  }

  /** Reversing the marked stretches of a run sequence reverses the runs of the marked direction. */
  lemma {:induction false} ReverseHotRuns(runs: seq<Run>, directions: seq<Direction>, d: Direction, marks: seq<bool>)
    requires AreRuns(runs, directions) && Marks(marks, directions, d)
    ensures ReverseWhere(Flatten(Indexes(runs)), marks) == Turned(runs, d)
  {
    if runs != [] {
      var first, rest := runs[0], runs[1..];
      ReverseHotRuns(rest, directions, d, marks);
      var tail := Flatten(Indexes(rest));
      assert Flatten(Indexes(runs)) == first.indexes + tail by {
        assert Indexes(runs)[1..] == Indexes(rest);
      }
      RunIsUniform(first, runs, directions, d, marks);
      if first.direction == d {
        if rest != [] {
          RunIsUniform(rest[0], runs, directions, d, marks);
          assert runs[1].direction != runs[0].direction;
          assert Flatten(Indexes(rest))[0] == rest[0].indexes[0];
        }
        HotIsReversed(first.indexes, tail, marks);
      } else {
        ColdStaysPut(first.indexes, tail, marks);
      }
    }
  }

  lemma {:induction false} ReverseOfTurned(runs: seq<Run>)
    ensures Reverse(Turned(runs, LTR)) == Flatten(OrientedRuns(Reverse(runs)))
  {
    if runs != [] {
      var first, rest := runs[0], runs[1..];
      ReverseOfTurned(rest);
      var head := if first.direction.LTR? then Reverse(first.indexes) else first.indexes;
      ReverseConcat(head, Turned(rest, LTR));
      ReverseTwice(first.indexes);
      assert OrientedRuns(Reverse(runs)) == OrientedRuns(Reverse(rest)) + [Oriented(first)];
      FlattenAppend(OrientedRuns(Reverse(rest)), Oriented(first));
    }
  }

  lemma {:induction false} TurnedIsOriented(runs: seq<Run>)
    ensures Turned(runs, RTL) == Flatten(OrientedRuns(runs))
  {
    if runs != [] {
      TurnedIsOriented(runs[1..]);
      assert OrientedRuns(runs)[1..] == OrientedRuns(runs[1..]);
    }
  }

  lemma AllHot(s: seq<nat>, marks: seq<bool>)
    requires forall i <- s :: Hot(i, marks)
    ensures ReverseWhere(s, marks) == Reverse(s)
  {
    HotIsReversed(s, [], marks);
    assert s + [] == s;
  }

  lemma AllCold(s: seq<nat>, marks: seq<bool>)
    requires forall i <- s :: !Hot(i, marks)
    ensures ReverseWhere(s, marks) == s
  {
    ColdStaysPut(s, [], marks);
    assert s + [] == s;
  }

  lemma SameElements(a: seq<nat>, b: seq<nat>, n: nat)
    requires multiset(a) == multiset(b) && forall i <- b :: i < n
    ensures forall i <- a :: i < n
  {
    forall i | i in a ensures i < n {
      assert i in multiset(a);
      assert i in multiset(b);
      assert i in b;
    }
  }

  lemma RunOrderIsRuleL2(runs: seq<Run>, directions: seq<Direction>, base: Direction)
    requires AreRuns(runs, directions) && Flatten(Indexes(runs)) == Range(0, |directions|)
    ensures OrderOfRuns(runs, base) == RuleL2(directions, base)
  {
    var s := Range(0, |directions|);
    var high, odd := AtLeast(directions, base, 2), AtLeast(directions, base, 1);
    if base.RTL? {
      ReverseHotRuns(runs, directions, LTR, high);
      ReverseWhereKeeps(s, high);
      SameElements(ReverseWhere(s, high), s, |directions|);
      AllHot(ReverseWhere(s, high), odd);
      ReverseOfTurned(runs);
    } else {
      AllCold(s, high);
      ReverseHotRuns(runs, directions, RTL, odd);
      TurnedIsOriented(runs);
    }
  }

  // ---- wrapping units --------------------------------------------------------------------

  predicate LtrUnit(u: seq<nat>, directions: seq<Direction>) {
    u != [] && u[0] < |directions| && directions[u[0]].LTR?
  }

  /** A unit is one token, or an LTR run. */
  ghost predicate IsUnit(u: seq<nat>, directions: seq<Direction>) {
    && u != []
    && (forall i <- u :: i < |directions|)
    && (|u| > 1 ==> forall i <- u :: directions[i].LTR?)
  }

  /** Units in a row, their LTR runs maximal. */
  ghost predicate AreUnits(units: seq<seq<nat>>, directions: seq<Direction>) {
    && (forall u <- units :: IsUnit(u, directions))
    && (forall k | 0 < k < |units| :: !(LtrUnit(units[k - 1], directions) && LtrUnit(units[k], directions)))
  }

  method FindRunEnd(directions: seq<Direction>, index: nat) returns (end: nat)
    requires index < |directions| && directions[index].LTR?
    ensures end + 1 == LtrEnd(directions, index)
  {
    end := index;
    while end + 1 < |directions| && directions[end + 1].LTR?
      invariant index <= end < |directions| && LtrEnd(directions, index) == LtrEnd(directions, end)
    {
      end := end + 1;
    }
  }

  method AtomicUnits(tokens: seq<string>, base: Direction, cls: Classes) returns (units: seq<seq<nat>>)
    ensures units == UnitsOf(Directions(tokens, base, cls))
  {
    units := [];
    if tokens == [] {
      return;
    }
    var directions := ResolveDirections(tokens, base, cls);
    var index := 0;
    while index < |tokens|
      invariant index <= |tokens|
      invariant units + UnitsFrom(directions, index) == UnitsOf(directions)
    {
      if directions[index].LTR? {
        var end := FindRunEnd(directions, index);
        ShiftUnit(units, Range(index, end + 1), UnitsFrom(directions, end + 1));
        units := units + [Range(index, end + 1)];
        index := end + 1;
      } else {
        ShiftUnit(units, [index], UnitsFrom(directions, index + 1));
        units := units + [[index]];
        index := index + 1;
      }
    }
  }

  lemma ShiftUnit(units: seq<seq<nat>>, unit: seq<nat>, rest: seq<seq<nat>>)
    ensures units + ([unit] + rest) == (units + [unit]) + rest
  {
  }

  /** The end of the LTR run around `i`. */
  function LtrEnd(directions: seq<Direction>, i: nat): (end: nat)
    requires i < |directions|
    ensures i < end <= |directions|
    ensures directions[i].LTR? ==> forall k | i <= k < end :: directions[k].LTR?
    ensures end < |directions| ==> directions[end].RTL?
    decreases |directions| - i
  {
    if i + 1 < |directions| && directions[i + 1].LTR? then LtrEnd(directions, i + 1) else i + 1
  }

  function UnitsFrom(directions: seq<Direction>, i: nat): seq<seq<nat>>
    requires i <= |directions|
    decreases |directions| - i
  {
    if i == |directions| then []
    else if directions[i].LTR? then
      [Range(i, LtrEnd(directions, i))] + UnitsFrom(directions, LtrEnd(directions, i))
    else [[i]] + UnitsFrom(directions, i + 1)
  }

  function UnitsOf(directions: seq<Direction>): seq<seq<nat>> { UnitsFrom(directions, 0) }

  lemma {:induction false} UnitsFromPartition(directions: seq<Direction>, i: nat)
    requires i <= |directions|
    ensures Flatten(UnitsFrom(directions, i)) == Range(i, |directions|)
    ensures i < |directions| ==> UnitsFrom(directions, i) != [] && UnitsFrom(directions, i)[0] != []
                                 && UnitsFrom(directions, i)[0][0] == i
    decreases |directions| - i
  {
    if i < |directions| {
      var next := if directions[i].LTR? then LtrEnd(directions, i) else i + 1;
      UnitsFromPartition(directions, next);
      assert Range(i, i + 1) == [i];
      assert UnitsFrom(directions, i) == [Range(i, next)] + UnitsFrom(directions, next);
      RangeGrows(i, next, |directions|);
    }
  }

  lemma {:induction false} UnitsFromAreUnits(directions: seq<Direction>, i: nat)
    requires i <= |directions|
    ensures AreUnits(UnitsFrom(directions, i), directions)
    decreases |directions| - i
  {
    hide Flatten;
    if i < |directions| {
      var next := if directions[i].LTR? then LtrEnd(directions, i) else i + 1;
      var rest := UnitsFrom(directions, next);
      UnitsFromAreUnits(directions, next);
      UnitsFromPartition(directions, next);
      assert Range(i, i + 1) == [i];
      assert UnitsFrom(directions, i) == [Range(i, next)] + rest;
    }
  }

  /** The wrapping units of a line: every token once, in order, LTR runs whole. */
  lemma UnitsPartition(directions: seq<Direction>)
    ensures Flatten(UnitsOf(directions)) == Range(0, |directions|) && AreUnits(UnitsOf(directions), directions)
  {
    UnitsFromPartition(directions, 0);
    UnitsFromAreUnits(directions, 0);
  }
}
