/** Bounded atoms of a transcript: segments, and the slices and chunks of over-long ones. */
module ProposalAtoms {
  import opened Rounding
  import opened Sequences
  import opened Sorting

  datatype Atom = Atom(segment: nat, start: real, end: real, text: string, speaker: string)

  predicate AtomBefore(a: Atom, b: Atom) { a.end <= b.start }

  predicate Lasts(a: Atom) { a.start <= a.end }

  // ---- slicing an over-long atom ------------------------------------------------------------

  /** The fraction `i / count` of a length. */
  function Part(length: real, i: nat, count: nat): real
    requires count > 0
  {
    length * (i as real / count as real)
  }

  lemma PartMonotone(length: real, i: nat, k: nat, count: nat)
    requires length >= 0.0 && i <= k && count > 0
    ensures Part(length, i, count) <= Part(length, k, count)
  {
    var x, y := i as real / count as real, k as real / count as real;
    assert x * count as real == i as real && y * count as real == k as real;
    assert (y - x) * count as real == k as real - i as real;
    NonnegativeFactor(y - x, count as real);
    assert length * (y - x) >= 0.0;
    assert length * (y - x) == length * y - length * x;
  }

  lemma NonnegativeFactor(a: real, b: real)
    requires a * b >= 0.0 && b > 0.0
    ensures a >= 0.0
  {
  }

  lemma PartEnds(length: real, count: nat)
    requires count > 0
    ensures Part(length, 0, count) == 0.0 && Part(length, count, count) == length
  {
    assert 0.0 / count as real == 0.0 && count as real / count as real == 1.0;
  }

  function SliceCount(duration: real, limit: real): (n: nat)
    requires limit > 0.0
    ensures n >= 1
  {
    if Ceiling(duration / limit) < 1 then 1 else Ceiling(duration / limit)
  }

  lemma PartInside(length: nat, i: nat, count: nat)
    requires count > 0 && i <= count
    ensures 0.0 <= Part(length as real, i, count) <= length as real
  {
    hide Part;
    PartEnds(length as real, count);
    PartMonotone(length as real, 0, i, count);
    PartMonotone(length as real, i, count, count);
  }

  lemma CutInside(length: nat, i: nat, count: nat)
    requires count > 0 && i <= count
    ensures 0 <= RoundHalfEven(Part(length as real, i, count)) <= length
  {
    PartInside(length, i, count);
    hide Part, RoundHalfEven;
    RoundIsMonotone(0.0, Part(length as real, i, count));
    RoundIsMonotone(Part(length as real, i, count), length as real);
    RoundWhole(0);
    RoundWhole(length);
  }

  /** Where slice `i` of the text begins. */
  function Cut(length: nat, i: nat, count: nat): nat
    requires count > 0 && i <= count
    ensures Cut(length, i, count) <= length
  {
    CutInside(length, i, count);
    if i == count then length else RoundHalfEven(Part(length as real, i, count))
  }

  lemma CutMonotone(length: nat, i: nat, count: nat)
    requires i < count
    ensures Cut(length, i, count) <= Cut(length, i + 1, count)
    ensures Cut(length, 0, count) == 0 && Cut(length, count, count) == length
  {
    PartMonotone(length as real, i, i + 1, count);
    RoundIsMonotone(Part(length as real, i, count), Part(length as real, i + 1, count));
    PartEnds(length as real, count);
    RoundWhole(0);
  }

  function SliceTime(a: Atom, i: nat, count: nat): real
    requires count > 0 && i <= count
  {
    if i == count then a.end else a.start + Part(a.end - a.start, i, count)
  }

  /** Slice `i` of an atom: an even share of its time and a proportional share of its text. */
  function Slice(a: Atom, i: nat, count: nat): Atom
    requires i < count
  {
    CutMonotone(|a.text|, i, count);
    Atom(a.segment, SliceTime(a, i, count), SliceTime(a, i + 1, count),
         a.text[Cut(|a.text|, i, count)..Cut(|a.text|, i + 1, count)], a.speaker)
  }

  function Slices(a: Atom, count: nat): (s: seq<Atom>)
    ensures |s| == count
  {
    seq(count, i requires 0 <= i < count => Slice(a, i, count))
  }

  lemma PartStep(length: real, i: nat, count: nat)
    requires i < count
    ensures Part(length, i + 1, count) - Part(length, i, count) == length / count as real
  {
    var c := count as real;
    assert (i as real + 1.0) / c == i as real / c + 1.0 / c;
    assert length * (i as real / c + 1.0 / c) == length * (i as real / c) + length * (1.0 / c);
    assert length * (1.0 / c) == length / c;
  }

  lemma ShareFits(duration: real, limit: real)
    requires limit > 0.0 && duration > 0.0
    ensures duration / SliceCount(duration, limit) as real <= limit
  {
    var c, x := SliceCount(duration, limit) as real, duration / limit;
    assert x * limit == duration;
    assert c >= x;
    assert (c - x) * limit >= 0.0;
    assert (c - x) * limit == c * limit - duration;
    var share := duration / c;
    assert share * c == duration;
    assert (limit - share) * c == limit * c - duration;
    NonnegativeFactor(limit - share, c);
  }

  function TextsOf(atoms: seq<Atom>): seq<string> { MapSeq(atoms, (a: Atom) => a.text) }

  /** All the text of the atoms, one after the other. */
  function AllText(atoms: seq<Atom>): string { Flatten(TextsOf(atoms)) }

  lemma AllTextSnoc(atoms: seq<Atom>, a: Atom)
    ensures AllText(atoms + [a]) == AllText(atoms) + a.text
  {
    assert TextsOf(atoms + [a]) == TextsOf(atoms) + [a.text];
    FlattenAppend(TextsOf(atoms), a.text);
  }

  lemma {:induction false} SlicesText(a: Atom, count: nat, i: nat)
    requires count > 0 && i <= count
    ensures AllText(Slices(a, count)[..i]) == a.text[..Cut(|a.text|, i, count)]
  {
    CutMonotone(|a.text|, 0, count);
    if i > 0 {
      SlicesText(a, count, i - 1);
      CutMonotone(|a.text|, i - 1, count);
      AllTextSnoc(Slices(a, count)[..i - 1], Slice(a, i - 1, count));
      assert Slices(a, count)[..i] == Slices(a, count)[..i - 1] + [Slice(a, i - 1, count)];
    }
  }

  lemma SliceSpan(a: Atom, count: nat, i: nat)
    requires i < count && Lasts(a)
    ensures a.start <= SliceTime(a, i, count) <= SliceTime(a, i + 1, count) <= a.end
    ensures SliceTime(a, i + 1, count) - SliceTime(a, i, count) == (a.end - a.start) / count as real
    ensures SliceTime(a, 0, count) == a.start
  {
    var length := a.end - a.start;
    PartEnds(length, count);
    PartMonotone(length, 0, i, count);
    PartMonotone(length, i, i + 1, count);
    PartMonotone(length, i + 1, count, count);
    PartStep(length, i, count);
  }

  /** Ordered, non-overlapping atoms inside `[lo, hi]`. */
  ghost predicate Ordered(atoms: seq<Atom>, lo: real, hi: real) {
    Pairwise(atoms, AtomBefore) && forall a <- atoms :: lo <= a.start <= a.end <= hi
  }

  lemma SlicesOrdered(a: Atom, count: nat)
    requires count > 0 && Lasts(a)
    ensures Ordered(Slices(a, count), a.start, a.end)
  {
    var s := Slices(a, count);
    forall i, k | 0 <= i < k < |s| ensures AtomBefore(s[i], s[k]) {
      SliceTimesAscend(a, count, i + 1, k);
    }
    forall x | x in s ensures a.start <= x.start <= x.end <= a.end {
      var i :| 0 <= i < count && s[i] == x;
      SliceSpan(a, count, i);
    }
  }

  lemma {:induction false} SliceTimesAscend(a: Atom, count: nat, i: nat, k: nat)
    requires count > 0 && Lasts(a) && i <= k <= count
    ensures SliceTime(a, i, count) <= SliceTime(a, k, count)
  {
    if i < k {
      SliceTimesAscend(a, count, i, k - 1);
      SliceSpan(a, count, k - 1);
    }
  }

  lemma SlicesFit(a: Atom, limit: real)
    requires limit > 0.0 && a.start < a.end
    ensures forall x <- Slices(a, SliceCount(a.end - a.start, limit)) :: x.end - x.start <= limit && x.segment == a.segment
  {
    var count := SliceCount(a.end - a.start, limit);
    ShareFits(a.end - a.start, limit);
    forall x | x in Slices(a, count) ensures x.end - x.start <= limit && x.segment == a.segment {
      var i :| 0 <= i < count && Slice(a, i, count) == x;
      SliceSpan(a, count, i);
    }
  }

  /** Slicing an over-long atom keeps its text, tiles its time, and keeps every slice within the limit. */
  lemma SlicingConserves(a: Atom, limit: real)
    requires limit > 0.0 && a.start < a.end
    ensures var s := Slices(a, SliceCount(a.end - a.start, limit));
      && AllText(s) == a.text
      && Ordered(s, a.start, a.end)
      && s[0].start == a.start && s[|s| - 1].end == a.end
      && (forall i | 0 < i < |s| :: s[i - 1].end == s[i].start)
      && (forall x <- s :: x.end - x.start <= limit && x.segment == a.segment)
  {
    var count := SliceCount(a.end - a.start, limit);
    var s := Slices(a, count);
    SlicesText(a, count, count);
    CutMonotone(|a.text|, count - 1, count);
    assert s[..count] == s && a.text[..|a.text|] == a.text;
    SlicesOrdered(a, count);
    SliceSpan(a, count, 0);
    SlicesFit(a, limit);
  }

  // ---- bounding every atom ------------------------------------------------------------------

  function BoundAtom(a: Atom, limit: real): seq<Atom> {
    if limit <= 0.0 || a.end - a.start <= limit then [a] else Slices(a, SliceCount(a.end - a.start, limit))
  }

  function BoundAtoms(atoms: seq<Atom>, limit: real): seq<Atom> {
    if atoms == [] then [] else BoundAtoms(atoms[..|atoms| - 1], limit) + BoundAtom(atoms[|atoms| - 1], limit)
  }

  method EnforceAtomBounds(atoms: seq<Atom>, limit: real) returns (bounded: seq<Atom>)
    ensures bounded == BoundAtoms(atoms, limit)
  {
    bounded := [];
    for i := 0 to |atoms|
      invariant bounded == BoundAtoms(atoms[..i], limit)
    {
      assert atoms[..i + 1][..i] == atoms[..i];
      var duration := atoms[i].end - atoms[i].start;
      if limit <= 0.0 || duration <= limit {
        bounded := bounded + [atoms[i]];
      } else {
        var slices := SliceAtom(atoms[i], SliceCount(duration, limit));
        bounded := bounded + slices;
      }
    }
    assert atoms[..|atoms|] == atoms;
  }

  method SliceAtom(a: Atom, count: nat) returns (slices: seq<Atom>)
    requires count > 0
    ensures slices == Slices(a, count)
  {
    slices := [];
    for i := 0 to count
      invariant slices == Slices(a, count)[..i]
    {
      slices := slices + [Slice(a, i, count)];
    }
  }

  lemma ConcatOrdered(a: seq<Atom>, b: seq<Atom>, lo: real, mid: real, hi: real)
    requires Ordered(a, lo, mid) && Ordered(b, mid, hi) && lo <= mid <= hi
    ensures Ordered(a + b, lo, hi)
  {
    var s := a + b;
    forall i, k | 0 <= i < k < |s| ensures AtomBefore(s[i], s[k]) {
      if k < |a| {
        assert AtomBefore(a[i], a[k]);
      } else if i >= |a| {
        assert AtomBefore(b[i - |a|], b[k - |a|]);
      } else {
        assert s[i] in a && s[k] in b;
      }
    }
  }

  lemma BoundAtomOrdered(a: Atom, limit: real)
    requires Lasts(a)
    ensures Ordered(BoundAtom(a, limit), a.start, a.end) && BoundAtom(a, limit) != []
    ensures limit > 0.0 ==> forall x <- BoundAtom(a, limit) :: x.end - x.start <= limit
    ensures AllText(BoundAtom(a, limit)) == a.text
  {
    if limit > 0.0 && a.end - a.start > limit {
      SlicingConserves(a, limit);
    } else {
      AllTextSnoc([], a);
      assert [] + [a] == [a] && AllText([]) + a.text == a.text;
    }
  }

  lemma AllTextConcat(a: seq<Atom>, b: seq<Atom>)
    ensures AllText(a + b) == AllText(a) + AllText(b)
  {
    assert TextsOf(a + b) == TextsOf(a) + TextsOf(b);
    FlattenConcat(TextsOf(a), TextsOf(b));
  }

  lemma {:induction false} BoundAtomsOrdered(atoms: seq<Atom>, limit: real, lo: real, hi: real)
    requires Ordered(atoms, lo, hi) && lo <= hi
    ensures Ordered(BoundAtoms(atoms, limit), lo, if atoms == [] then lo else atoms[|atoms| - 1].end)
    ensures limit > 0.0 ==> forall x <- BoundAtoms(atoms, limit) :: x.end - x.start <= limit
    ensures atoms != [] ==> BoundAtoms(atoms, limit) != []
  {
    if atoms != [] {
      var front, last := atoms[..|atoms| - 1], atoms[|atoms| - 1];
      assert last in atoms && forall a <- front :: a in atoms;
      BoundAtomsOrdered(front, limit, lo, hi);
      BoundAtomOrdered(last, limit);
      if front != [] {
        assert AtomBefore(atoms[|atoms| - 2], last);
        assert front[|front| - 1] in atoms;
      }
      LiftOrdered(BoundAtoms(front, limit), lo, if front == [] then lo else front[|front| - 1].end, last.start);
      ConcatOrdered(BoundAtoms(front, limit), BoundAtom(last, limit), lo, last.start, last.end);
    }
  }

  lemma LiftOrdered(atoms: seq<Atom>, lo: real, hi: real, higher: real)
    requires Ordered(atoms, lo, hi) && hi <= higher
    ensures Ordered(atoms, lo, higher)
  {
  }

  /** Bounding the atoms loses no text. */
  lemma {:induction false} BoundAtomsKeepText(atoms: seq<Atom>, limit: real)
    requires forall a <- atoms :: Lasts(a)
    ensures AllText(BoundAtoms(atoms, limit)) == AllText(atoms)
  {
    if atoms != [] {
      var front, last := atoms[..|atoms| - 1], atoms[|atoms| - 1];
      assert last in atoms && forall a <- front :: a in atoms;
      BoundAtomsKeepText(front, limit);
      BoundAtomOrdered(last, limit);
      AllTextConcat(BoundAtoms(front, limit), BoundAtom(last, limit));
      AllTextSnoc(front, last);
      assert atoms == front + [last];
    }
  }
}
