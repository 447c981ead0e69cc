/** The stable sort the source calls as `sorted`, and what its callers rely on. */
module Sorting {
  ghost predicate TotalOrder<T(!new)>(le: (T, T) -> bool) {
    && (forall a, b :: le(a, b) || le(b, a))
    && (forall a, b, c :: le(a, b) && le(b, c) ==> le(a, c))
  }

  ghost predicate Sorted<T>(s: seq<T>, le: (T, T) -> bool) {
    forall i, k | 0 <= i < k < |s| :: le(s[i], s[k])
  }

  function Insert<T>(x: T, s: seq<T>, le: (T, T) -> bool): seq<T> {
    if s == [] || le(x, s[0]) then [x] + s else [s[0]] + Insert(x, s[1..], le)
  }

  function SortBy<T>(s: seq<T>, le: (T, T) -> bool): seq<T> {
    if s == [] then [] else Insert(s[0], SortBy(s[1..], le), le)
  }

  lemma {:induction false} InsertKeeps<T>(x: T, s: seq<T>, le: (T, T) -> bool)
    ensures multiset(Insert(x, s, le)) == multiset(s) + multiset{x}
    ensures |Insert(x, s, le)| == |s| + 1
  {
    if s != [] && !le(x, s[0]) {
      InsertKeeps(x, s[1..], le);
      assert s == [s[0]] + s[1..];
    }
  }

  lemma {:induction false} SortIsPermutation<T>(s: seq<T>, le: (T, T) -> bool)
    ensures multiset(SortBy(s, le)) == multiset(s) && |SortBy(s, le)| == |s|
  {
    if s != [] {
      SortIsPermutation(s[1..], le);
      InsertKeeps(s[0], SortBy(s[1..], le), le);
      assert s == [s[0]] + s[1..];
    }
  }

  lemma {:induction false} InsertIsSorted<T(!new)>(x: T, s: seq<T>, le: (T, T) -> bool)
    requires TotalOrder(le) && Sorted(s, le)
    ensures Sorted(Insert(x, s, le), le)
  {
    if s != [] && !le(x, s[0]) {
      InsertIsSorted(x, s[1..], le);
      InsertKeeps(x, s[1..], le);
      var rest := Insert(x, s[1..], le);
      forall k | 0 <= k < |rest| ensures le(s[0], rest[k]) {
        assert rest[k] in multiset(rest);
        assert rest[k] == x || rest[k] in s[1..];
      }
    } else if s != [] {
      forall k | 0 <= k < |s| ensures le(x, s[k]) {
        assert k == 0 || le(s[0], s[k]);
      }
    }
  }

  lemma {:induction false} SortIsSorted<T(!new)>(s: seq<T>, le: (T, T) -> bool)
    requires TotalOrder(le)
    ensures Sorted(SortBy(s, le), le)
  {
    if s != [] {
      SortIsSorted(s[1..], le);
      InsertIsSorted(s[0], SortBy(s[1..], le), le);
    }
  }

  lemma {:induction false} SortedIsUnchanged<T>(s: seq<T>, le: (T, T) -> bool)
    requires Sorted(s, le)
    ensures SortBy(s, le) == s
  {
    if s != [] {
      SortedIsUnchanged(s[1..], le);
    }
  }

  lemma SortHasSameElements<T(!new)>(s: seq<T>, le: (T, T) -> bool)
    ensures forall x :: x in SortBy(s, le) <==> x in s
  {
    SortIsPermutation(s, le);
    forall x ensures x in SortBy(s, le) <==> x in s {
      assert x in SortBy(s, le) <==> x in multiset(SortBy(s, le));
      assert x in s <==> x in multiset(s);
    }
  }

  ghost predicate Pairwise<T>(s: seq<T>, rel: (T, T) -> bool) {
    forall i, k | 0 <= i < k < |s| :: rel(s[i], s[k])
  }

  lemma {:induction false} InsertIsPairwise<T(!new)>(x: T, s: seq<T>, le: (T, T) -> bool, rel: (T, T) -> bool)
    requires Pairwise(s, rel) && forall y <- s :: rel(x, y) && rel(y, x)
    ensures Pairwise(Insert(x, s, le), rel)
  {
    if s != [] && !le(x, s[0]) {
      InsertIsPairwise(x, s[1..], le, rel);
      InsertKeeps(x, s[1..], le);
      var rest := Insert(x, s[1..], le);
      forall k | 0 <= k < |rest| ensures rel(s[0], rest[k]) {
        assert rest[k] in multiset(rest);
        assert rest[k] == x || rest[k] in s[1..];
      }
    }
  }

  /** Sorting keeps a symmetric relation between all pairs of places. */
  lemma {:induction false} SortIsPairwise<T(!new)>(s: seq<T>, le: (T, T) -> bool, rel: (T, T) -> bool)
    requires Pairwise(s, rel) && forall a, b :: rel(a, b) ==> rel(b, a)
    ensures Pairwise(SortBy(s, le), rel)
  {
    if s != [] {
      SortIsPairwise(s[1..], le, rel);
      SortHasSameElements(s[1..], le);
      forall y | y in SortBy(s[1..], le) ensures rel(s[0], y) && rel(y, s[0]) {
        assert y in s[1..];
      }
      InsertIsPairwise(s[0], SortBy(s[1..], le), le, rel);
    }
  }

  function Filter<T>(s: seq<T>, keep: T -> bool): (r: seq<T>)
    ensures forall x <- r :: x in s && keep(x)
  {
    if s == [] then [] else (if keep(s[0]) then [s[0]] else []) + Filter(s[1..], keep)
  }

  /** What holds between kept elements in their order holds throughout the filtered sequence. */
  lemma {:induction false} FilterIsPairwise<T(!new)>(s: seq<T>, keep: T -> bool, rel: (T, T) -> bool)
    requires Pairwise(s, (a, b) => keep(a) && keep(b) ==> rel(a, b))
    ensures Pairwise(Filter(s, keep), rel)
  {
    if s != [] {
      var rest := Filter(s[1..], keep);
      FilterIsPairwise(s[1..], keep, rel);
      if keep(s[0]) {
        forall k | 0 <= k < |rest| ensures rel(s[0], rest[k]) {
          assert rest[k] in rest;
          var m :| 0 <= m < |s[1..]| && s[1..][m] == rest[k];
          assert s[m + 1] == rest[k];
        }
      }
    }
  }
}
