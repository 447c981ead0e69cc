/** Concatenating, reversing and splitting sequences. */
module Sequences {
  function Flatten<T>(parts: seq<seq<T>>): seq<T> {
    if parts == [] then [] else parts[0] + Flatten(parts[1..])
  }

  lemma {:induction false} FlattenAppend<T>(parts: seq<seq<T>>, last: seq<T>)
    ensures Flatten(parts + [last]) == Flatten(parts) + last
  {
    if parts == [] {
      assert parts + [last] == [last];
      assert Flatten([last]) == last;
    } else {
      FlattenAppend(parts[1..], last);
      assert (parts + [last])[1..] == parts[1..] + [last];
    }
  }

  lemma {:induction false} FlattenConcat<T>(a: seq<seq<T>>, b: seq<seq<T>>)
    ensures Flatten(a + b) == Flatten(a) + Flatten(b)
  {
    if a == [] {
      assert a + b == b;
    } else {
      FlattenConcat(a[1..], b);
      assert (a + b)[0] == a[0] && (a + b)[1..] == a[1..] + b;
      assert Flatten(a + b) == a[0] + (Flatten(a[1..]) + Flatten(b));
      assert a[0] + (Flatten(a[1..]) + Flatten(b)) == (a[0] + Flatten(a[1..])) + Flatten(b);
    }
  }

  /** Where part `i` starts in the concatenation. */
  function Offset<T>(parts: seq<seq<T>>, i: nat): nat
    requires i <= |parts|
  {
    |Flatten(parts[..i])|
  }

  lemma PartOfFlatten<T>(parts: seq<seq<T>>, i: nat)
    requires i < |parts|
    ensures Offset(parts, i) + |parts[i]| == Offset(parts, i + 1) <= |Flatten(parts)|
    ensures parts[i] == Flatten(parts)[Offset(parts, i)..Offset(parts, i + 1)]
  {
    assert parts == parts[..i] + [parts[i]] + parts[i + 1..];
    FlattenConcat(parts[..i] + [parts[i]], parts[i + 1..]);
    FlattenAppend(parts[..i], parts[i]);
    assert parts[..i + 1] == parts[..i] + [parts[i]];
  }

  lemma OffsetsGrow<T>(parts: seq<seq<T>>, i: nat, k: nat)
    requires i <= k <= |parts|
    ensures Offset(parts, i) <= Offset(parts, k) <= |Flatten(parts)|
  {
    assert parts[..k] == parts[..i] + parts[i..k];
    FlattenConcat(parts[..i], parts[i..k]);
    assert parts == parts[..k] + parts[k..];
    FlattenConcat(parts[..k], parts[k..]);
  }

  /** Some part holds each position of the concatenation. */
  lemma {:induction false} PartAt<T>(parts: seq<seq<T>>, at: nat) returns (i: nat)
    requires at < |Flatten(parts)|
    ensures i < |parts| && Offset(parts, i) <= at < Offset(parts, i + 1)
  {
    if at < |parts[0]| {
      i := 0;
      assert parts[..1] == [parts[0]];
    } else {
      var k := PartAt(parts[1..], at - |parts[0]|);
      i := k + 1;
      assert parts[..i] == [parts[0]] + parts[1..][..k];
      assert parts[..i + 1] == [parts[0]] + parts[1..][..k + 1];
      FlattenConcat([parts[0]], parts[1..][..k]);
      FlattenConcat([parts[0]], parts[1..][..k + 1]);
      assert Flatten([parts[0]]) == parts[0];
    }
  }

  function Reverse<T>(s: seq<T>): (r: seq<T>)
    ensures |r| == |s|
  {
    if s == [] then [] else Reverse(s[1..]) + [s[0]]
  }

  lemma {:induction false} ReverseConcat<T>(a: seq<T>, b: seq<T>)
    ensures Reverse(a + b) == Reverse(b) + Reverse(a)
  {
    if a == [] {
      assert a + b == b;
    } else {
      ReverseConcat(a[1..], b);
      assert (a + b)[1..] == a[1..] + b;
    }
  }

  lemma {:induction false} ReverseTwice<T>(s: seq<T>)
    ensures Reverse(Reverse(s)) == s
  {
    if s != [] {
      ReverseTwice(s[1..]);
      ReverseConcat(Reverse(s[1..]), [s[0]]);
      assert Reverse([s[0]]) == [s[0]];
    }
  }

  lemma {:induction false} ReverseKeeps<T>(s: seq<T>)
    ensures multiset(Reverse(s)) == multiset(s)
  {
    if s != [] {
      ReverseKeeps(s[1..]);
      assert s == [s[0]] + s[1..];
    }
  }

  function MapSeq<A, B>(s: seq<A>, f: A -> B): (r: seq<B>)
    ensures |r| == |s| && forall i | 0 <= i < |s| :: r[i] == f(s[i])
  {
    seq(|s|, i requires 0 <= i < |s| => f(s[i]))
  }

  lemma MapSeqSnoc<A, B>(s: seq<A>, x: A, f: A -> B)
    ensures MapSeq(s + [x], f) == MapSeq(s, f) + [f(x)]
  {
  }

  lemma MapSeqConcat<A, B>(a: seq<A>, b: seq<A>, f: A -> B)
    ensures MapSeq(a + b, f) == MapSeq(a, f) + MapSeq(b, f)
  {
  }

  /** The indexes `from`, ..., `to - 1` in order. */
  function Range(from: nat, to: nat): (r: seq<nat>)
    requires from <= to
    ensures |r| == to - from
  {
    seq(to - from, i requires 0 <= i => from + i)
  }

  lemma RangeSlice(n: nat, from: nat, to: nat)
    requires from <= to <= n
    ensures Range(0, n)[from..to] == Range(from, to)
  {
  }

  lemma RangeGrows(a: nat, b: nat, c: nat)
    requires a <= b <= c
    ensures Range(a, b) + Range(b, c) == Range(a, c)
  {
  }

  /** Parts of an index range are index ranges. */
  lemma PartOfRange(parts: seq<seq<nat>>, n: nat, k: nat)
    requires Flatten(parts) == Range(0, n) && k < |parts|
    ensures Offset(parts, k) <= Offset(parts, k + 1) <= n
    ensures parts[k] == Range(Offset(parts, k), Offset(parts, k + 1))
  {
    PartOfFlatten(parts, k);
    RangeSlice(n, Offset(parts, k), Offset(parts, k + 1));
  }

  lemma InRange(a: nat, b: nat, t: nat)
    requires a <= b
    ensures t in Range(a, b) <==> a <= t < b
  {
    if a <= t < b {
      assert Range(a, b)[t - a] == t;
    }
  }

  /** Distinct parts of an index range share no index. */
  lemma PartsAreDisjoint(parts: seq<seq<nat>>, n: nat, i: nat, k: nat, t: nat)
    requires Flatten(parts) == Range(0, n) && i < |parts| && k < |parts| && t in parts[i] && t in parts[k]
    ensures i == k
  {
    PartOfRange(parts, n, i);
    PartOfRange(parts, n, k);
    InRange(Offset(parts, i), Offset(parts, i + 1), t);
    InRange(Offset(parts, k), Offset(parts, k + 1), t);
    if i < k {
      OffsetsGrow(parts, i + 1, k);
    } else if k < i {
      OffsetsGrow(parts, k + 1, i);
    }
  }

  /** The part of an index range that holds index `t`. */
  lemma PartHolding(parts: seq<seq<nat>>, n: nat, t: nat) returns (i: nat)
    requires Flatten(parts) == Range(0, n) && t < n
    ensures i < |parts| && t in parts[i] && Offset(parts, i) <= t < Offset(parts, i + 1)
  {
    i := PartAt(parts, t);
    PartOfRange(parts, n, i);
    InRange(Offset(parts, i), Offset(parts, i + 1), t);
  }

  /** The first `i` elements of one sequence, the others of another. */
  function Splice<T>(done: seq<T>, rest: seq<T>, i: nat): seq<T>
    requires |done| == |rest| && i <= |rest|
  {
    done[..i] + rest[i..]
  }

  lemma SpliceStep<T>(done: seq<T>, rest: seq<T>, i: nat)
    requires |done| == |rest| && i < |rest|
    ensures Splice(done, rest, i)[i] == rest[i]
    ensures Splice(done, rest, i)[i := done[i]] == Splice(done, rest, i + 1)
  {
  }

  lemma SpliceEnds<T>(done: seq<T>, rest: seq<T>)
    requires |done| == |rest|
    ensures Splice(done, rest, 0) == rest && Splice(done, rest, |rest|) == done
  {
  }

  /** The images of the elements, one after the other. */
  function FlatMap<A, B>(s: seq<A>, f: A -> seq<B>): seq<B> {
    if s == [] then [] else f(s[0]) + FlatMap(s[1..], f)
  }

  lemma {:induction false} FlatMapConcat<A, B>(a: seq<A>, b: seq<A>, f: A -> seq<B>)
    ensures FlatMap(a + b, f) == FlatMap(a, f) + FlatMap(b, f)
  {
    if a == [] {
      assert a + b == b;
    } else {
      FlatMapConcat(a[1..], b, f);
      assert (a + b)[0] == a[0] && (a + b)[1..] == a[1..] + b;
      Associate(f(a[0]), FlatMap(a[1..], f), FlatMap(b, f));
    }
  }

  lemma Associate<T>(a: seq<T>, b: seq<T>, c: seq<T>)
    ensures a + (b + c) == (a + b) + c
  {
  }

  lemma FlatMapOne<A, B>(x: A, f: A -> seq<B>)
    ensures FlatMap([x], f) == f(x)
  {
    assert [x][1..] == [];
  }
}
