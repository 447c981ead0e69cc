/** Duplicate control of one source's candidates by pairwise similarity. */
module Novelty {

  /** Scores, pairwise idea and topic similarities, and the similarities to the bounded corpus. */
  datatype Batch = Batch(scores: seq<real>, idea: (nat, nat) -> real, topic: (nat, nat) -> real,
                         recent: nat -> seq<real>)

  datatype Thresholds = Thresholds(sameSource: real, crossSource: real)

  datatype Verdict = Verdict(ideaNovelty: real, topicNovelty: real, recentRisk: real, redundant: bool)

  function Unit(x: real): real { if x < 0.0 then 0.0 else if x > 1.0 then 1.0 else x }

  /** The largest value, or zero of none. */
  function Largest(values: seq<real>): (m: real)
    ensures forall v <- values :: v <= m
    ensures if values == [] then m == 0.0 else m in values
  {
    if values == [] then 0.0
    else if |values| == 1 then values[0]
    else
      var m := Largest(values[1..]);
      assert values == [values[0]] + values[1..];
      if values[0] > m then values[0] else m
  }

  /** The similarities of item `i` to the others, in their order. */
  function Others(n: nat, i: nat, sim: (nat, nat) -> real): (s: seq<real>)
    requires i < n
    ensures |s| == n - 1
  {
    seq(n - 1, k requires 0 <= k => sim(i, Actual(k, i)))
  }

  /** The item the `k`-th entry of that list belongs to. */
  function Actual(k: nat, i: nat): nat { if k < i then k else k + 1 }

  /** `j` beats `i`: a higher score, or the same score and an earlier place. */
  predicate Better(scores: seq<real>, j: nat, i: nat) {
    j < |scores| && i < |scores| && (scores[i] < scores[j] || (scores[i] == scores[j] && j < i))
  }

  predicate CorpusHit(batch: Batch, t: Thresholds, i: nat) { Largest(batch.recent(i)) >= t.crossSource }

  /** `j` is a near-duplicate of `i` that beats it. */
  predicate Beaten(batch: Batch, t: Thresholds, i: nat, j: nat) {
    j != i && Better(batch.scores, j, i) && batch.idea(i, j) >= t.sameSource
  }

  ghost predicate Redundant(batch: Batch, t: Thresholds, i: nat) {
    CorpusHit(batch, t, i) || exists j | 0 <= j < |batch.scores| :: Beaten(batch, t, i, j)
  }

  method IsRedundant(batch: Batch, i: nat, similarities: seq<real>, maxRecent: real, t: Thresholds)
    returns (redundant: bool)
    requires i < |batch.scores| && similarities == Others(|batch.scores|, i, batch.idea)
    requires maxRecent == Largest(batch.recent(i))
    ensures redundant == Redundant(batch, t, i)
  {
    if maxRecent >= t.crossSource {
      return true;
    }
    for k := 0 to |similarities|
      invariant forall m | 0 <= m < k :: !Beaten(batch, t, i, Actual(m, i))
    {
      var actual := Actual(k, i);
      if similarities[k] >= t.sameSource {
        if batch.scores[i] < batch.scores[actual] {
          assert Beaten(batch, t, i, actual);
          return true;
        }
        if batch.scores[i] == batch.scores[actual] && i > actual {
          assert Beaten(batch, t, i, actual);
          return true;
        }
      }
    }
    forall j | 0 <= j < |batch.scores| ensures !Beaten(batch, t, i, j) {
      if j != i {
        var k := if j < i then j else j - 1;
        assert Actual(k, i) == j;
      }
    }
    return false;
  }

  /** The scores and the verdict item `i` gets. */
  ghost predicate Judges(v: Verdict, batch: Batch, t: Thresholds, i: nat)
    requires i < |batch.scores|
  {
    && v.redundant == Redundant(batch, t, i)
    && v.recentRisk == Unit(Largest(batch.recent(i)))
    && v.ideaNovelty == Unit(1.0 - Largest(Others(|batch.scores|, i, batch.idea)))
    && v.topicNovelty == Unit(1.0 - Largest(Others(|batch.scores|, i, batch.topic)))
  }

  method ScoreItem(batch: Batch, t: Thresholds, i: nat) returns (v: Verdict)
    requires i < |batch.scores|
    ensures Judges(v, batch, t, i)
  {
    var ideas, topics := Others(|batch.scores|, i, batch.idea), Others(|batch.scores|, i, batch.topic);
    var recent := Largest(batch.recent(i));
    var redundant := IsRedundant(batch, i, ideas, recent, t);
    v := Verdict(Unit(1.0 - Largest(ideas)), Unit(1.0 - Largest(topics)), Unit(recent), redundant);
  }

  method ScoreNovelty(batch: Batch, t: Thresholds) returns (verdicts: seq<Verdict>)
    ensures |verdicts| == |batch.scores| && forall i | 0 <= i < |verdicts| :: Judges(verdicts[i], batch, t, i)
  {
    verdicts := [];
    for i := 0 to |batch.scores|
      invariant |verdicts| == i && forall k | 0 <= k < i :: Judges(verdicts[k], batch, t, k)
    {
      var v := ScoreItem(batch, t, i);
      verdicts := verdicts + [v];
    }
  }

  lemma OthersAtMost(n: nat, i: nat, sim: (nat, nat) -> real, most: real)
    requires i < n && most >= 0.0
    ensures Largest(Others(n, i, sim)) <= most <==> forall j: nat | j < n && j != i :: sim(i, j) <= most
  {
    var others := Others(n, i, sim);
    if forall j: nat | j < n && j != i :: sim(i, j) <= most {
      forall k | 0 <= k < |others| ensures others[k] <= most {
        assert Actual(k, i) < n && Actual(k, i) != i;
      }
    }
    if Largest(others) <= most {
      forall j: nat | j < n && j != i ensures sim(i, j) <= most {
        var k: nat := if j < i then j else j - 1;
        assert Actual(k, i) == j;
        assert others[k] == sim(i, j);
        assert others[k] in others;
      }
    }
  }

  lemma SomeAtLeast(values: seq<real>, least: real)
    requires least > 0.0
    ensures Largest(values) >= least <==> exists v <- values :: v >= least
  {
    if Largest(values) >= least {
      assert Largest(values) in values;
    }
  }

  /** Any novelty is had exactly by keeping so far from every other item, any risk by coming so near the corpus. */
  lemma ScoresMean(v: Verdict, batch: Batch, t: Thresholds, i: nat, x: real)
    requires i < |batch.scores| && Judges(v, batch, t, i) && 0.0 < x <= 1.0
    ensures v.ideaNovelty >= x <==> forall j: nat | j < |batch.scores| && j != i :: batch.idea(i, j) <= 1.0 - x
    ensures v.topicNovelty >= x <==> forall j: nat | j < |batch.scores| && j != i :: batch.topic(i, j) <= 1.0 - x
    ensures v.recentRisk >= x <==> exists r <- batch.recent(i) :: r >= x
    ensures 0.0 <= v.ideaNovelty <= 1.0 && 0.0 <= v.topicNovelty <= 1.0 && 0.0 <= v.recentRisk <= 1.0
  {
    hide Redundant, Others, Largest;
    OthersAtMost(|batch.scores|, i, batch.idea, 1.0 - x);
    OthersAtMost(|batch.scores|, i, batch.topic, 1.0 - x);
    SomeAtLeast(batch.recent(i), x);
  }

  // ---- what survives ------------------------------------------------------------------------

  ghost predicate Symmetric(sim: (nat, nat) -> real) { forall i: nat, j: nat :: sim(i, j) == sim(j, i) }

  ghost predicate Survives(batch: Batch, t: Thresholds, i: nat) { i < |batch.scores| && !Redundant(batch, t, i) }

  /** Any two survivors are less similar than the same-source threshold. */
  lemma SurvivorsAreApart(batch: Batch, t: Thresholds, i: nat, j: nat)
    requires Symmetric(batch.idea) && i != j && Survives(batch, t, i) && Survives(batch, t, j)
    ensures batch.idea(i, j) < t.sameSource
  {
    assert Better(batch.scores, i, j) || Better(batch.scores, j, i);
    assert !Beaten(batch, t, i, j) && !Beaten(batch, t, j, i);
    assert batch.idea(i, j) == batch.idea(j, i);
  }

  lemma BetterIsTransitive(scores: seq<real>, a: nat, b: nat, c: nat)
    requires Better(scores, a, b) && Better(scores, b, c)
    ensures Better(scores, a, c)
  {
  }

  /** Every item of the chain after the first is a near-duplicate of the one before and beats it. */
  ghost predicate Chain(batch: Batch, t: Thresholds, chain: seq<nat>) {
    && chain != []
    && forall k | 0 < k < |chain| :: Beaten(batch, t, chain[k - 1], chain[k])
  }

  /** The items that beat `i`. */
  ghost function Above(scores: seq<real>, i: nat): set<nat> {
    set j | 0 <= j < |scores| && Better(scores, j, i)
  }

  /**
   Without a corpus hit every item leads, through near-duplicates each better than the one before,
   to a survivor.
   */
  lemma {:induction false} ChainToSurvivor(batch: Batch, t: Thresholds, i: nat) returns (chain: seq<nat>)
    requires i < |batch.scores| && forall k | 0 <= k < |batch.scores| :: !CorpusHit(batch, t, k)
    ensures Chain(batch, t, chain) && chain[0] == i && Survives(batch, t, chain[|chain| - 1])
    decreases Above(batch.scores, i)
  {
    if !Redundant(batch, t, i) {
      return [i];
    }
    var j: nat :| j < |batch.scores| && Beaten(batch, t, i, j);
    forall k | k in Above(batch.scores, j) ensures k in Above(batch.scores, i) {
      BetterIsTransitive(batch.scores, k, j, i);
    }
    assert j in Above(batch.scores, i) && j !in Above(batch.scores, j);
    var rest := ChainToSurvivor(batch, t, j);
    chain := [i] + rest;
    forall k | 0 < k < |chain| ensures Beaten(batch, t, chain[k - 1], chain[k]) {
      if k > 1 {
        assert Beaten(batch, t, rest[k - 2], rest[k - 1]);
      }
    }
  }

  /** No item beats `i`. */
  ghost predicate Best(scores: seq<real>, i: nat) {
    i < |scores| && forall j | 0 <= j < |scores| :: !Better(scores, j, i)
  }

  lemma {:induction false} BestExists(scores: seq<real>) returns (i: nat)
    requires scores != []
    ensures Best(scores, i)
  {
    var last := |scores| - 1;
    if last == 0 {
      return 0;
    }
    var k := BestExists(scores[..last]);
    i := if scores[k] < scores[last] then last else k;
    forall j | 0 <= j < |scores| ensures !Better(scores, j, i) {
      if j < last {
        assert !Better(scores[..last], j, k);
      }
    }
  }

  /** The best item of a batch is kept exactly when the corpus does not claim it. */
  lemma BestIsKeptIff(batch: Batch, t: Thresholds, i: nat)
    requires Best(batch.scores, i)
    ensures Survives(batch, t, i) <==> !CorpusHit(batch, t, i)
  {
    assert forall j | 0 <= j < |batch.scores| :: !Beaten(batch, t, i, j);
  }

  /** A batch loses all its items only to the corpus: without a hit the best of them is kept. */
  lemma SomeItemIsKept(batch: Batch, t: Thresholds)
    requires batch.scores != [] && forall i | 0 <= i < |batch.scores| :: !CorpusHit(batch, t, i)
    ensures exists i | 0 <= i < |batch.scores| :: Best(batch.scores, i) && Survives(batch, t, i)
  {
    var i := BestExists(batch.scores);
    BestIsKeptIff(batch, t, i);
  }
}
