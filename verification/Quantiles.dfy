/**
 * Percentiles from the frequency table: do_quantiles of hw2/src/stats.c, the QUANTILE branch of normal in
 * hw2/src/normal.c, and interpolatequantile of hw2/src/report.c.
 */
module Quantiles {
  import opened Frequencies
  import opened Reals

  /** What do_quantiles makes of a table whose earlier buckets hold `sum` scores. */
  function Filled(t: Table, sum: nat): (r: Table)
    ensures |r| == |t|
  {
    if t == [] then []
    else [t[0].(numless := sum, numlesseq := sum + t[0].count)] + Filled(t[1..], sum + t[0].count)
  }

  /** The table of the scores once do_quantiles has run on it. */
  ghost function RankTable(scores: seq<real>): Table
  {
    Filled(TableOf(scores), 0)
  }

  lemma {:induction false} BelowAll(t: Table, s: real)
    requires forall i | 0 <= i < |t| :: s <= t[i].score
    ensures Below(t, s) == 0
  {
    if t != [] { BelowAll(t[1..], s); }
  }

  lemma {:induction false} FilledRanks(t: Table, sum: nat, i: nat)
    requires Increasing(t) && i < |t|
    ensures var b := Filled(t, sum)[i];
      b.score == t[i].score && b.count == t[i].count &&
      b.numless == sum + Below(t, b.score) && b.numlesseq == b.numless + b.count
  {
    if i == 0 { BelowAll(t[1..], t[0].score); } else { FilledRanks(t[1..], sum + t[0].count, i - 1); }
  }

  lemma {:induction false} CountAtBucket(t: Table, i: nat)
    requires Increasing(t) && i < |t|
    ensures CountAt(t, t[i].score) == t[i].count
  {
    if i == 0 { CountAtOther(t[1..], t[0].score); } else { CountAtBucket(t[1..], i - 1); }
  }

  lemma {:induction false} CountAtOther(t: Table, s: real)
    requires forall i | 0 <= i < |t| :: t[i].score != s
    ensures CountAt(t, s) == 0
  {
    if t != [] { CountAtOther(t[1..], s); }
  }

  /** numless and numlesseq are the true ranks of a bucket's score among the scores tallied. */
  lemma RanksTrue(scores: seq<real>, i: nat)
    requires i < |RankTable(scores)|
    ensures var b := RankTable(scores)[i];
      && b.count == CountEqual(scores, b.score) > 0
      && b.numless == CountLess(scores, b.score)
      && b.numlesseq == CountLess(scores, b.score) + CountEqual(scores, b.score)
  {
    var t := TableOf(scores);
    TableAgrees(scores, t[i].score);
    FilledRanks(t, 0, i);
    CountAtBucket(t, i);
  }

  // ----- quantile normalization -----

  /** a of n as a percentage. */
  function Share(a: nat, n: nat): real
    requires n > 0
  {
    a as real * 100.0 / n as real
  }

  lemma ShareGrows(a: nat, b: nat, n: nat)
    requires a < b && n > 0
    ensures Share(a, n) < Share(b, n)
  {
  }

  lemma ShareRange(a: nat, n: nat)
    requires a < n
    ensures 0.0 <= Share(a, n) < 100.0
  {
    assert Share(n, n) == 100.0;
    ShareGrows(a, n, n);
  }

  /** The loop of the QUANTILE branch: the first bucket not below s decides; 0 when there is none. */
  function Percentile(t: Table, n: nat, s: real): real
    requires n > 0
  {
    if t == [] then 0.0
    else if s < t[0].score || s == t[0].score then Share(t[0].numless, n)
    else Percentile(t[1..], n, s)
  }

  lemma {:induction false} PercentileIsRank(t: Table, sum: nat, n: nat, s: real)
    requires Increasing(t) && n > 0
    ensures Percentile(Filled(t, sum), n, s) ==
      if t != [] && s <= t[|t|-1].score then Share(sum + Below(t, s), n) else 0.0
  {
    if t != [] {
      var f := Filled(t, sum);
      assert f[1..] == Filled(t[1..], sum + t[0].count);
      if s <= t[0].score { BelowAll(t, s); } else { PercentileIsRank(t[1..], sum + t[0].count, n, s); }
    }
  }

  ghost predicate Highest(scores: seq<real>, top: real)
  {
    top in scores && forall x | x in scores :: x <= top
  }

  lemma {:induction false} CountPositive(scores: seq<real>, s: real)
    ensures CountEqual(scores, s) > 0 <==> s in scores
    ensures CountLess(scores, s) + CountEqual(scores, s) <= |scores|
  {
    if scores != [] {
      var n := |scores| - 1;
      CountPositive(scores[..n], s);
      assert scores == scores[..n] + [scores[n]];
    }
  }

  /** A table's scores are the scores tallied. */
  lemma BucketScores(scores: seq<real>, x: real)
    ensures x in scores <==> exists i :: 0 <= i < |TableOf(scores)| && TableOf(scores)[i].score == x
  {
    var t := TableOf(scores);
    TableAgrees(scores, x);
    CountPositive(scores, x);
    if i :| 0 <= i < |t| && t[i].score == x { CountAtBucket(t, i); } else { CountAtOther(t, x); }
  }

  /** The first and the last bucket hold the lowest and the highest score tallied. */
  lemma LastIsHighest(scores: seq<real>)
    requires scores != []
    ensures var t := TableOf(scores); t != [] && Highest(scores, t[|t|-1].score) && t[0].score in scores
    ensures forall x | x in scores :: TableOf(scores)[0].score <= x
  {
    var t := TableOf(scores);
    TableAgrees(scores, 0.0);
    BucketScores(scores, t[|t|-1].score);
    BucketScores(scores, t[0].score);
    forall x | x in scores ensures t[0].score <= x <= t[|t|-1].score {
      BucketScores(scores, x);
    }
  }

  /**
   * Quantile normalization is 100 times the share of scores below s, exactly when s does not exceed the
   * highest score tallied; above it the branch falls through to 0.
   */
  lemma QuantileExact(scores: seq<real>, s: real)
    requires scores != []
    ensures Percentile(RankTable(scores), |scores|, s) == Share(CountLess(scores, s), |scores|)
      <==> exists x :: x in scores && s <= x
    ensures !(exists x :: x in scores && s <= x) ==> Percentile(RankTable(scores), |scores|, s) == 0.0
  {
    hide CountLess, TableOf;
    var t := TableOf(scores);
    TableAgrees(scores, s);
    LastIsHighest(scores);
    PercentileIsRank(t, 0, |scores|, s);
    if s > t[|t|-1].score {
      AllBelow(scores, s);
    }
  }

  lemma {:induction false} AllBelow(scores: seq<real>, s: real)
    requires forall x | x in scores :: x < s
    ensures CountLess(scores, s) == |scores|
  {
    if scores != [] {
      var n := |scores| - 1;
      forall x | x in scores[..n] ensures x < s { assert x in scores; }
      assert scores[n] in scores;
      AllBelow(scores[..n], s);
    }
  }

  lemma {:induction false} CountLessGrows(scores: seq<real>, s: real, s': real)
    requires s < s'
    ensures CountLess(scores, s) + CountEqual(scores, s) <= CountLess(scores, s')
  {
    if scores != [] { CountLessGrows(scores[..|scores|-1], s, s'); }
  }

  /** On the scores tallied, quantile normalization keeps the strict order and stays in [0, 100). */
  lemma QuantileStrict(scores: seq<real>, s: real, s': real)
    requires s in scores && s' in scores
    ensures var n := |scores|; var t := RankTable(scores);
      && 0.0 <= Percentile(t, n, s) < 100.0
      && (s < s' ==> Percentile(t, n, s) < Percentile(t, n, s'))
  {
    QuantileExact(scores, s);
    QuantileExact(scores, s');
    CountPositive(scores, s);
    ShareRange(CountLess(scores, s), |scores|);
    if s < s' {
      CountLessGrows(scores, s, s');
      ShareGrows(CountLess(scores, s), CountLess(scores, s'), |scores|);
    }
  }

  /** A score above the only one tallied gets 0, not 100. */
  lemma AboveTheTop()
    ensures Percentile(RankTable([1.0]), 1, 2.0) == 0.0 != Share(CountLess([1.0], 2.0), 1)
  {
    assert [1.0][..0] == [];
    QuantileExact([1.0], 2.0);
    AllBelow([1.0], 2.0);
  }

  // ----- what the comment in normal promises -----

  /** g is the greatest score tallied below s. */
  ghost predicate GreatestBelow(scores: seq<real>, s: real, g: real)
  {
    g in scores && g < s && forall x | x in scores && x < s :: x <= g
  }

  /** For a tallied score the branch returns the percentile of that score, as the comment says. */
  lemma TalliedPercentile(scores: seq<real>, s: real)
    requires s in scores
    ensures Percentile(RankTable(scores), |scores|, s) == Share(CountLess(scores, s), |scores|)
  {
    QuantileExact(scores, s);
  }

  /**
   * For any other score it returns the percentile of the greatest score below, as the comment says, only when there is
   * nothing to rank: no score is higher and all that were tallied are equal.
   */
  lemma UntalliedPercentile(scores: seq<real>, s: real, g: real)
    requires s !in scores && GreatestBelow(scores, s, g)
    ensures Percentile(RankTable(scores), |scores|, s) == Share(CountLess(scores, g), |scores|) <==>
      (forall x | x in scores :: x < s) && (forall x, y | x in scores && y in scores :: x == y)
  {
    hide CountLess, CountEqual, RankTable, Percentile, Share;
    var n := |scores|;
    QuantileExact(scores, s);
    CountPositive(scores, g);
    NoneBelow(scores, g);
    ShareZero(CountLess(scores, g), n);
    if x :| x in scores && s <= x {
      CountLessGrows(scores, g, s);
      ShareGrows(CountLess(scores, g), CountLess(scores, s), n);
      assert Percentile(RankTable(scores), n, s) != Share(CountLess(scores, g), n);
    } else {
      assert forall x | x in scores :: x < s;
      assert Percentile(RankTable(scores), n, s) == 0.0;
      forall x | x in scores ensures x <= g { assert x < s; }
      AllAtLeast(scores, g);
      assert (forall x | x in scores :: g <= x) <==> (forall x, y | x in scores && y in scores :: x == y);
    }
  }

  lemma ShareZero(a: nat, n: nat)
    requires n > 0
    ensures Share(a, n) == 0.0 <==> a == 0
  {
    QuotientSign(a as real * 100.0, n as real, Share(a, n));
  }

  lemma AllAtLeast(scores: seq<real>, g: real)
    ensures (forall i | 0 <= i < |scores| :: g <= scores[i]) <==> (forall x | x in scores :: g <= x)
  {
    if forall x | x in scores :: g <= x {
      forall i | 0 <= i < |scores| ensures g <= scores[i] { assert scores[i] in scores; }
    }
  }

  lemma {:induction false} NoneBelow(scores: seq<real>, g: real)
    ensures CountLess(scores, g) == 0 <==> forall i | 0 <= i < |scores| :: g <= scores[i]
  {
    if scores != [] {
      var n := |scores| - 1;
      NoneBelow(scores[..n], g);
      assert (forall i | 0 <= i < |scores| :: g <= scores[i]) <==>
        (g <= scores[n] && forall i | 0 <= i < n :: g <= scores[..n][i]);
    }
  }

  /**
   * Between the tallied scores 1 and 2 the branch returns 50, where the percentile of the greatest score below is 0.
   */
  lemma BetweenBuckets()
    ensures var scores := [1.0, 2.0];
      && GreatestBelow(scores, 1.5, 1.0) && Share(CountLess(scores, 1.0), 2) == 0.0
      && Percentile(RankTable(scores), 2, 1.5) == 50.0
  {
    var scores := [1.0, 2.0];
    assert scores[..1] == [1.0] && [1.0][..0] == [];
    assert scores[1] in scores && scores[0] in scores;
    assert CountLess([1.0], 1.5) == 1 && CountLess([1.0], 1.0) == 0;
    QuantileExact(scores, 1.5);
  }
}
