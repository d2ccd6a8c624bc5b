/** hw2/src/report.c: interpolatequantile, nearly the inverse of quantile normalization. */
module Interpolation {
  import opened Frequencies
  import opened Quantiles
  import opened Reals

  /** From any point of the walk: t is what is left of the table, (pq, ps) the point passed last. */
  function Interpolate(t: Table, n: nat, q: real, pq: real, ps: real): real
    requires t != [] && n > 0
  {
    if |t| == 1 then t[0].score
    else
      var nq, ns := Share(t[0].numless, n), t[0].score;
      if pq <= q && q < nq then OnLine(pq, ps, nq, ns, q)
      else Interpolate(t[1..], n, q, nq, ns)
  }

  function OnLine(pq: real, ps: real, nq: real, ns: real, q: real): real
  {
    if nq - pq == 0.0 then ps else ps + Rise((ns - ps) / (nq - pq), q - pq)
  }

  /** How far a line of the given slope climbs over a run. */
  function Rise(slope: real, run: real): real
  {
    slope * run
  }

  function InterpolateQuantile(t: Table, n: nat, q: real): real
    requires t != [] ==> n > 0
  {
    if t == [] then 0.0 else Interpolate(t, n, q, 0.0, t[0].score)
  }

  /** Scores and ranks both grow strictly along the table. */
  ghost predicate Ranked(t: Table)
  {
    && Increasing(t)
    && forall i, j | 0 <= i < j < |t| :: t[i].numless < t[j].numless
  }

  lemma RankTableRanked(scores: seq<real>)
    ensures var t := RankTable(scores); Ranked(t) && (t != [] ==> t[0].numless == 0)
  {
    var t := RankTable(scores);
    assert Increasing(t) by {
      TableAgrees(scores, 0.0);
      forall i | 0 <= i < |t| ensures t[i].score == TableOf(scores)[i].score && t[i].count > 0 {
        FilledRanks(TableOf(scores), 0, i);
      }
    }
    forall i, j | 0 <= i < j < |t| ensures t[i].numless < t[j].numless {
      RanksTrue(scores, i);
      RanksTrue(scores, j);
      CountLessGrows(scores, t[i].score, t[j].score);
    }
  }

  /** A line that climbs h >= 0 over a run of c climbs less over shorter runs a <= b. */
  lemma LineClimbs(m: real, h: real, a: real, b: real, c: real)
    requires c > 0.0 && h >= 0.0 && m == h / c && 0.0 <= a <= b <= c
    ensures 0.0 <= Rise(m, a) <= Rise(m, b) <= h
  {
    QuotientSign(h, c, m);
    Monotone(m, 0.0, a);
    Monotone(m, a, b);
    Monotone(m, b, c);
    assert m * 0.0 == 0.0;
  }

  lemma SlopeStep(pq: real, ps: real, nq: real, ns: real, q: real, q': real)
    requires pq <= q <= q' < nq && ps <= ns
    ensures ps <= OnLine(pq, ps, nq, ns, q) <= OnLine(pq, ps, nq, ns, q') <= ns
  {
    LineClimbs((ns - ps) / (nq - pq), ns - ps, q - pq, q' - pq, nq - pq);
  }

  ghost predicate Ahead(t: Table, n: nat, pq: real, ps: real)
  {
    n > 0 && t != [] && Ranked(t) && pq <= Share(t[0].numless, n) && ps <= t[0].score
  }

  lemma AheadStep(t: Table, n: nat, pq: real, ps: real)
    requires Ahead(t, n, pq, ps) && |t| > 1
    ensures Ahead(t[1..], n, Share(t[0].numless, n), t[0].score)
  {
    ShareGrows(t[0].numless, t[1].numless, n);
  }

  lemma {:induction false} InterpolateBounds(t: Table, n: nat, q: real, pq: real, ps: real)
    requires Ahead(t, n, pq, ps) && pq <= q
    ensures ps <= Interpolate(t, n, q, pq, ps) <= t[|t|-1].score
  {
    if |t| > 1 {
      var nq, ns := Share(t[0].numless, n), t[0].score;
      AheadStep(t, n, pq, ps);
      if q < nq { SlopeStep(pq, ps, nq, ns, q, q); } else { InterpolateBounds(t[1..], n, q, nq, ns); }
    }
  }

  lemma {:induction false} InterpolateMonotone(t: Table, n: nat, q: real, q': real, pq: real, ps: real)
    requires Ahead(t, n, pq, ps) && pq <= q <= q'
    ensures Interpolate(t, n, q, pq, ps) <= Interpolate(t, n, q', pq, ps)
  {
    if |t| > 1 {
      var nq, ns := Share(t[0].numless, n), t[0].score;
      AheadStep(t, n, pq, ps);
      if q' < nq {
        SlopeStep(pq, ps, nq, ns, q, q');
      } else if q < nq {
        SlopeStep(pq, ps, nq, ns, q, q);
        InterpolateBounds(t[1..], n, q', nq, ns);
      } else {
        InterpolateMonotone(t[1..], n, q, q', nq, ns);
      }
    }
  }

  /** Going on from bucket i's own percentile. */
  lemma {:induction false} InterpolateAt(t: Table, n: nat, i: nat, pq: real, ps: real)
    requires Ahead(t, n, pq, ps) && i < |t|
    ensures Interpolate(t, n, Share(t[i].numless, n), pq, ps) == t[if i + 2 == |t| then i + 1 else i].score
  {
    if |t| > 1 {
      var nq, ns := Share(t[0].numless, n), t[0].score;
      AheadStep(t, n, pq, ps);
      if i > 0 {
        ShareGrows(t[0].numless, t[i].numless, n);
        InterpolateAt(t[1..], n, i - 1, nq, ns);
      } else if |t| > 2 {
        ShareGrows(t[0].numless, t[1].numless, n);
        assert t[1..][0] == t[1];
      }
    }
  }

  /** From one bucket's percentile up to the next one's the walk ends on the line between the two. */
  lemma {:induction false} InterpolateLine(t: Table, n: nat, i: nat, q: real, pq: real, ps: real)
    requires Ahead(t, n, pq, ps) && i + 2 < |t| && Share(t[i].numless, n) <= q < Share(t[i+1].numless, n)
    ensures Interpolate(t, n, q, pq, ps) ==
      OnLine(Share(t[i].numless, n), t[i].score, Share(t[i+1].numless, n), t[i+1].score, q)
  {
    hide OnLine, Ranked;
    AheadStep(t, n, pq, ps);
    if i > 0 {
      AheadShares(t, n, pq, ps, i);
      InterpolateLine(t[1..], n, i - 1, q, Share(t[0].numless, n), t[0].score);
    }
  }

  lemma AheadShares(t: Table, n: nat, pq: real, ps: real, i: nat)
    requires Ahead(t, n, pq, ps) && 0 < i < |t|
    ensures Share(t[0].numless, n) < Share(t[i].numless, n)
  {
    ShareGrows(t[0].numless, t[i].numless, n);
  }

  /** From the percentile of the next-to-last bucket on it ends at the last one. */
  lemma {:induction false} InterpolateTop(t: Table, n: nat, q: real, pq: real, ps: real)
    requires Ahead(t, n, pq, ps) && (|t| > 1 ==> Share(t[|t|-2].numless, n) <= q)
    ensures Interpolate(t, n, q, pq, ps) == t[|t|-1].score
  {
    hide OnLine, Ranked;
    if |t| > 1 {
      AheadStep(t, n, pq, ps);
      if |t| > 2 { AheadShares(t, n, pq, ps, |t| - 2); }
      InterpolateTop(t[1..], n, q, Share(t[0].numless, n), t[0].score);
    }
  }

  lemma OnTheLine(pq: real, ps: real, nq: real, ns: real, q: real)
    requires pq < nq
    ensures (OnLine(pq, ps, nq, ns, q) - ps) * (nq - pq) == (ns - ps) * (q - pq)
  {
    var run, slope := q - pq, (ns - ps) / (nq - pq);
    assert slope * (nq - pq) == ns - ps;
    assert (slope * run) * (nq - pq) == (slope * (nq - pq)) * run;
  }

  /** The walk over the table of any scores starts ahead of it. */
  lemma FromStart(scores: seq<real>)
    requires RankTable(scores) != []
    ensures scores != [] && Ahead(RankTable(scores), |scores|, 0.0, RankTable(scores)[0].score)
  {
    RankTableRanked(scores);
  }

  lemma RankTableTop(scores: seq<real>)
    ensures RankTable(scores) != [] <==> scores != []
    ensures scores != [] ==> Highest(scores, RankTable(scores)[|RankTable(scores)|-1].score)
  {
    if scores != [] {
      LastIsHighest(scores);
      TableAgrees(scores, 0.0);
      FilledRanks(TableOf(scores), 0, |TableOf(scores)| - 1);
    }
  }

  /** Between the percentiles of two neighbouring buckets the result is on the straight line between their scores. */
  lemma QuantileLine(scores: seq<real>, i: nat, q: real)
    requires var t := RankTable(scores);
      scores != [] && i + 2 < |t| && Share(t[i].numless, |scores|) <= q < Share(t[i+1].numless, |scores|)
    ensures var t, n := RankTable(scores), |scores|;
      var p, p' := Share(t[i].numless, n), Share(t[i+1].numless, n);
      (InterpolateQuantile(t, n, q) - t[i].score) * (p' - p) == (t[i+1].score - t[i].score) * (q - p)
  {
    hide OnLine, Interpolate, Ahead, Share, Highest;
    var t, n := RankTable(scores), |scores|;
    RankTableTop(scores);
    FromStart(scores);
    InterpolateLine(t, n, i, q, 0.0, t[0].score);
    OnTheLine(Share(t[i].numless, n), t[i].score, Share(t[i+1].numless, n), t[i+1].score, q);
  }

  /** From the percentile of the next-to-last score on, and for a single score everywhere, it is the highest score. */
  lemma QuantileTop(scores: seq<real>, q: real)
    requires var t := RankTable(scores);
      scores != [] && q >= 0.0 && (|t| > 1 ==> Share(t[|t|-2].numless, |scores|) <= q)
    ensures var t := RankTable(scores);
      t != [] && InterpolateQuantile(t, |scores|, q) == t[|t|-1].score && Highest(scores, t[|t|-1].score)
  {
    hide Interpolate, RankTable, Ahead, Highest, Share;
    var t := RankTable(scores);
    RankTableTop(scores);
    FromStart(scores);
    InterpolateTop(t, |scores|, q, 0.0, t[0].score);
  }

  /** The first of the summary quantiles of 10, 20, 30 and 40 is 14. */
  lemma TenthOfFour()
    ensures InterpolateQuantile(RankTable([10.0, 20.0, 30.0, 40.0]), 4, 10.0) == 14.0
  {
    var scores := [10.0, 20.0, 30.0, 40.0];
    FourRanks();
    QuantileLine(scores, 0, 10.0);
  }

  lemma FourRanks()
    ensures RankTable([10.0, 20.0, 30.0, 40.0]) ==
      [Bucket(10.0, 1, 0, 1), Bucket(20.0, 1, 1, 2), Bucket(30.0, 1, 2, 3), Bucket(40.0, 1, 3, 4)]
  {
    var scores := [10.0, 20.0, 30.0, 40.0];
    assert scores[..3] == [10.0, 20.0, 30.0] && scores[..3][..2] == [10.0, 20.0] && scores[..2][..1] == [10.0];
    var a, b, c, d := Bucket(10.0, 1, 0, 0), Bucket(20.0, 1, 0, 0), Bucket(30.0, 1, 0, 0), Bucket(40.0, 1, 0, 0);
    assert TableOf([10.0]) == [a];
    assert TableOf([10.0, 20.0]) == [a, b] by { assert AddScore([a], 20.0) == [a] + AddScore([], 20.0); }
    assert TableOf([10.0, 20.0, 30.0]) == [a, b, c] by {
      assert AddScore([b], 30.0) == [b] + AddScore([], 30.0);
      assert AddScore([a, b], 30.0) == [a] + AddScore([b], 30.0);
    }
    assert TableOf(scores) == [a, b, c, d] by {
      assert AddScore([c], 40.0) == [c] + AddScore([], 40.0);
      assert AddScore([b, c], 40.0) == [b] + AddScore([c], 40.0);
      assert AddScore([a, b, c], 40.0) == [a] + AddScore([b, c], 40.0);
    }
    assert [a, b, c, d][1..] == [b, c, d] && [b, c, d][1..] == [c, d] && [c, d][1..] == [d];
  }

  /** For the table of any scores: between the extreme scores, and non-decreasing in q. */
  lemma QuantileCurve(scores: seq<real>, q: real, q': real)
    requires scores != [] && 0.0 <= q <= q'
    ensures var t := RankTable(scores);
      && t != [] && t[0].score <= InterpolateQuantile(t, |scores|, q) <= InterpolateQuantile(t, |scores|, q')
      && InterpolateQuantile(t, |scores|, q') <= t[|t|-1].score
  {
    var t := RankTable(scores);
    LastIsHighest(scores);
    RankTableRanked(scores);
    InterpolateBounds(t, |scores|, q, 0.0, t[0].score);
    InterpolateBounds(t, |scores|, q', 0.0, t[0].score);
    InterpolateMonotone(t, |scores|, q, q', 0.0, t[0].score);
  }

  /**
   * A bucket's own percentile, as quantile normalization assigns it to the bucket's score, leads back to that
   * score for every bucket except the next-to-last.
   */
  lemma QuantileInverse(scores: seq<real>, i: nat)
    requires i < |RankTable(scores)|
    ensures var t := RankTable(scores);
      && scores != [] && Percentile(t, |scores|, t[i].score) == Share(t[i].numless, |scores|)
      && (InterpolateQuantile(t, |scores|, Percentile(t, |scores|, t[i].score)) == t[i].score <==> i + 2 != |t|)
  {
    var t := RankTable(scores);
    RankTableRanked(scores);
    RanksTrue(scores, i);
    CountPositive(scores, t[i].score);
    QuantileExact(scores, t[i].score);
    InterpolateAt(t, |scores|, i, 0.0, t[0].score);
  }

  /** Of two scores, the percentile of the lower one leads to the higher one. */
  lemma NextToLastMissed()
    ensures var t := RankTable([1.0, 2.0]);
      |t| == 2 && t[0].score == 1.0 && InterpolateQuantile(t, 2, Percentile(t, 2, 1.0)) == 2.0
  {
    var scores := [1.0, 2.0];
    assert scores[..1] == [1.0] && [1.0][..0] == [];
    var low, high := Bucket(1.0, 1, 0, 0), Bucket(2.0, 1, 0, 0);
    assert TableOf([1.0]) == AddScore(TableOf([]), 1.0) == [low];
    assert TableOf(scores) == AddScore([low], 2.0);
    assert [low][1..] == [] && AddScore([], 2.0) == [high];
    assert TableOf(scores) == [low, high];
    QuantileInverse(scores, 0);
  }
}
