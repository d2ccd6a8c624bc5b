/**
 * hw2/src/stats.c: the frequency table of an assignment, a list of buckets from the lowest score to the
 * highest. Tables are sequences of buckets; FreqList keeps one in linked form.
 */
module Frequencies {

  datatype Bucket = Bucket(score: real, count: nat, numless: nat, numlesseq: nat)

  type Table = seq<Bucket>

  /** The table with one more score: counted in its bucket, or in a new bucket before the next higher one. */
  function AddScore(t: Table, g: real): Table
  {
    if t == [] || t[0].score > g then [Bucket(g, 1, 0, 0)] + t
    else if t[0].score == g then [t[0].(count := t[0].count + 1)] + t[1..]
    else [t[0]] + AddScore(t[1..], g)
  }

  /** The table that counting the scores in order builds. */
  ghost function TableOf(scores: seq<real>): Table
  {
    if scores == [] then [] else AddScore(TableOf(scores[..|scores|-1]), scores[|scores|-1])
  }

  // ----- what the table should agree with: plain counting -----

  ghost function CountLess(scores: seq<real>, s: real): nat
  {
    if scores == [] then 0 else CountLess(scores[..|scores|-1], s) + if scores[|scores|-1] < s then 1 else 0
  }

  ghost function CountEqual(scores: seq<real>, s: real): nat
  {
    if scores == [] then 0 else CountEqual(scores[..|scores|-1], s) + if scores[|scores|-1] == s then 1 else 0
  }

  /** The counts of the buckets below s, and of those at s. */
  ghost function Below(t: Table, s: real): nat
  {
    if t == [] then 0 else (if t[0].score < s then t[0].count else 0) + Below(t[1..], s)
  }

  ghost function CountAt(t: Table, s: real): nat
  {
    if t == [] then 0 else (if t[0].score == s then t[0].count else 0) + CountAt(t[1..], s)
  }

  ghost predicate Increasing(t: Table)
  {
    && (forall i, j | 0 <= i < j < |t| :: t[i].score < t[j].score)
    && (forall i | 0 <= i < |t| :: t[i].count > 0)
  }

  lemma {:induction false} AddScoreCounts(t: Table, g: real, s: real)
    ensures Below(AddScore(t, g), s) == Below(t, s) + if g < s then 1 else 0
    ensures CountAt(AddScore(t, g), s) == CountAt(t, s) + if g == s then 1 else 0
  {
    if t == [] || t[0].score > g {
      assert AddScore(t, g)[1..] == t;
    } else if t[0].score == g {
      assert AddScore(t, g)[1..] == t[1..];
    } else {
      assert AddScore(t, g)[1..] == AddScore(t[1..], g);
      AddScoreCounts(t[1..], g, s);
    }
  }

  lemma {:induction false} AddScoreIncreasing(t: Table, g: real)
    requires Increasing(t)
    ensures var u := AddScore(t, g);
      Increasing(u) && u != [] && (u[0].score == g || (t != [] && u[0].score == t[0].score))
  {
    if t != [] && t[0].score < g {
      AddScoreIncreasing(t[1..], g);
      var v := AddScore(t[1..], g);
      assert v[0].score > t[0].score;
      Prepend(t[0], v);
    } else if t != [] && t[0].score > g {
      Prepend(Bucket(g, 1, 0, 0), t);
    }
  }

  lemma Prepend(b: Bucket, v: Table)
    requires Increasing(v) && b.count > 0 && (v != [] ==> b.score < v[0].score)
    ensures Increasing([b] + v)
  {
  }

  /** The index agrees with counting: one bucket per score, holding how often it was tallied. */
  lemma {:induction false} TableAgrees(scores: seq<real>, s: real)
    ensures Increasing(TableOf(scores))
    ensures Below(TableOf(scores), s) == CountLess(scores, s)
    ensures CountAt(TableOf(scores), s) == CountEqual(scores, s)
  {
    if scores != [] {
      var n := |scores| - 1;
      TableAgrees(scores[..n], s);
      AddScoreCounts(TableOf(scores[..n]), scores[n], s);
      AddScoreIncreasing(TableOf(scores[..n]), scores[n]);
    }
  }
}
