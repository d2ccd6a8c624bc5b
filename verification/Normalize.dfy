/** hw2/src/normal.c: normalizing one raw score by the policy of its assignment. */
module Normalize {
  import opened GradeDb
  import opened Frequencies
  import opened Quantiles
  import opened Moments
  import opened Accumulate
  import opened Grades
  import opened Pipeline
  import opened FreqList

  /** The group of records the policy is applied over. */
  function Over(csp: Stats, ssp: Stats): Stats
  {
    if csp.asgt.ngroup.BYCLASS? then csp else ssp
  }

  function Scale(s: real, max: real, scale: real): real
    requires max != 0.0
  {
    s * scale / max
  }

  /** What normal computes from the state it finds. */
  ghost function NormalOf(s: real, csp: Stats, ssp: Stats): real
    reads csp, ssp, csp.asgt
  {
    var a, o := csp.asgt, Over(csp, ssp);
    match a.npolicy
    case RAW => s
    case LINEAR => Linear(s, o.mean, Usable(o.stddev), a.mean, a.stddev)
    case SCALE => Scale(s, Usable(a.max), a.scale)
    case QUANTILE => Percentile(o.table, if o.tallied == 0 then 1 else o.tallied, s)
  }

  /**
   * normal replaces a deviation or a maximum too small to divide by; nothing else changes, and no later score
   * is normalized differently because of it.
   */
  method Normal(s: real, csp: Stats, ssp: Stats) returns (r: real)
    requires ssp.asgt == csp.asgt
    requires csp.asgt.npolicy.QUANTILE? ==> var o := Over(csp, ssp); Holds(o.freqs, o.nodes, o.table)
    modifies csp`stddev, ssp`stddev, csp.asgt`max
    ensures r == old(NormalOf(s, csp, ssp))
    ensures forall t :: NormalOf(t, csp, ssp) == old(NormalOf(t, csp, ssp))
    ensures csp.stddev == old(csp.stddev) || csp.stddev == Usable(old(csp.stddev))
    ensures ssp.stddev == old(ssp.stddev) || ssp.stddev == Usable(old(ssp.stddev))
    ensures csp.asgt.max == old(csp.asgt.max) || csp.asgt.max == Usable(old(csp.asgt.max))
  {
    var a := csp.asgt;
    match a.npolicy {
      case RAW =>
        r := s;
      case LINEAR =>
        match a.ngroup {
          case BYCLASS =>
            if csp.stddev < EPSILON { csp.stddev := 2.0 * EPSILON; }
            r := Linear(s, csp.mean, csp.stddev, a.mean, a.stddev);
          case BYSECTION =>
            if ssp.stddev < EPSILON { ssp.stddev := 2.0 * EPSILON; }
            r := Linear(s, ssp.mean, ssp.stddev, a.mean, a.stddev);
        }
      case SCALE =>
        if a.max < EPSILON { a.max := 2.0 * EPSILON; }
        r := Scale(s, a.max, a.scale);
      case QUANTILE =>
        var o := if a.ngroup.BYCLASS? then csp else ssp;
        var n := o.tallied;
        if n == 0 { n := 1; }
        r := FindPercentile(o.freqs, n, s, o.nodes, o.table);
    }
  }

  /** With finished records, QUANTILE gives the share of the group's counted grades below s, up to their highest. */
  lemma NormalQuantile(s: real, csp: Stats, ssp: Stats, grades: seq<real>, isClass: bool, sqrt: real -> real)
    requires csp.asgt.npolicy.QUANTILE?
    requires Finished(if csp.asgt.ngroup.BYCLASS? then csp else ssp, grades, isClass, sqrt)
    ensures grades != [] ==>
      (NormalOf(s, csp, ssp) == Share(CountLess(grades, s), |grades|) <==> exists x :: x in grades && s <= x)
    ensures !(exists x :: x in grades && s <= x) ==> NormalOf(s, csp, ssp) == 0.0
  {
    if grades != [] { QuantileExact(grades, s); }
  }

  ghost function NormalAll(grades: seq<real>, csp: Stats, ssp: Stats): seq<real>
    reads csp, ssp, csp.asgt
  {
    seq(|grades|, i requires 0 <= i < |grades| reads csp, ssp, csp.asgt => NormalOf(grades[i], csp, ssp))
  }

  lemma NormalIsLinear(csp: Stats, ssp: Stats, grades: seq<real>, isClass: bool, sqrt: real -> real)
    requires csp.asgt.npolicy.LINEAR? && grades != [] && Finished(Over(csp, ssp), grades, isClass, sqrt)
    ensures NormalAll(grades, csp, ssp) ==
      LinearAll(grades, Mean(grades), Usable(Over(csp, ssp).stddev), csp.asgt.mean, csp.asgt.stddev)
  {
    hide Linear;
    AccumulatedSums(grades, isClass);
  }

  /** With finished records, LINEAR gives the group's counted grades the mean that was asked for. */
  lemma NormalLinear(csp: Stats, ssp: Stats, grades: seq<real>, isClass: bool, sqrt: real -> real)
    requires csp.asgt.npolicy.LINEAR? && grades != []
    requires Finished(if csp.asgt.ngroup.BYCLASS? then csp else ssp, grades, isClass, sqrt)
    ensures var ys := NormalAll(grades, csp, ssp); ys != [] && Mean(ys) == csp.asgt.mean
  {
    var o, a := Over(csp, ssp), csp.asgt;
    NormalIsLinear(csp, ssp, grades, isClass, sqrt);
    LinearMean(grades, o.stddev, a.mean, a.stddev);
  }

  /** And the deviation that was asked for, exactly when their own deviation is not too small or none was asked for. */
  lemma NormalLinearDeviation(csp: Stats, ssp: Stats, grades: seq<real>, isClass: bool, sqrt: real -> real)
    requires csp.asgt.npolicy.LINEAR? && |grades| >= 2 && IsRoot(sqrt)
    requires Finished(if csp.asgt.ngroup.BYCLASS? then csp else ssp, grades, isClass, sqrt)
    ensures var ys, target := NormalAll(grades, csp, ssp), csp.asgt.stddev;
      var o := if csp.asgt.ngroup.BYCLASS? then csp else ssp;
      |ys| >= 2 && (Radicand(|ys|, Sum(ys), SumSq(ys)) == target * target <==> o.stddev >= EPSILON || target == 0.0)
  {
    hide Radicand, Linear, IsRoot;
    var o, a := Over(csp, ssp), csp.asgt;
    FinishedMoments(o, grades, isClass, sqrt);
    OnePassIsTwoPass(grades);
    NormalIsLinear(csp, ssp, grades, isClass, sqrt);
    LinearDeviationExactly(grades, o.stddev, a.mean, a.stddev);
  }

  /**
   * LINEAR keeps the order and the proportions of scores: their distances grow or shrink by the quotient of the target
   * deviation and the group's, or a millionth taken twice if that is less than a millionth.
   */
  lemma NormalLine(s: real, s': real, csp: Stats, ssp: Stats)
    requires csp.asgt.npolicy.LINEAR?
    ensures var o := if csp.asgt.ngroup.BYCLASS? then csp else ssp;
      var divisor := if o.stddev < 0.000001 then 0.000002 else o.stddev;
      && NormalOf(o.mean, csp, ssp) == csp.asgt.mean
      && (NormalOf(s, csp, ssp) - NormalOf(s', csp, ssp)) * divisor == (s - s') * csp.asgt.stddev
  {
    var o, a := Over(csp, ssp), csp.asgt;
    LinearDistance(s, s', o.mean, Usable(o.stddev), a.mean, a.stddev);
    LinearDistance(o.mean, s, o.mean, Usable(o.stddev), a.mean, a.stddev);
  }

  /** SCALE takes 0 to 0 and the declared maximum to the new scale, and keeps ratios; RAW changes nothing. */
  lemma NormalScale(s: real, csp: Stats, ssp: Stats)
    ensures csp.asgt.npolicy.RAW? ==> NormalOf(s, csp, ssp) == s
    ensures csp.asgt.npolicy.SCALE? ==>
      var max := if csp.asgt.max < 0.000001 then 0.000002 else csp.asgt.max;
      && NormalOf(s, csp, ssp) * max == s * csp.asgt.scale
      && NormalOf(0.0, csp, ssp) == 0.0 && NormalOf(max, csp, ssp) == csp.asgt.scale
  {
    if csp.asgt.npolicy.SCALE? {
      ScaleRatio(s, Usable(csp.asgt.max), csp.asgt.scale);
      ScaleRatio(0.0, Usable(csp.asgt.max), csp.asgt.scale);
      ScaleRatio(Usable(csp.asgt.max), Usable(csp.asgt.max), csp.asgt.scale);
    }
  }

  lemma ScaleRatio(s: real, max: real, scale: real)
    requires max > 0.0
    ensures Scale(s, max, scale) * max == s * scale
    ensures s == 0.0 ==> Scale(s, max, scale) == 0.0
    ensures s == max ==> Scale(s, max, scale) == scale
  {
    var p := s * scale;
    assert p / max * max == p;
    if s == max { Quotient(scale, max, p); }
  }

  lemma Quotient(a: real, b: real, p: real)
    requires b > 0.0 && p == b * a
    ensures p / b == a
  {
  }
}
