/**
 * Sums, moments and linear normalization over the reals: do_sums, do_moments and stddev of hw2/src/stats.c,
 * the LINEAR branch of normal and linear of hw2/src/normal.c.
 */
module Moments {
  import opened Reals

  ghost function Sum(xs: seq<real>): real
  {
    if xs == [] then 0.0 else Sum(xs[..|xs|-1]) + xs[|xs|-1]
  }

  ghost function SumSq(xs: seq<real>): real
  {
    if xs == [] then 0.0 else SumSq(xs[..|xs|-1]) + xs[|xs|-1] * xs[|xs|-1]
  }

  ghost function Mean(xs: seq<real>): real
    requires xs != []
  {
    Sum(xs) / |xs| as real
  }

  function SqDev(x: real, m: real): real
  {
    (x - m) * (x - m)
  }

  /** The two-pass sum of squared deviations from m. */
  ghost function Deviations(xs: seq<real>, m: real): real
  {
    if xs == [] then 0.0
    else Deviations(xs[..|xs|-1], m) + SqDev(xs[|xs|-1], m)
  }

  /** What stddev takes the square root of. */
  function Radicand(n: nat, sum: real, sumsq: real): real
    requires n >= 2
  {
    (sumsq - (sum * sum) / n as real) / (n - 1) as real
  }

  // The arithmetic below is stated over named reals, so that each product is reasoned about alone.

  /** The sum of squared deviations from m in terms of the number, the sum and the sum of squares. */
  predicate Expanded(dev: real, ss: real, s: real, n: real, m: real)
  {
    dev == ss - 2.0 * m * s + n * m * m
  }

  lemma ExpandStep(dev: real, ss: real, s: real, n: real, x: real, m: real, dev': real, ss': real, s': real, n': real)
    requires Expanded(dev, ss, s, n, m)
    requires dev' == dev + SqDev(x, m) && ss' == ss + x * x && s' == s + x && n' == n + 1.0
    ensures Expanded(dev', ss', s', n', m)
  {
  }

  lemma {:induction false} DeviationsExpand(xs: seq<real>, m: real)
    ensures Expanded(Deviations(xs, m), SumSq(xs), Sum(xs), |xs| as real, m)
  {
    if xs != [] {
      hide Expanded, SqDev;
      var n := |xs| - 1;
      var ys := xs[..n];
      DeviationsExpand(ys, m);
      ExpandStep(Deviations(ys, m), SumSq(ys), Sum(ys), n as real, xs[n], m,
                 Deviations(xs, m), SumSq(xs), Sum(xs), |xs| as real);
    }
  }

  lemma AtMean(dev: real, ss: real, s: real, n: real, m: real)
    requires n > 0.0 && m == s / n && Expanded(dev, ss, s, n, m)
    ensures dev == ss - (s * s) / n
  {
    assert m * n == s;
    assert n * m * m == m * s;
    assert m * s == (s * s) / n;
  }

  lemma RadicandAtMean(dev: real, ss: real, s: real, n: nat, m: real)
    requires n >= 2 && m == s / n as real && Expanded(dev, ss, s, n as real, m)
    ensures Radicand(n, s, ss) == dev / (n - 1) as real
  {
    AtMean(dev, ss, s, n as real, m);
  }

  /** The one-pass radicand is the two-pass sample variance. */
  lemma OnePassIsTwoPass(xs: seq<real>)
    requires |xs| >= 2
    ensures Radicand(|xs|, Sum(xs), SumSq(xs)) == Deviations(xs, Mean(xs)) / (|xs| - 1) as real
  {
    DeviationsExpand(xs, Mean(xs));
    RadicandAtMean(Deviations(xs, Mean(xs)), SumSq(xs), Sum(xs), |xs|, Mean(xs));
  }

  lemma {:induction false} DeviationsSign(xs: seq<real>, m: real)
    ensures Deviations(xs, m) >= 0.0
    ensures Deviations(xs, m) == 0.0 <==> forall i | 0 <= i < |xs| :: xs[i] == m
  {
    if xs != [] {
      var n := |xs| - 1;
      DeviationsSign(xs[..n], m);
      SquareSign(xs[n] - m, SqDev(xs[n], m));
      assert (forall i | 0 <= i < |xs| :: xs[i] == m) <==> (xs[n] == m && forall i | 0 <= i < n :: xs[..n][i] == m);
    }
  }

  lemma {:induction false} SumOfEqual(xs: seq<real>, c: real)
    requires forall i | 0 <= i < |xs| :: xs[i] == c
    ensures Sum(xs) == |xs| as real * c
  {
    if xs != [] { SumOfEqual(xs[..|xs|-1], c); }
  }

  /** stddev never takes the root of a negative number, and is zero exactly when all scores are equal. */
  lemma RadicandSign(xs: seq<real>)
    requires |xs| >= 2
    ensures Radicand(|xs|, Sum(xs), SumSq(xs)) >= 0.0
    ensures Radicand(|xs|, Sum(xs), SumSq(xs)) == 0.0 <==> forall i, j | 0 <= i < j < |xs| :: xs[i] == xs[j]
  {
    var m := Mean(xs);
    OnePassIsTwoPass(xs);
    DeviationsSign(xs, m);
    QuotientSign(Deviations(xs, m), (|xs| - 1) as real, Radicand(|xs|, Sum(xs), SumSq(xs)));
    if forall i, j | 0 <= i < j < |xs| :: xs[i] == xs[j] {
      assert forall i | 0 <= i < |xs| :: xs[i] == xs[0];
      SumOfEqual(xs, xs[0]);
    }
  }

  // ----- linear normalization -----

  function Linear(s: real, rm: real, rd: real, nm: real, nd: real): real
    requires rd != 0.0
  {
    nd * (s - rm) / rd + nm
  }

  ghost function LinearAll(xs: seq<real>, rm: real, rd: real, nm: real, nd: real): seq<real>
    requires rd != 0.0
  {
    seq(|xs|, i requires 0 <= i < |xs| => Linear(xs[i], rm, rd, nm, nd))
  }

  lemma LinearAsSlope(x: real, rm: real, rd: real, nm: real, nd: real)
    requires rd != 0.0
    ensures Linear(x, rm, rd, nm, nd) == Line(x, rm, nd / rd, nm)
  {
    var k := nd / rd;
    assert nd == k * rd;
    Cancel(k, rd, x - rm);
  }

  /** Distances between scores are stretched by nd / rd, and rm goes to nm. */
  lemma LinearDistance(x: real, y: real, rm: real, rd: real, nm: real, nd: real)
    requires rd != 0.0
    ensures (Linear(x, rm, rd, nm, nd) - Linear(y, rm, rd, nm, nd)) * rd == (x - y) * nd
    ensures Linear(rm, rm, rd, nm, nd) == nm
  {
    var a, b := nd * (x - rm), nd * (y - rm);
    assert a - b == nd * (x - y);
    assert (a / rd) * rd == a && (b / rd) * rd == b;
    Difference(a / rd, b / rd, rd);
  }

  lemma Difference(a: real, b: real, c: real)
    ensures (a - b) * c == a * c - b * c
  {
  }

  lemma SumStep(t: real, k: real, s: real, n: real, x: real, rm: real, nm: real, t': real, s': real, n': real)
    requires t == k * (s - n * rm) + n * nm
    requires t' == t + (k * (x - rm) + nm) && s' == s + x && n' == n + 1.0
    ensures t' == k * (s' - n' * rm) + n' * nm
  {
    assert k * (x - rm) == k * x - k * rm;
  }

  lemma Cancel(k: real, rd: real, b: real)
    requires rd != 0.0
    ensures (k * rd) * b / rd == k * b
  {
    assert (k * rd) * b == (k * b) * rd;
  }

  function Line(x: real, rm: real, k: real, nm: real): real
  {
    k * (x - rm) + nm
  }

  ghost function OnLine(xs: seq<real>, rm: real, k: real, nm: real): seq<real>
  {
    seq(|xs|, i requires 0 <= i < |xs| => Line(xs[i], rm, k, nm))
  }

  lemma LinearIsLine(xs: seq<real>, rm: real, rd: real, nm: real, nd: real)
    requires rd != 0.0
    ensures LinearAll(xs, rm, rd, nm, nd) == OnLine(xs, rm, nd / rd, nm)
  {
    forall i | 0 <= i < |xs| ensures Linear(xs[i], rm, rd, nm, nd) == Line(xs[i], rm, nd / rd, nm) {
      LinearAsSlope(xs[i], rm, rd, nm, nd);
    }
  }

  lemma LineInit(xs: seq<real>, rm: real, k: real, nm: real)
    requires xs != []
    ensures var n := |xs| - 1; var zs := OnLine(xs, rm, k, nm);
      |zs| == n + 1 && zs[..n] == OnLine(xs[..n], rm, k, nm) && zs[n] == Line(xs[n], rm, k, nm)
  {
  }

  lemma {:induction false} LineSum(xs: seq<real>, rm: real, k: real, nm: real)
    ensures Sum(OnLine(xs, rm, k, nm)) == k * (Sum(xs) - |xs| as real * rm) + |xs| as real * nm
  {
    if xs != [] {
      var n := |xs| - 1;
      var ys, zs := xs[..n], OnLine(xs, rm, k, nm);
      LineSum(ys, rm, k, nm);
      LineInit(xs, rm, k, nm);
      SumStep(Sum(zs[..n]), k, Sum(ys), n as real, xs[n], rm, nm, Sum(zs), Sum(xs), |xs| as real);
    }
  }

  lemma LineSqDev(x: real, rm: real, k: real, nm: real, kk: real)
    requires kk == k * k
    ensures SqDev(Line(x, rm, k, nm), nm) == kk * SqDev(x, rm)
  {
    var d, e := x - rm, Line(x, rm, k, nm) - nm;
    assert e == k * d;
    assert e * e == (k * k) * (d * d);
  }

  lemma {:induction false} LineDeviations(xs: seq<real>, rm: real, k: real, nm: real, kk: real)
    requires kk == k * k
    ensures Deviations(OnLine(xs, rm, k, nm), nm) == kk * Deviations(xs, rm)
  {
    if xs != [] {
      var n := |xs| - 1;
      LineDeviations(xs[..n], rm, k, nm, kk);
      LineInit(xs, rm, k, nm);
      LineSqDev(xs[n], rm, k, nm, kk);
      Distribute(kk, Deviations(xs[..n], rm), SqDev(xs[n], rm));
    }
  }

  const EPSILON: real := 0.000001

  /** The deviation normal divides by: one too small is replaced. */
  function Usable(stddev: real): real
  {
    if stddev < EPSILON then 2.0 * EPSILON else stddev
  }

  /** LINEAR normalization of the tallied scores has exactly the target mean, whatever deviation it divides by. */
  lemma LinearMean(xs: seq<real>, rd: real, nm: real, nd: real)
    requires xs != []
    ensures var ys := LinearAll(xs, Mean(xs), Usable(rd), nm, nd); |ys| == |xs| && Mean(ys) == nm
  {
    var m, r := Mean(xs), Usable(rd);
    LinearIsLine(xs, m, r, nm, nd);
    LineMean(xs, nd / r, nm);
  }

  lemma LineMean(xs: seq<real>, k: real, nm: real)
    requires xs != []
    ensures Mean(OnLine(xs, Mean(xs), k, nm)) == nm
  {
    var m := Mean(xs);
    LineSum(xs, m, k, nm);
    MeanFromSum(|xs| as real, Sum(xs), m, k, nm, Sum(OnLine(xs, m, k, nm)));
  }

  /**
   * It has the target deviation too, when the sample deviation is not too small to divide by; `rd` is any
   * square root of the radicand.
   */
  lemma LinearDeviation(xs: seq<real>, rd: real, nm: real, nd: real)
    requires |xs| >= 2 && rd >= EPSILON && rd * rd == Radicand(|xs|, Sum(xs), SumSq(xs))
    ensures var ys := LinearAll(xs, Mean(xs), Usable(rd), nm, nd);
      |ys| == |xs| && Radicand(|ys|, Sum(ys), SumSq(ys)) == nd * nd
  {
    var m := Mean(xs);
    var ys := LinearAll(xs, m, rd, nm, nd);
    LinearMean(xs, rd, nm, nd);
    LinearIsLine(xs, m, rd, nm, nd);
    OnePassIsTwoPass(xs);
    OnePassIsTwoPass(ys);
    LineDeviations(xs, m, nd / rd, nm, (nd / rd) * (nd / rd));
    DeviationScaled(Deviations(xs, m), (|xs| - 1) as real, rd, nd, Deviations(ys, nm));
  }

  /**
   * Whatever the sample deviation, the target deviation is reached exactly when the sample's is not too small or a
   * deviation of 0 is the target.
   */
  lemma LinearDeviationExactly(xs: seq<real>, rd: real, nm: real, nd: real)
    requires |xs| >= 2 && rd >= 0.0 && rd * rd == Radicand(|xs|, Sum(xs), SumSq(xs))
    ensures var ys := LinearAll(xs, Mean(xs), Usable(rd), nm, nd);
      |ys| == |xs| && (Radicand(|ys|, Sum(ys), SumSq(ys)) == nd * nd <==> rd >= EPSILON || nd == 0.0)
  {
    if rd >= EPSILON {
      LinearDeviation(xs, rd, nm, nd);
    } else {
      var m, u := Mean(xs), Usable(rd);
      var ys := LinearAll(xs, m, u, nm, nd);
      var k := nd / u;
      LinearMean(xs, rd, nm, nd);
      LinearIsLine(xs, m, u, nm, nd);
      OnePassIsTwoPass(xs);
      OnePassIsTwoPass(ys);
      LineDeviations(xs, m, k, nm, k * k);
      ShrunkDeviation(Deviations(xs, m), (|xs| - 1) as real, rd, u, nd, k,
                      Deviations(ys, nm), Deviations(ys, nm) / (|xs| - 1) as real);
    }
  }

  /** Equal scores do not get the deviation 1. */
  lemma EqualScoresStay(nm: real)
    ensures var xs := [1.0, 1.0];
      var ys := LinearAll(xs, Mean(xs), Usable(0.0), nm, 1.0);
      && 0.0 == Radicand(2, Sum(xs), SumSq(xs))
      && |ys| == 2 && Radicand(2, Sum(ys), SumSq(ys)) != 1.0
  {
    RadicandSign([1.0, 1.0]);
    LinearDeviationExactly([1.0, 1.0], 0.0, nm, 1.0);
  }

  /** Dividing by more than the sample deviation falls short of every target but 0. */
  lemma ShrunkDeviation(dev: real, w: real, rd: real, u: real, nd: real, k: real, t: real, q: real)
    requires w > 0.0 && 0.0 <= rd < u && rd * rd == dev / w && k == nd / u && t == (k * k) * dev && q == t / w
    ensures q == nd * nd <==> nd == 0.0
  {
    var d2, u2, n2 := rd * rd, u * u, nd * nd;
    assert dev == d2 * w;
    assert t == ((k * k) * d2) * w;
    assert q == (k * k) * d2;
    assert k * u == nd;
    assert n2 == (k * k) * u2;
    SmallerSquare(rd, u, d2, u2);
    SquareSign(k, k * k);
    SquareSign(nd, n2);
    if nd != 0.0 { ScaledGap(k * k, d2, u2); }
  }

  lemma SmallerSquare(a: real, b: real, a2: real, b2: real)
    requires 0.0 <= a < b && a2 == a * a && b2 == b * b
    ensures a2 < b2
  {
    ProductOfPositives(b - a, b + a, (b - a) * (b + a));
  }

  lemma ScaledGap(c: real, a: real, b: real)
    requires c > 0.0 && a < b
    ensures c * a < c * b
  {
    ProductOfPositives(c, b - a, c * (b - a));
  }

  lemma MeanFromSum(n: real, s: real, m: real, k: real, nm: real, t: real)
    requires n > 0.0 && m == s / n && t == k * (s - n * m) + n * nm
    ensures t / n == nm
  {
    assert n * m == s;
    assert k * (s - n * m) == 0.0;
    assert (n * nm) / n == nm;
  }

  lemma DeviationScaled(dev: real, w: real, rd: real, nd: real, t: real)
    requires w > 0.0 && rd > 0.0 && rd * rd == dev / w && t == (nd / rd) * (nd / rd) * dev
    ensures t / w == nd * nd
  {
    var k := nd / rd;
    assert dev == (rd * rd) * w;
    assert k * rd == nd;
    assert k * k * dev == (k * rd) * (k * rd) * w;
    assert (nd * nd * w) / w == nd * nd;
  }
}
