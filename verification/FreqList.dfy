/** The frequency tables in the linked form the program keeps them in, and the loops that walk them. */
module FreqList {
  import opened GradeDb
  import opened Frequencies
  import opened Quantiles
  import opened Interpolation
  import opened Reals

  ghost function Node(nodes: seq<Freqs>, i: nat): Freqs?
  {
    if i < |nodes| then nodes[i] else null
  }

  /** `nodes` is the NULL-terminated list at `fp`, and holds the table t. */
  ghost predicate Holds(fp: Freqs?, nodes: seq<Freqs>, t: Table)
    reads nodes
  {
    && fp == Node(nodes, 0) && |t| == |nodes|
    && (forall i, j | 0 <= i < j < |nodes| :: nodes[i] != nodes[j])
    && (forall i {:trigger nodes[i].next} | 0 <= i < |nodes| :: nodes[i].next == Node(nodes, i + 1))
    && (forall i {:trigger t[i]} {:trigger nodes[i]} | 0 <= i < |nodes| :: nodes[i].Value() == t[i])
  }

  lemma {:induction false} AddScoreAt(t: Table, g: real, i: nat)
    requires i <= |t| && forall k | 0 <= k < i :: t[k].score < g
    ensures i < |t| && t[i].score == g ==> AddScore(t, g) == t[i := t[i].(count := t[i].count + 1)]
    ensures i == |t| || t[i].score > g ==> AddScore(t, g) == t[..i] + [Bucket(g, 1, 0, 0)] + t[i..]
  {
    if i > 0 {
      AddScoreAt(t[1..], g, i - 1);
      assert t == [t[0]] + t[1..];
    }
  }

  /** With b threaded in front of bucket i of a list that held t, the list holds t with b's bucket there. */
  lemma Inserted(nodes: seq<Freqs>, t: Table, b: Freqs, i: nat)
    requires |t| == |nodes| && i <= |nodes| && b !in nodes
    requires forall j, k | 0 <= j < k < |nodes| :: nodes[j] != nodes[k]
    requires forall k {:trigger nodes[k]} | 0 <= k < |nodes| ::
      nodes[k].next == (if k + 1 == i then b else Node(nodes, k + 1)) && nodes[k].Value() == t[k]
    requires b.next == Node(nodes, i)
    ensures Holds(if i == 0 then b else nodes[0], nodes[..i] + [b] + nodes[i..], t[..i] + [b.Value()] + t[i..])
  {
    var nodes', t' := nodes[..i] + [b] + nodes[i..], t[..i] + [b.Value()] + t[i..];
    forall k {:trigger nodes'[k]} | 0 <= k < |nodes'|
      ensures nodes'[k].next == Node(nodes', k + 1) && nodes'[k].Value() == t'[k]
    {
      if k < i { assert nodes'[k] == nodes[k]; } else if k > i { assert nodes'[k] == nodes[k-1]; }
    }
    forall j, k | 0 <= j < k < |nodes'| ensures nodes'[j] != nodes'[k] { StillDistinct(nodes, b, i, j, k); }
  }

  lemma StillDistinct(nodes: seq<Freqs>, b: Freqs, i: nat, j: nat, k: nat)
    requires i <= |nodes| && b !in nodes && j < k <= |nodes|
    requires forall j, k | 0 <= j < k < |nodes| :: nodes[j] != nodes[k]
    ensures (nodes[..i] + [b] + nodes[i..])[j] != (nodes[..i] + [b] + nodes[i..])[k]
  {
  }

  /** nodes' are the nodes with one more at position i. */
  ghost predicate OneMore(nodes: seq<Freqs>, nodes': seq<Freqs>, i: nat)
    requires i <= |nodes|
  {
    |nodes'| == |nodes| + 1 && nodes' == nodes[..i] + [nodes'[i]] + nodes[i..]
  }

  lemma OneMoreIn(nodes: seq<Freqs>, nodes': seq<Freqs>, i: nat)
    requires i <= |nodes| && OneMore(nodes, nodes', i)
    ensures forall f | f in nodes' :: f in nodes || f == nodes'[i]
  {
  }

  /**
   * count_score: the list returned holds the table with one more score; at most one node is new, and all others stay.
   */
  method CountScore(g: real, afp: Freqs?, ghost nodes: seq<Freqs>, ghost t: Table)
    returns (head: Freqs?, ghost nodes': seq<Freqs>)
    requires Holds(afp, nodes, t)
    modifies nodes
    ensures Holds(head, nodes', AddScore(t, g))
    ensures nodes' == nodes || exists i :: 0 <= i <= |nodes| && OneMore(nodes, nodes', i) && fresh(nodes'[i])
    ensures forall f | f in nodes' :: f in nodes || fresh(f)
  {
    hide OneMore;
    var fp, sfp: Freqs? := afp, null;
    ghost var i := 0;
    while fp != null
      invariant 0 <= i <= |nodes| && fp == Node(nodes, i)
      invariant sfp == if i == 0 then null else nodes[i-1]
      invariant forall k | 0 <= k < i :: t[k].score < g
      decreases |nodes| - i
    {
      assert fp == nodes[i] && fp.Value() == t[i];
      if fp.score == g {
        AddScoreAt(t, g, i);
        fp.count := fp.count + 1;
        return afp, nodes;
      } else if fp.score > g {
        break;
      }
      sfp, fp := fp, fp.next;
      i := i + 1;
    }
    AddScoreAt(t, g, i);
    head, nodes' := InsertBefore(g, afp, sfp, fp, nodes, t, i);
    OneMoreIn(nodes, nodes', i);
  }

  /** The four insertions of count_score: a new bucket between sfp and fp, either of which may be missing. */
  method InsertBefore(g: real, afp: Freqs?, sfp: Freqs?, fp: Freqs?, ghost nodes: seq<Freqs>, ghost t: Table,
                      ghost i: nat)
    returns (head: Freqs?, ghost nodes': seq<Freqs>)
    requires Holds(afp, nodes, t) && i <= |nodes|
    requires fp == Node(nodes, i) && sfp == (if i == 0 then null else nodes[i-1])
    modifies nodes
    ensures Holds(head, nodes', t[..i] + [Bucket(g, 1, 0, 0)] + t[i..])
    ensures OneMore(nodes, nodes', i) && fresh(nodes'[i])
  {
    var b := new Freqs(g, fp);
    nodes' := nodes[..i] + [b] + nodes[i..];
    if sfp == null {
      head := b;
    } else {
      sfp.next := b;
      head := afp;
    }
    Inserted(nodes, t, b, i);
  }

  /** How many scores the buckets before bucket i hold. */
  ghost function CountsTo(t: Table, i: nat): nat
    requires i <= |t|
  {
    if i == 0 then 0 else CountsTo(t, i - 1) + t[i-1].count
  }

  lemma {:induction false} CountsToTail(t: Table, i: nat)
    requires 0 < i <= |t|
    ensures CountsTo(t, i) == t[0].count + CountsTo(t[1..], i - 1)
  {
    if i > 1 { CountsToTail(t, i - 1); }
  }

  lemma {:induction false} FilledAt(t: Table, sum: nat, i: nat)
    requires i < |t|
    ensures var s := sum + CountsTo(t, i);
      Filled(t, sum)[i] == t[i].(numless := s, numlesseq := s + t[i].count)
  {
    if i > 0 {
      FilledAt(t[1..], sum + t[0].count, i - 1);
      CountsToTail(t, i);
    }
  }

  /** The body of that loop. */
  method FillBucket(fp: Freqs, sum: nat, freqs: Freqs?, ghost nodes: seq<Freqs>, ghost t: Table, ghost i: nat)
    returns (sum': nat)
    requires Holds(freqs, nodes, t) && i < |nodes| && fp == nodes[i]
    modifies fp`numless, fp`numlesseq
    ensures sum' == sum + t[i].count
    ensures Holds(freqs, nodes, t[i := t[i].(numless := sum, numlesseq := sum')])
  {
    assert fp.Value() == t[i];
    fp.numless := sum;
    sum' := sum + fp.count;
    fp.numlesseq := sum';
  }

  /** The loop of do_quantiles over one table. */
  method FillQuantiles(freqs: Freqs?, ghost nodes: seq<Freqs>, ghost t: Table)
    requires Holds(freqs, nodes, t)
    modifies nodes
    ensures Holds(freqs, nodes, Filled(t, 0))
  {
    hide Filled;
    var fp, sum := freqs, 0;
    ghost var i, f, done := 0, Filled(t, 0), t;
    while fp != null
      invariant 0 <= i <= |nodes| && fp == Node(nodes, i)
      invariant Holds(freqs, nodes, done)
      invariant forall k {:trigger done[k]} | 0 <= k < |t| :: done[k] == if k < i then f[k] else t[k]
      invariant sum == CountsTo(t, i)
      decreases |nodes| - i
    {
      assert fp == nodes[i] && fp.Value() == done[i] == t[i];
      FilledAt(t, 0, i);
      sum := FillBucket(fp, sum, freqs, nodes, done, i);
      done := done[i := f[i]];
      fp := fp.next;
      i := i + 1;
    }
    assert done == f;
  }

  /** The loop of the QUANTILE branch of normal. */
  method FindPercentile(freqs: Freqs?, n: nat, s: real, ghost nodes: seq<Freqs>, ghost t: Table) returns (r: real)
    requires Holds(freqs, nodes, t) && n > 0
    ensures r == Percentile(t, n, s)
  {
    var fp := freqs;
    ghost var i := 0;
    while fp != null
      invariant 0 <= i <= |nodes| && fp == Node(nodes, i)
      invariant Percentile(t[i..], n, s) == Percentile(t, n, s)
      decreases |nodes| - i
    {
      assert fp == nodes[i] && fp.Value() == t[i];
      if s < fp.score || s == fp.score { return Share(fp.numless, n); }
      assert t[i..][1..] == t[i+1..];
      fp := fp.next;
      i := i + 1;
    }
    r := 0.0;
  }

  /** interpolatequantile, which never divides by zero. */
  method WalkQuantile(freqs: Freqs?, n: nat, q: real, ghost nodes: seq<Freqs>, ghost t: Table) returns (r: real)
    requires Holds(freqs, nodes, t) && (freqs != null ==> n > 0)
    ensures r == InterpolateQuantile(t, n, q) && (freqs == null ==> r == 0.0)
  {
    if freqs == null { return 0.0; }
    var fp: Freqs? := freqs;
    var pq, nq, ps, ns := 0.0, 0.0, freqs.score, freqs.score;
    ghost var i := 0;
    while fp != null && fp.next != null
      invariant 0 <= i < |nodes| && fp == nodes[i]
      invariant Interpolate(t[i..], n, q, pq, ps) == InterpolateQuantile(t, n, q)
      decreases |nodes| - i
    {
      assert fp.Value() == t[i] && fp.next == Node(nodes, i + 1);
      nq := Share(fp.numless, n);
      ns := fp.score;
      if pq <= q && q < nq { break; }
      assert t[i..][1..] == t[i+1..];
      pq := nq;
      ps := ns;
      fp := fp.next;
      i := i + 1;
    }
    assert fp.Value() == t[i];
    if fp.next == null { return fp.score; }
    var qdiff := nq - pq;
    var sdiff := ns - ps;
    if qdiff == 0.0 { return ps; }
    r := ps + Rise(sdiff / qdiff, q - pq);
  }

  const QUANTILES: seq<real> := [10.0, 25.0, 50.0, 75.0, 90.0]

  ghost function Summary(t: Table, n: nat): seq<real>
    requires t != [] ==> n > 0
  {
    seq(|QUANTILES|, i requires 0 <= i < |QUANTILES| => InterpolateQuantile(t, n, QUANTILES[i]))
  }

  /** The part of reportquantilesummaries that fills `scores` and picks the range it prints against. */
  method SummaryScores(freqs: Freqs?, n: nat, scores: array<real>, ghost nodes: seq<Freqs>, ghost t: Table)
    returns (min: real, max: real)
    requires Holds(freqs, nodes, t) && (freqs != null ==> n > 0) && scores.Length == |QUANTILES|
    modifies scores
    ensures scores[..] == Summary(t, n) && min == scores[0] && max == scores[4]
    ensures forall i, q | (i, q) in [(0, 10.0), (1, 25.0), (2, 50.0), (3, 75.0), (4, 90.0)] ::
      scores[i] == InterpolateQuantile(t, n, q)
  {
    var i := 0;
    while i < |QUANTILES|
      invariant 0 <= i <= |QUANTILES|
      invariant forall k | 0 <= k < i :: scores[k] == InterpolateQuantile(t, n, QUANTILES[k])
    {
      scores[i] := WalkQuantile(freqs, n, QUANTILES[i], nodes, t);
      i := i + 1;
    }
    min := scores[0];
    max := scores[|QUANTILES|-1];
  }

  /** The first and last summary score bound the others, so the printed ratio lies in [0, 1]. */
  lemma SummaryInRange(scores: seq<real>, i: nat)
    requires scores != [] && i < |QUANTILES|
    ensures var s := Summary(RankTable(scores), |scores|);
      && s[0] <= s[i] <= s[|QUANTILES|-1]
      && (s[0] < s[|QUANTILES|-1] ==> 0.0 <= (s[i] - s[0]) / (s[|QUANTILES|-1] - s[0]) <= 1.0)
  {
    QuantileCurve(scores, QUANTILES[0], QUANTILES[i]);
    QuantileCurve(scores, QUANTILES[i], QUANTILES[4]);
    var s := Summary(RankTable(scores), |scores|);
    if s[0] < s[4] { RatioRange(s[i] - s[0], s[4] - s[0]); }
  }

  lemma RatioRange(a: real, b: real)
    requires 0.0 <= a <= b && b > 0.0
    ensures 0.0 <= a / b <= 1.0
  {
    QuotientSign(a, b, a / b);
    QuotientSign(b - a, b, 1.0 - a / b);
  }
}
