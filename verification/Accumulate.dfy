/** hw2/src/stats.c: do_freqs and do_sums, which add every counted score to two records at once. */
module Accumulate {
  import opened GradeDb
  import opened Frequencies
  import opened Moments
  import opened Sequences
  import opened Linking
  import opened FreqList

  /** The class record and the section record that a score is linked to. */
  datatype Links = Links(c: map<Score, Stats>, s: map<Score, Stats>) {
    ghost predicate To(sc: Score, o: Stats) {
      (sc in c && c[sc] == o) || (sc in s && s[sc] == o)
    }
  }

  /** The counted scores are linked as `l` says, each to two different records. */
  ghost predicate LinkedAs(scores: seq<Score>, l: Links, records: set<Stats>)
    reads scores
  {
    forall i {:trigger scores[i]} | 0 <= i < |scores| && scores[i].counted ::
      && scores[i] in l.c && scores[i] in l.s
      && scores[i].cstats == l.c[scores[i]] && scores[i].sstats == l.s[scores[i]]
      && l.c[scores[i]] != l.s[scores[i]] && l.c[scores[i]] in records && l.s[scores[i]] in records
  }

  /** The grades that go to record o, in order. */
  ghost function Log(scores: seq<Score>, l: Links, o: Stats): seq<real>
  {
    if scores == [] then []
    else
      var sc, log := scores[|scores|-1], Log(scores[..|scores|-1], l, o);
      if sc.counted && l.To(sc, o) then log + [sc.grade] else log
  }

  lemma LogSnoc(scores: seq<Score>, sc: Score, l: Links, o: Stats)
    ensures Log(scores + [sc], l, o) ==
      if sc.counted && l.To(sc, o) then Log(scores, l, o) + [sc.grade] else Log(scores, l, o)
  {
    assert (scores + [sc])[..|scores|] == scores;
  }

  // ----- do_freqs -----

  /** The table of each record is a list of some of these buckets, and no bucket is on two lists. */
  ghost predicate Tables(records: set<Stats>, buckets: set<Freqs>)
    reads records`freqs, records`nodes, records`table, buckets
  {
    && (forall o, f | o in records && f in o.nodes :: f in buckets)
    && (forall o | o in records :: Holds(o.freqs, o.nodes, o.table))
    && (forall o, p, f | o in records && p in records && f in o.nodes && f in p.nodes :: o == p)
  }

  /** The list of one record, and those of the others among the other buckets. */
  lemma TablesApart(o: Stats, records: set<Stats>, buckets: set<Freqs>)
    requires o in records && Tables(records, buckets)
    ensures Holds(o.freqs, o.nodes, o.table) && forall f | f in o.nodes :: f in buckets
    ensures Tables(records - {o}, buckets - (set f | f in o.nodes))
  {
    hide Holds;
  }

  lemma TablesTogether(o: Stats, records: set<Stats>, others: set<Freqs>, buckets: set<Freqs>)
    requires o in records && Holds(o.freqs, o.nodes, o.table) && Tables(records - {o}, others)
    requires others <= buckets && forall f | f in o.nodes :: f in buckets && f !in others
    ensures Tables(records, buckets)
  {
    hide Holds;
    forall p, q, f | p in records && q in records && f in p.nodes && f in q.nodes ensures p == q {
      assert p != o ==> p in records - {o} && f in others;
      assert q != o ==> q in records - {o} && f in others;
    }
  }

  /** One score counted in the table of one record. */
  method CountIn(o: Stats, g: real, ghost records: set<Stats>, ghost buckets: set<Freqs>)
    returns (ghost buckets': set<Freqs>)
    requires o in records && Tables(records, buckets)
    modifies o`freqs, o`nodes, o`table, buckets
    ensures Tables(records, buckets') && fresh(buckets' - buckets)
    ensures o.table == AddScore(old(o.table), g)
  {
    hide AddScore, OneMore, Tables, Holds;
    TablesApart(o, records, buckets);
    ghost var others := buckets - (set f | f in o.nodes);
    ghost var nodes;
    o.freqs, nodes := CountScore(g, o.freqs, o.nodes, o.table);
    o.nodes, o.table := nodes, AddScore(o.table, g);
    buckets' := buckets + set f | f in nodes;
    TablesTogether(o, records, others, buckets');
  }

  ghost predicate Tallied(o: Stats, log: seq<real>)
    reads o`table, o`tallied
  {
    o.table == TableOf(log) && o.tallied == |log|
  }

  ghost predicate AllTallied(records: set<Stats>, scores: seq<Score>, l: Links)
    reads records`table, records`tallied
  {
    forall o | o in records :: Tallied(o, Log(scores, l, o))
  }

  lemma TableSnoc(log: seq<real>, g: real)
    ensures TableOf(log + [g]) == AddScore(TableOf(log), g)
  {
    assert (log + [g])[..|log|] == log;
  }

  /** A counted score goes into two records. */
  method CountBoth(csp: Stats, ssp: Stats, g: real, ghost records: set<Stats>, ghost buckets: set<Freqs>)
    returns (ghost buckets': set<Freqs>)
    requires csp != ssp && csp in records && ssp in records && Tables(records, buckets)
    modifies {csp, ssp}`freqs, {csp, ssp}`nodes, {csp, ssp}`table, {csp, ssp}`tallied, buckets
    ensures Tables(records, buckets') && fresh(buckets' - buckets)
    ensures forall o | o == csp || o == ssp ::
      o.table == AddScore(old(o.table), g) && o.tallied == old(o.tallied) + 1
  {
    hide Tables, AddScore;
    buckets' := CountIn(csp, g, records, buckets);
    csp.tallied := csp.tallied + 1;
    buckets' := CountIn(ssp, g, records, buckets');
    ssp.tallied := ssp.tallied + 1;
  }

  /** The two records of a counted score are those its links lead to. */
  lemma LinkedPair(sc: Score, l: Links, records: set<Stats>)
    requires LinkedAs([sc], l, records) && sc.counted
    ensures sc.cstats != null && sc.sstats != null && sc.cstats != sc.sstats
    ensures sc.cstats in records && sc.sstats in records
    ensures forall o :: l.To(sc, o) <==> o == sc.cstats || o == sc.sstats
  {
    assert [sc][0] == sc;
  }

  /** The body of the loops of do_freqs. */
  method CountOne(sc: Score, ghost done: seq<Score>, ghost l: Links, ghost records: set<Stats>,
                  ghost buckets: set<Freqs>)
    returns (ghost buckets': set<Freqs>)
    requires LinkedAs([sc], l, records) && AllTallied(records, done, l) && Tables(records, buckets)
    modifies records`freqs, records`nodes, records`table, records`tallied, buckets
    ensures AllTallied(records, done + [sc], l)
    ensures Tables(records, buckets') && fresh(buckets' - buckets)
  {
    hide Tables, AddScore, LinkedAs, TableOf, Log, Links.To;
    buckets' := buckets;
    if sc.counted {
      LinkedPair(sc, l, records);
      buckets' := CountBoth(sc.cstats, sc.sstats, sc.grade, records, buckets);
    }
    forall o | o in records ensures Tallied(o, Log(done + [sc], l, o)) {
      assert old(Tallied(o, Log(done, l, o)));
      LogSnoc(done, sc, l, o);
      TableSnoc(Log(done, l, o), sc.grade);
    }
  }

  /** All scores of the students, in the order the loops visit them. */
  ghost function ScoreLists(nodes: seq<Student>): (r: seq<seq<Score>>)
    ensures |r| == |nodes|
  {
    seq(|nodes|, i requires 0 <= i < |nodes| => nodes[i].rawscores)
  }

  ghost function ScoresInOrder(nodes: seq<Student>): seq<Score>
  {
    Flatten(ScoreLists(nodes))
  }

  lemma ScoresSnoc(nodes: seq<Student>, i: nat)
    requires i < |nodes|
    ensures ScoresInOrder(nodes[..i+1]) == ScoresInOrder(nodes[..i]) + nodes[i].rawscores
  {
    assert ScoreLists(nodes[..i+1])[..i] == ScoreLists(nodes[..i]);
  }

  lemma LinkedOne(scores: seq<Score>, l: Links, records: set<Stats>, k: nat)
    requires LinkedAs(scores, l, records) && k < |scores|
    ensures LinkedAs([scores[k]], l, records)
  {
  }

  lemma LinkedPart(nodes: seq<Student>, l: Links, records: set<Stats>, i: nat)
    requires LinkedAs(ScoresInOrder(nodes), l, records) && i < |nodes|
    ensures LinkedAs(nodes[i].rawscores, l, records)
  {
    OrderedPart(nodes, i);
  }

  method CountStudent(scores: seq<Score>, ghost done: seq<Score>, ghost l: Links, ghost records: set<Stats>,
                      ghost buckets: set<Freqs>)
    returns (ghost buckets': set<Freqs>)
    requires LinkedAs(scores, l, records) && AllTallied(records, done, l) && Tables(records, buckets)
    modifies records`freqs, records`nodes, records`table, records`tallied, buckets
    ensures AllTallied(records, done + scores, l)
    ensures Tables(records, buckets') && fresh(buckets' - buckets)
  {
    hide Tables, AllTallied;
    var k := 0;
    buckets' := buckets;
    assert done + scores[..0] == done;
    while k < |scores|
      invariant 0 <= k <= |scores|
      invariant AllTallied(records, done + scores[..k], l)
      invariant Tables(records, buckets') && fresh(buckets' - buckets)
    {
      LinkedOne(scores, l, records, k);
      buckets' := CountOne(scores[k], done + scores[..k], l, records, buckets');
      assert done + scores[..k] + [scores[k]] == done + scores[..k+1];
      k := k + 1;
    }
    assert scores[..|scores|] == scores;
  }

  lemma NoneTallied(records: set<Stats>, l: Links)
    requires forall o | o in records :: o.table == [] && o.tallied == 0
    ensures AllTallied(records, ScoresInOrder([]), l)
  {
  }

  /** do_freqs: every record ends up with the table of the grades linked to it. */
  method DoFreqs(c: Course, ghost all: seq<Student>, ghost l: Links, ghost records: set<Stats>,
                 ghost buckets: set<Freqs>)
    returns (ghost buckets': set<Freqs>)
    requires CNextList(c.roster, all) && LinkedAs(ScoresInOrder(all), l, records)
    requires forall o | o in records :: o.table == [] && o.tallied == 0
    requires Tables(records, buckets)
    modifies records`freqs, records`nodes, records`table, records`tallied, buckets
    ensures AllTallied(records, ScoresInOrder(all), l)
    ensures Tables(records, buckets') && fresh(buckets' - buckets)
  {
    hide Tables, AllTallied;
    NoneTallied(records, l);
    buckets' := buckets;
    var stp := c.roster;
    ghost var i := 0;
    while stp != null
      invariant 0 <= i <= |all| && stp == At(all, i)
      invariant LinkedAs(ScoresInOrder(all), l, records)
      invariant AllTallied(records, ScoresInOrder(all[..i]), l)
      invariant Tables(records, buckets') && fresh(buckets' - buckets)
      decreases |all| - i
    {
      LinkedPart(all, l, records, i);
      ScoresSnoc(all, i);
      buckets' := CountStudent(stp.rawscores, ScoresInOrder(all[..i]), l, records, buckets');
      stp := stp.cnext;
      i := i + 1;
    }
    assert all[..|all|] == all;
  }

  // ----- do_sums -----

  ghost function Lowest(xs: seq<real>): real
    requires xs != []
  {
    var n := |xs| - 1;
    if n == 0 || xs[n] < Lowest(xs[..n]) then xs[n] else Lowest(xs[..n])
  }

  ghost function Greatest(xs: seq<real>): real
    requires xs != []
  {
    var n := |xs| - 1;
    if n == 0 || xs[n] > Greatest(xs[..n]) then xs[n] else Greatest(xs[..n])
  }

  /** The sums of a record. */
  datatype Sums = Sums(valid: nat, sum: real, sumsq: real, min: real, max: real) {

    function Add(g: real): Sums {
      Sums(valid + 1, sum + g, sumsq + g * g, if valid == 0 then g else min, if valid == 0 then g else max)
    }

    /** What a class record does with a grade. */
    function Range(g: real): Sums {
      var s := Add(g);
      s.(min := if g < s.min then g else s.min, max := if g > s.max then g else s.max)
    }
  }

  ghost function SumsOf(o: Stats): Sums
    reads o`valid, o`sum, o`sumsq, o`min, o`max
  {
    Sums(o.valid, o.sum, o.sumsq, o.min, o.max)
  }

  /** The sums do_sums accumulates from a log; a section record keeps the range of its first grade. */
  ghost function Accumulated(log: seq<real>, isClass: bool): Sums
  {
    if log == [] then Sums(0, 0.0, 0.0, 0.0, 0.0)
    else
      var s, g := Accumulated(log[..|log|-1], isClass), log[|log|-1];
      if isClass then s.Range(g) else s.Add(g)
  }

  /**
   * A record's sums are those of the grades logged. A class record has their range too; in a section record both
   * ends are the first grade, because later grades are compared with the class record a second time instead.
   */
  lemma {:induction false} AccumulatedSums(log: seq<real>, isClass: bool)
    ensures var s := Accumulated(log, isClass);
      && s.valid == |log| && s.sum == Sum(log) && s.sumsq == SumSq(log)
      && (log != [] ==> if isClass then s.min == Lowest(log) && s.max == Greatest(log) else s.min == s.max == log[0])
  {
    if log != [] { AccumulatedSums(log[..|log|-1], isClass); }
  }

  ghost predicate AllSummed(records: set<Stats>, classes: set<Stats>, scores: seq<Score>, l: Links)
    reads records`valid, records`sum, records`sumsq, records`min, records`max
  {
    forall o | o in records :: SumsOf(o) == Accumulated(Log(scores, l, o), o in classes)
  }

  /** Class records and section records are kept apart. */
  ghost predicate Roles(scores: seq<Score>, l: Links, classes: set<Stats>)
  {
    forall i {:trigger scores[i]} | 0 <= i < |scores| && scores[i].counted ::
      scores[i] in l.c && scores[i] in l.s && l.c[scores[i]] in classes && l.s[scores[i]] !in classes
  }

  lemma AccumulatedSnoc(log: seq<real>, g: real, isClass: bool)
    ensures var s := Accumulated(log, isClass);
      Accumulated(log + [g], isClass) == if isClass then s.Range(g) else s.Add(g)
  {
    assert (log + [g])[..|log|] == log;
  }

  /** The body of the loops of do_sums. */
  method AddGrade(csp: Stats, ssp: Stats, grade: real)
    requires csp != ssp
    modifies {csp, ssp}`valid, {csp, ssp}`sum, {csp, ssp}`sumsq, {csp, ssp}`min, {csp, ssp}`max
    ensures SumsOf(csp) == old(SumsOf(csp)).Range(grade)
    ensures SumsOf(ssp) == old(SumsOf(ssp)).Add(grade)
  {
    var g := grade;
    if csp.valid == 0 {
      csp.min, csp.max := g, g;
    } else {
      if g < csp.min { csp.min := g; }
      if g > csp.max { csp.max := g; }
    }
    csp.valid := csp.valid + 1;
    if ssp.valid == 0 {
      ssp.min, ssp.max := g, g;
    } else {  // the class record again, not ssp
      csp.min := if g < csp.min then g else csp.min;
      csp.max := if g > csp.max then g else csp.max;
    }
    ssp.valid := ssp.valid + 1;
    csp.sum := csp.sum + g;
    ssp.sum := ssp.sum + g;
    g := g * g;
    csp.sumsq := csp.sumsq + g;
    ssp.sumsq := ssp.sumsq + g;
  }

  method SumOne(sc: Score, ghost done: seq<Score>, ghost l: Links, ghost records: set<Stats>, ghost classes: set<Stats>)
    requires LinkedAs([sc], l, records) && Roles([sc], l, classes) && AllSummed(records, classes, done, l)
    modifies records`valid, records`sum, records`sumsq, records`min, records`max
    ensures AllSummed(records, classes, done + [sc], l)
  {
    assert [sc][0] == sc;
    if sc.counted { AddGrade(sc.cstats, sc.sstats, sc.grade); }
    forall o | o in records ensures SumsOf(o) == Accumulated(Log(done + [sc], l, o), o in classes) {
      LogSnoc(done, sc, l, o);
      assert sc.counted && l.To(sc, o) ==> o == sc.cstats || o == sc.sstats;
      if sc.counted && l.To(sc, o) {
        AccumulatedSnoc(Log(done, l, o), sc.grade, o in classes);
      } else {
        assert SumsOf(o) == old(SumsOf(o));
      }
    }
  }

  lemma RolesOne(scores: seq<Score>, l: Links, classes: set<Stats>, k: nat)
    requires Roles(scores, l, classes) && k < |scores|
    ensures Roles([scores[k]], l, classes)
  {
  }

  method SumStudent(scores: seq<Score>, ghost done: seq<Score>, ghost l: Links,
                    ghost records: set<Stats>, ghost classes: set<Stats>)
    requires LinkedAs(scores, l, records) && Roles(scores, l, classes) && AllSummed(records, classes, done, l)
    modifies records`valid, records`sum, records`sumsq, records`min, records`max
    ensures AllSummed(records, classes, done + scores, l)
  {
    hide AllSummed, Roles;
    var k := 0;
    assert done + scores[..0] == done;
    while k < |scores|
      invariant 0 <= k <= |scores|
      invariant AllSummed(records, classes, done + scores[..k], l)
    {
      LinkedOne(scores, l, records, k);
      RolesOne(scores, l, classes, k);
      SumOne(scores[k], done + scores[..k], l, records, classes);
      assert done + scores[..k] + [scores[k]] == done + scores[..k+1];
      k := k + 1;
    }
    assert scores[..|scores|] == scores;
  }

  lemma NoneSummed(records: set<Stats>, classes: set<Stats>, l: Links)
    requires forall o | o in records :: SumsOf(o) == Accumulated([], false)
    ensures AllSummed(records, classes, ScoresInOrder([]), l)
  {
  }

  /** do_sums: every record ends up with the sums of the grades linked to it, class records with their range. */
  method DoSums(c: Course, ghost all: seq<Student>, ghost l: Links, ghost records: set<Stats>,
                ghost classes: set<Stats>)
    requires CNextList(c.roster, all)
    requires LinkedAs(ScoresInOrder(all), l, records) && Roles(ScoresInOrder(all), l, classes)
    requires forall o | o in records :: SumsOf(o) == Accumulated([], false)
    modifies records`valid, records`sum, records`sumsq, records`min, records`max
    ensures AllSummed(records, classes, ScoresInOrder(all), l)
  {
    hide AllSummed, Roles;
    NoneSummed(records, classes, l);
    var stp := c.roster;
    ghost var i := 0;
    while stp != null
      invariant 0 <= i <= |all| && stp == At(all, i)
      invariant LinkedAs(ScoresInOrder(all), l, records)
      invariant AllSummed(records, classes, ScoresInOrder(all[..i]), l)
      decreases |all| - i
    {
      LinkedPart(all, l, records, i);
      RolesPart(all, l, classes, i);
      ScoresSnoc(all, i);
      SumStudent(stp.rawscores, ScoresInOrder(all[..i]), l, records, classes);
      stp := stp.cnext;
      i := i + 1;
    }
    assert all[..|all|] == all;
  }

  lemma RolesPart(nodes: seq<Student>, l: Links, classes: set<Stats>, i: nat)
    requires Roles(ScoresInOrder(nodes), l, classes) && i < |nodes|
    ensures Roles(nodes[i].rawscores, l, classes)
  {
    OrderedPart(nodes, i);
  }

  lemma OrderedPart(nodes: seq<Student>, i: nat)
    requires i < |nodes|
    ensures forall k | 0 <= k < |nodes[i].rawscores| :: nodes[i].rawscores[k] in ScoresInOrder(nodes)
  {
    FlattenAt(ScoreLists(nodes), i);
    var a := ScoresInOrder(nodes);
    var off := Offset(ScoreLists(nodes), i);
    forall k | 0 <= k < |nodes[i].rawscores| ensures nodes[i].rawscores[k] in a {
      assert a[off..off+|nodes[i].rawscores|][k] == a[off+k];
    }
  }

  /** A section with the grades 1 and 2 is recorded as having maximum 1. */
  lemma SectionRangeStuck()
    ensures Accumulated([1.0, 2.0], false).max == 1.0 && Greatest([1.0, 2.0]) == 2.0
  {
    assert [1.0, 2.0][..1] == [1.0] && [1.0][..0] == [];
    AccumulatedSums([1.0, 2.0], false);
  }

  /** The range recorded for a section is that of its grades exactly when they all equal the first one. */
  lemma SectionRangeExactly(log: seq<real>)
    requires log != []
    ensures var s := Accumulated(log, false);
      s.min == Lowest(log) && s.max == Greatest(log) <==> forall i | 0 <= i < |log| :: log[i] == log[0]
  {
    AccumulatedSums(log, false);
    ExtremesHold(log);
    if Lowest(log) == log[0] == Greatest(log) {
      forall i | 0 <= i < |log| ensures log[i] == log[0] { assert log[i] in log; }
    }
  }

  /** Lowest and Greatest are what their names say. */
  lemma {:induction false} ExtremesHold(xs: seq<real>)
    requires xs != []
    ensures Lowest(xs) in xs && Greatest(xs) in xs
    ensures forall x | x in xs :: Lowest(xs) <= x <= Greatest(xs)
  {
    var n := |xs| - 1;
    assert xs == xs[..n] + [xs[n]];
    if n > 0 {
      ExtremesHold(xs[..n]);
      assert forall x :: x in xs <==> x in xs[..n] || x == xs[n];
    }
  }
}
