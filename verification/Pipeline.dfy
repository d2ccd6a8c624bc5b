/** hw2/src/stats.c: statistics, from a course without records to the finished ones. */
module Pipeline {
  import opened GradeDb
  import opened Frequencies
  import opened Quantiles
  import opened Moments
  import opened Sequences
  import opened Linking
  import opened Accumulate
  import opened FreqList
  import opened Grades

  ghost function RecordsOf(cs: seq<Stats>): set<Stats>
    reads cs`sstats
  {
    (set o | o in cs) + (set k, i | 0 <= k < |cs| && 0 <= i < |cs[k].sstats| :: cs[k].sstats[i])
  }

  /** buildstats, one assignment: a class record with an empty record for each section. */
  method BuildClass(ap: Assignment, n: nat, ghost row: nat) returns (csp: Stats)
    ensures fresh(csp) && csp.asgt == ap && csp.row == row && csp.col == -1 && csp.Empty() && |csp.sstats| == n
    ensures forall i | 0 <= i < n ::
      && fresh(csp.sstats[i]) && csp.sstats[i].Empty()
      && csp.sstats[i].asgt == ap && csp.sstats[i].row == row && csp.sstats[i].col == i
  {
    csp := new Stats(ap, row, -1);
    var i := 0;
    while i < n
      invariant 0 <= i <= n && csp.Empty() && |csp.sstats| == i
      invariant forall k | 0 <= k < i ::
        && fresh(csp.sstats[k]) && csp.sstats[k].Empty()
        && csp.sstats[k].asgt == ap && csp.sstats[k].row == row && csp.sstats[k].col == k
    {
      var ssp := new Stats(ap, row, i);
      csp.sstats := csp.sstats + [ssp];
      i := i + 1;
    }
  }

  /** buildstats: records mirroring the course, all new and empty. */
  method BuildStats(c: Course) returns (cs: seq<Stats>)
    ensures Mirrors(cs, c) && fresh(RecordsOf(cs))
    ensures forall o | o in RecordsOf(cs) :: o.Empty()
  {
    cs := [];
    var k := 0;
    while k < |c.assignments|
      invariant 0 <= k <= |c.assignments| && |cs| == k
      invariant forall l | 0 <= l < k ::
        && fresh(cs[l]) && cs[l].Empty() && |cs[l].sstats| == |c.sections|
        && cs[l].asgt == c.assignments[l] && cs[l].row == l && cs[l].col == -1
      invariant forall l, i | 0 <= l < k && 0 <= i < |c.sections| ::
        && fresh(cs[l].sstats[i]) && cs[l].sstats[i].Empty() && cs[l].sstats[i].asgt == c.assignments[l]
        && cs[l].sstats[i].row == l && cs[l].sstats[i].col == i
    {
      var csp := BuildClass(c.assignments[k], |c.sections|, k);
      cs := cs + [csp];
      k := k + 1;
    }
  }

  /** The records of one assignment: the class's, then its sections'. */
  ghost function Group(csp: Stats): set<Stats>
    reads csp`sstats
  {
    {csp} + (set o | o in csp.sstats)
  }

  /** The records of the group are told apart by their section. */
  ghost predicate Ranged(csp: Stats)
    reads csp`sstats
  {
    csp.col == -1 && forall i | 0 <= i < |csp.sstats| :: csp.sstats[i].col == i
  }

  /** The table of one record gets its ranks. */
  method FillRecord(o: Stats, ghost records: set<Stats>, ghost buckets: set<Freqs>)
    requires o in records && Tables(records, buckets)
    modifies o`table, buckets
    ensures Tables(records, buckets) && o.table == Filled(old(o.table), 0)
  {
    hide Filled, Tables, Holds;
    TablesApart(o, records, buckets);
    FillQuantiles(o.freqs, o.nodes, o.table);
    o.table := Filled(o.table, 0);
    TablesTogether(o, records, buckets - (set f | f in o.nodes), buckets);
  }

  /** One round of do_quantiles. */
  method FillGroup(csp: Stats, ghost records: set<Stats>, ghost buckets: set<Freqs>)
    requires Ranged(csp) && Group(csp) <= records && Tables(records, buckets)
    modifies Group(csp)`table, buckets
    ensures Tables(records, buckets)
    ensures forall o | o in Group(csp) :: o.table == Filled(old(o.table), 0)
  {
    hide Tables, Filled;
    FillRecord(csp, records, buckets);
    var i := 0;
    while i < |csp.sstats|
      invariant 0 <= i <= |csp.sstats| && Tables(records, buckets)
      invariant forall o | o in Group(csp) :: o.table == if o.col < i then Filled(old(o.table), 0) else old(o.table)
    {
      FillRecord(csp.sstats[i], records, buckets);
      i := i + 1;
    }
  }

  lemma GroupIsRow(cs: seq<Stats>, c: Course, k: nat)
    requires Mirrors(cs, c) && k < |cs|
    ensures Ranged(cs[k]) && forall o :: o in Group(cs[k]) <==> o in RecordsOf(cs) && o.row == k
  {
  }

  /** do_quantiles: every table gets its ranks. */
  method DoQuantiles(cs: seq<Stats>, ghost c: Course, ghost buckets: set<Freqs>)
    requires Mirrors(cs, c) && Tables(RecordsOf(cs), buckets)
    modifies RecordsOf(cs)`table, buckets
    ensures Tables(RecordsOf(cs), buckets)
    ensures forall o | o in RecordsOf(cs) :: o.table == Filled(old(o.table), 0)
  {
    hide Tables, Filled;
    var k := 0;
    while k < |cs|
      invariant 0 <= k <= |cs| && Tables(RecordsOf(cs), buckets)
      invariant forall o | o in RecordsOf(cs) :: o.table == if o.row < k then Filled(old(o.table), 0) else old(o.table)
    {
      GroupIsRow(cs, c, k);
      FillGroup(cs[k], RecordsOf(cs), buckets);
      k := k + 1;
    }
  }

  /** stddev, with the square root a parameter. */
  function Stddev(n: nat, sum: real, sumsq: real, sqrt: real -> real): real
  {
    if n >= 2 then sqrt(Radicand(n, sum, sumsq)) else 0.0
  }

  ghost predicate HasMoments(o: Stats, sqrt: real -> real)
    reads o`mean, o`stddev, o`valid, o`sum, o`sumsq
  {
    && o.mean == (if o.valid > 0 then o.sum / o.valid as real else 0.0)
    && o.stddev == Stddev(o.valid, o.sum, o.sumsq, sqrt)
  }

  /** sqrt gives the root of everything that has one. */
  ghost predicate IsRoot(sqrt: real -> real)
  {
    forall x | x >= 0.0 :: sqrt(x) >= 0.0 && sqrt(x) * sqrt(x) == x
  }

  /** A finished record has the mean of its grades and, of two or more, the deviation of a sample. */
  lemma FinishedMoments(o: Stats, log: seq<real>, isClass: bool, sqrt: real -> real)
    requires Finished(o, log, isClass, sqrt) && IsRoot(sqrt)
    ensures o.mean == if log == [] then 0.0 else Mean(log)
    ensures |log| < 2 ==> o.stddev == 0.0
    ensures |log| >= 2 ==>
      o.stddev >= 0.0 && o.stddev * o.stddev == Deviations(log, Mean(log)) / (|log| - 1) as real
  {
    hide RankTable, Radicand;
    AccumulatedSums(log, isClass);
    if |log| >= 2 {
      OnePassIsTwoPass(log);
      RadicandSign(log);
    }
  }

  method SetMoments(o: Stats, sqrt: real -> real)
    modifies o`mean, o`stddev
    ensures HasMoments(o, sqrt)
  {
    if o.valid > 0 {
      o.mean := o.sum / o.valid as real;
      if o.valid == 1 {
        o.stddev := 0.0;
      } else {
        o.stddev := Stddev(o.valid, o.sum, o.sumsq, sqrt);
      }
    } else {
      o.mean := 0.0;
      o.stddev := 0.0;
    }
  }

  method MomentsOfGroup(csp: Stats, sqrt: real -> real)
    modifies Group(csp)`mean, Group(csp)`stddev
    ensures forall o | o in Group(csp) :: HasMoments(o, sqrt)
  {
    SetMoments(csp, sqrt);
    var i := 0;
    while i < |csp.sstats|
      invariant 0 <= i <= |csp.sstats| && HasMoments(csp, sqrt)
      invariant forall j | 0 <= j < i :: HasMoments(csp.sstats[j], sqrt)
    {
      SetMoments(csp.sstats[i], sqrt);
      i := i + 1;
    }
  }

  /** do_moments: every record gets the mean and the standard deviation of its sums. */
  method DoMoments(cs: seq<Stats>, sqrt: real -> real, ghost c: Course)
    requires Mirrors(cs, c)
    modifies RecordsOf(cs)`mean, RecordsOf(cs)`stddev
    ensures forall o | o in RecordsOf(cs) :: HasMoments(o, sqrt)
  {
    var k := 0;
    while k < |cs|
      invariant 0 <= k <= |cs|
      invariant forall o | o in RecordsOf(cs) && o.row < k :: HasMoments(o, sqrt)
    {
      GroupIsRow(cs, c, k);
      MomentsOfGroup(cs[k], sqrt);
      k := k + 1;
    }
  }

  /** A finished record for the grades logged. */
  ghost predicate Finished(o: Stats, log: seq<real>, isClass: bool, sqrt: real -> real)
    reads o
  {
    && o.table == RankTable(log) && o.tallied == |log|
    && SumsOf(o) == Accumulated(log, isClass) && HasMoments(o, sqrt)
  }

  ghost predicate AllFinished(cs: seq<Stats>, c: Course, rosters: seq<seq<Student>>, sqrt: real -> real)
    requires Mirrors(cs, c) && |rosters| == |c.sections|
    reads RecordsOf(cs), cs`sstats
  {
    && (forall k | 0 <= k < |cs| ::
          Finished(cs[k], GradesFor(ScoresInOrder(Flatten(rosters)), c.assignments[k]), true, sqrt))
    && (forall k, i | 0 <= k < |cs| && 0 <= i < |rosters| ::
          Finished(cs[k].sstats[i], GradesFor(ScoresInOrder(rosters[i]), c.assignments[k]), false, sqrt))
  }

  ghost predicate Declared(c: Course, all: seq<Student>)
  {
    forall sc | sc in ScoresOf(all) && sc.counted :: sc.asgt in c.assignments
  }

  ghost function LinksOf(all: seq<Student>): Links
    reads ScoresOf(all)
  {
    Links(map sc | sc in ScoresOf(all) && sc.cstats != null :: sc.cstats,
          map sc | sc in ScoresOf(all) && sc.sstats != null :: sc.sstats)
  }

  /** The score belongs to the k-th assignment and is linked to the records that are its own. */
  ghost predicate Own(sc: Score, cs: seq<Stats>, c: Course, k: nat)
    reads sc, cs`sstats
  {
    && k < |cs| == |c.assignments| && sc.asgt == c.assignments[k]
    && sc.cstats == cs[k] && sc.home < |cs[k].sstats| == |c.sections| && sc.sstats == cs[k].sstats[sc.home]
  }

  /** do_links has run on a course whose counted scores are all for declared assignments. */
  ghost predicate Ready(cs: seq<Stats>, c: Course, rosters: seq<seq<Student>>)
    reads cs, c.sections, Flatten(rosters)`next, ScoresOf(Flatten(rosters))
  {
    && Linkable(c, rosters) && Mirrors(cs, c)
    && AllLinked(cs, c, Flatten(rosters)) && Declared(c, Flatten(rosters))
  }

  lemma LinksRight(cs: seq<Stats>, c: Course, rosters: seq<seq<Student>>, sc: Score) returns (k: nat)
    requires Ready(cs, c, rosters) && sc in ScoresOf(Flatten(rosters)) && sc.counted
    ensures Own(sc, cs, c, k)
  {
    ScoresHome(rosters);
    k :| k < |cs| && c.assignments[k] == sc.asgt;
    assert LinkedTo(sc, cs[k]);
  }

  lemma OwnLinks(cs: seq<Stats>, c: Course, all: seq<Student>, sc: Score, k: nat)
    requires Mirrors(cs, c) && sc in ScoresOf(all) && Own(sc, cs, c, k)
    ensures var l := LinksOf(all);
      && sc in l.c && l.c[sc] == sc.cstats == cs[k] && sc in l.s && l.s[sc] == sc.sstats == cs[k].sstats[sc.home]
      && cs[k] in RecordsOf(cs) && cs[k].sstats[sc.home] in RecordsOf(cs)
      && cs[k].sstats[sc.home] !in cs
  {
  }

  lemma LinksWork(cs: seq<Stats>, c: Course, rosters: seq<seq<Student>>)
    requires Ready(cs, c, rosters)
    ensures var scores, l := ScoresInOrder(Walked(c, rosters)), LinksOf(Flatten(rosters));
      LinkedAs(scores, l, RecordsOf(cs)) && Roles(scores, l, set o | o in cs)
  {
    var all := Flatten(rosters);
    var scores := ScoresInOrder(all);
    forall i | 0 <= i < |scores| && scores[i].counted
      ensures exists k: nat :: Own(scores[i], cs, c, k) && scores[i] in ScoresOf(all)
    {
      OrderedMembers(all, scores[i]);
      var k := LinksRight(cs, c, rosters, scores[i]);
    }
    forall sc, k: nat | sc in ScoresOf(all) && Own(sc, cs, c, k)
      ensures sc in LinksOf(all).c && LinksOf(all).c[sc] == cs[k] && sc in LinksOf(all).s
        && LinksOf(all).s[sc] == cs[k].sstats[sc.home] && cs[k].sstats[sc.home] !in cs
        && cs[k] in RecordsOf(cs) && cs[k].sstats[sc.home] in RecordsOf(cs)
    {
      OwnLinks(cs, c, all, sc, k);
    }
  }

  lemma ClassLog(cs: seq<Stats>, c: Course, rosters: seq<seq<Student>>, k: nat)
    requires Ready(cs, c, rosters) && k < |cs|
    ensures var scores := ScoresInOrder(Flatten(rosters));
      Log(scores, LinksOf(Flatten(rosters)), cs[k]) == GradesFor(scores, c.assignments[k])
  {
    var all := Flatten(rosters);
    forall sc | sc in ScoresInOrder(all) && sc.counted
      ensures LinksOf(all).To(sc, cs[k]) <==> sc.asgt == c.assignments[k]
    {
      OrderedMembers(all, sc);
      var j := LinksRight(cs, c, rosters, sc);
      OwnLinks(cs, c, all, sc, j);
    }
    LogIsGrades(ScoresInOrder(all), LinksOf(all), cs[k], c.assignments[k]);
  }

  lemma SectionRecordLog(cs: seq<Stats>, c: Course, rosters: seq<seq<Student>>, k: nat, i: nat)
    requires Ready(cs, c, rosters) && k < |cs| && i < |rosters|
    ensures Log(ScoresInOrder(Flatten(rosters)), LinksOf(Flatten(rosters)), cs[k].sstats[i]) ==
      GradesFor(ScoresInOrder(rosters[i]), c.assignments[k])
  {
    var all := Flatten(rosters);
    forall j | 0 <= j < |rosters|
      ensures Takes(ScoresInOrder(rosters[j]), LinksOf(all), cs[k].sstats[i], c.assignments[k], j == i)
    {
      forall sc | sc in ScoresInOrder(rosters[j]) && sc.counted
        ensures LinksOf(all).To(sc, cs[k].sstats[i]) <==> sc.asgt == c.assignments[k] && j == i
      {
        OrderedMembers(rosters[j], sc);
        ScoresOfSection(rosters, j);
        var m := LinksRight(cs, c, rosters, sc);
        OwnLinks(cs, c, all, sc, m);
      }
    }
    SectionLog(rosters, LinksOf(all), cs[k].sstats[i], c.assignments[k], i);
  }

  /** The first two of the four passes that fill the records. */
  method FillTables(c: Course, cs: seq<Stats>, ghost records: set<Stats>, ghost walked: seq<Student>, ghost l: Links)
    returns (ghost buckets: set<Freqs>)
    requires CNextList(c.roster, walked) && LinkedAs(ScoresInOrder(walked), l, records) && Mirrors(cs, c)
    requires records == RecordsOf(cs) && forall o | o in records :: o.Empty()
    modifies records`freqs, records`nodes, records`table, records`tallied
    ensures Tables(records, buckets)
    ensures forall o | o in records ::
      o.table == RankTable(Log(ScoresInOrder(walked), l, o)) && o.tallied == |Log(ScoresInOrder(walked), l, o)|
  {
    buckets := DoFreqs(c, walked, l, records, {});
    DoQuantiles(cs, c, buckets);
  }

  /** The other two. */
  method FillSums(c: Course, cs: seq<Stats>, sqrt: real -> real, ghost records: set<Stats>,
                  ghost walked: seq<Student>, ghost l: Links, ghost classes: set<Stats>)
    requires CNextList(c.roster, walked) && LinkedAs(ScoresInOrder(walked), l, records) && Mirrors(cs, c)
    requires records == RecordsOf(cs) && Roles(ScoresInOrder(walked), l, classes)
    requires forall o | o in records :: SumsOf(o) == Accumulated([], false)
    modifies records`valid, records`sum, records`sumsq, records`min, records`max, records`mean, records`stddev
    ensures AllSummed(records, classes, ScoresInOrder(walked), l)
    ensures forall o | o in records :: HasMoments(o, sqrt)
  {
    DoSums(c, walked, l, records, classes);
    DoMoments(cs, sqrt, c);
  }

  lemma EmptySums(records: set<Stats>)
    requires forall o | o in records :: o.Empty()
    ensures forall o | o in records :: SumsOf(o) == Accumulated([], false)
  {
  }

  /** The four passes of statistics after the links are in place. */
  method Fill(c: Course, cs: seq<Stats>, sqrt: real -> real, ghost records: set<Stats>,
              ghost walked: seq<Student>, ghost l: Links, ghost classes: set<Stats>)
    returns (ghost buckets: set<Freqs>)
    requires CNextList(c.roster, walked) && LinkedAs(ScoresInOrder(walked), l, records) && Mirrors(cs, c)
    requires records == RecordsOf(cs) && Roles(ScoresInOrder(walked), l, classes)
    requires forall o | o in records :: o.Empty()
    modifies records`freqs, records`nodes, records`table, records`tallied, records`valid, records`sum
    modifies records`sumsq, records`min, records`max, records`mean, records`stddev
    ensures Tables(records, buckets)
    ensures forall o | o in records :: Finished(o, Log(ScoresInOrder(walked), l, o), o in classes, sqrt)
  {
    hide Tables, RankTable, Log, ScoresInOrder, Roles, Accumulated, RecordsOf;
    EmptySums(records);
    buckets := FillTables(c, cs, records, walked, l);
    FillSums(c, cs, sqrt, records, walked, l, classes);
  }

  ghost predicate LogsRight(cs: seq<Stats>, c: Course, rosters: seq<seq<Student>>, scores: seq<Score>, l: Links)
    requires Mirrors(cs, c) && |rosters| == |c.sections|
    reads cs`sstats
  {
    && (forall k | 0 <= k < |cs| :: Log(scores, l, cs[k]) ==
         GradesFor(ScoresInOrder(Flatten(rosters)), c.assignments[k]))
    && (forall k, i | 0 <= k < |cs| && 0 <= i < |rosters| ::
          Log(scores, l, cs[k].sstats[i]) == GradesFor(ScoresInOrder(rosters[i]), c.assignments[k]))
  }

  /** The students the passes walk: without assignments the course roster is empty. */
  ghost function Walked(c: Course, rosters: seq<seq<Student>>): seq<Student>
  {
    if c.assignments == [] then [] else Flatten(rosters)
  }

  lemma LinksLogs(cs: seq<Stats>, c: Course, rosters: seq<seq<Student>>)
    requires Ready(cs, c, rosters)
    ensures LogsRight(cs, c, rosters, ScoresInOrder(Walked(c, rosters)), LinksOf(Flatten(rosters)))
  {
    forall k | 0 <= k < |cs|
      ensures Log(ScoresInOrder(Flatten(rosters)), LinksOf(Flatten(rosters)), cs[k]) ==
        GradesFor(ScoresInOrder(Flatten(rosters)), c.assignments[k])
    {
      ClassLog(cs, c, rosters, k);
    }
    forall k, i | 0 <= k < |cs| && 0 <= i < |rosters|
      ensures Log(ScoresInOrder(Flatten(rosters)), LinksOf(Flatten(rosters)), cs[k].sstats[i]) ==
        GradesFor(ScoresInOrder(rosters[i]), c.assignments[k])
    {
      SectionRecordLog(cs, c, rosters, k, i);
    }
  }

  lemma AllRecordsFinished(cs: seq<Stats>, c: Course, rosters: seq<seq<Student>>, sqrt: real -> real,
                           scores: seq<Score>, l: Links)
    requires Mirrors(cs, c) && |rosters| == |c.sections| && LogsRight(cs, c, rosters, scores, l)
    requires forall o | o in RecordsOf(cs) :: Finished(o, Log(scores, l, o), o in (set x | x in cs), sqrt)
    ensures AllFinished(cs, c, rosters, sqrt)
  {
    forall k | 0 <= k < |cs|
      ensures Finished(cs[k], GradesFor(ScoresInOrder(Flatten(rosters)), c.assignments[k]), true, sqrt)
    {
      assert cs[k] in RecordsOf(cs);
    }
    forall k, i | 0 <= k < |cs| && 0 <= i < |rosters|
      ensures Finished(cs[k].sstats[i], GradesFor(ScoresInOrder(rosters[i]), c.assignments[k]), false, sqrt)
    {
      assert cs[k].sstats[i] in RecordsOf(cs) && cs[k].sstats[i] !in cs;
    }
  }

  /** Every counted score is linked to its own two records. */
  ghost predicate LinkedUp(c: Course, cs: seq<Stats>, records: set<Stats>, l: Links, rosters: seq<seq<Student>>,
                           walked: seq<Student>, scores: seq<Score>)
    reads c, cs`sstats, walked`cnext, scores
  {
    && Mirrors(cs, c) && |rosters| == |c.sections| && records == RecordsOf(cs)
    && walked == Walked(c, rosters) && scores == ScoresInOrder(walked)
    && CNextList(c.roster, walked) && LinkedAs(scores, l, records) && Roles(scores, l, set o | o in cs)
    && LogsRight(cs, c, rosters, scores, l)
  }

  /** The first two passes: building the records and linking scores to them. */
  method LinkUp(c: Course, ghost rosters: seq<seq<Student>>)
    returns (cs: seq<Stats>, ghost records: set<Stats>, ghost l: Links)
    requires Linkable(c, rosters) && Declared(c, Flatten(rosters))
    modifies c`roster, Flatten(rosters)`cnext, ScoresOf(Flatten(rosters))
    ensures LinkedUp(c, cs, records, l, rosters, Walked(c, rosters), ScoresInOrder(Walked(c, rosters)))
    ensures fresh(records) && forall o | o in records :: o.Empty()
  {
    hide LinkedUp, Flatten, Declared, AllLinked, LinksOf;
    cs := BuildStats(c);
    records := RecordsOf(cs);
    DoLinks(c, cs, rosters);
    l := LinksOf(Flatten(rosters));
    ReadyIsLinkedUp(cs, c, rosters);
  }

  lemma ReadyIsLinkedUp(cs: seq<Stats>, c: Course, rosters: seq<seq<Student>>)
    requires Ready(cs, c, rosters) && CNextList(c.roster, Walked(c, rosters))
    ensures LinkedUp(c, cs, RecordsOf(cs), LinksOf(Flatten(rosters)), rosters,
                     Walked(c, rosters), ScoresInOrder(Walked(c, rosters)))
  {
    LinksWork(cs, c, rosters);
    LinksLogs(cs, c, rosters);
  }

  /** The other four. */
  method FillAll(c: Course, cs: seq<Stats>, sqrt: real -> real, ghost records: set<Stats>, ghost l: Links,
                 ghost rosters: seq<seq<Student>>, ghost walked: seq<Student>, ghost scores: seq<Score>)
    returns (ghost buckets: set<Freqs>)
    requires LinkedUp(c, cs, records, l, rosters, walked, scores) && forall o | o in records :: o.Empty()
    modifies records`freqs, records`nodes, records`table, records`tallied, records`valid, records`sum
    modifies records`sumsq, records`min, records`max, records`mean, records`stddev
    ensures Tables(records, buckets)
    ensures Mirrors(cs, c) && |rosters| == |c.sections| && AllFinished(cs, c, rosters, sqrt)
  {
    hide Tables, Finished, AllFinished, Log, LogsRight, Flatten;
    buckets := Fill(c, cs, sqrt, records, walked, l, set o | o in cs);
    AllRecordsFinished(cs, c, rosters, sqrt, scores, l);
  }

  /**
   * statistics: for every assignment the class record describes exactly the counted grades of the course, and
   * each section record exactly those of its section; the course roster is the section rosters in order.
   */
  method Statistics(c: Course, sqrt: real -> real, ghost rosters: seq<seq<Student>>)
    returns (cs: seq<Stats>, ghost buckets: set<Freqs>)
    requires Linkable(c, rosters) && Declared(c, Flatten(rosters))
    modifies c`roster, Flatten(rosters)`cnext, ScoresOf(Flatten(rosters))
    ensures Mirrors(cs, c) && AllFinished(cs, c, rosters, sqrt) && Tables(RecordsOf(cs), buckets)
    ensures c.assignments != [] ==> CNextList(c.roster, Flatten(rosters))
  {
    hide Tables, Finished, AllFinished, RecordsOf, Mirrors, LinkedAs, Roles, LogsRight, Linkable, Declared;
    ghost var records, l;
    cs, records, l := LinkUp(c, rosters);
    buckets := FillAll(c, cs, sqrt, records, l, rosters, Walked(c, rosters), ScoresInOrder(Walked(c, rosters)));
  }

  // ----- the finished records against each other -----

  ghost function TalliedOver(os: seq<Stats>): nat
    reads os
  {
    if os == [] then 0 else TalliedOver(os[..|os|-1]) + os[|os|-1].tallied
  }

  ghost function SumOverRecords(os: seq<Stats>): real
    reads os
  {
    if os == [] then 0.0 else SumOverRecords(os[..|os|-1]) + os[|os|-1].sum
  }

  ghost function SumsqOverRecords(os: seq<Stats>): real
    reads os
  {
    if os == [] then 0.0 else SumsqOverRecords(os[..|os|-1]) + os[|os|-1].sumsq
  }

  /** How many scores equal to s, and how many below it, the tables of the records hold. */
  ghost function CountOverRecords(os: seq<Stats>, s: real): nat
    reads os
  {
    if os == [] then 0 else CountOverRecords(os[..|os|-1], s) + CountAt(os[|os|-1].table, s)
  }

  ghost function BelowOverRecords(os: seq<Stats>, s: real): nat
    reads os
  {
    if os == [] then 0 else BelowOverRecords(os[..|os|-1], s) + Below(os[|os|-1].table, s)
  }

  /** Filling in the ranks leaves the counts of a table alone. */
  lemma {:induction false} FilledCounts(t: Table, sum: nat, s: real)
    ensures CountAt(Filled(t, sum), s) == CountAt(t, s) && Below(Filled(t, sum), s) == Below(t, s)
  {
    if t != [] { FilledCounts(t[1..], sum + t[0].count, s); }
  }

  /** Section records finished for the lists of grades ls add up to what those lists do. */
  lemma {:induction false} RecordsAddUp(os: seq<Stats>, ls: seq<seq<real>>, sqrt: real -> real, s: real)
    requires |os| == |ls| && forall i | 0 <= i < |os| :: Finished(os[i], ls[i], false, sqrt)
    ensures TalliedOver(os) == |Flatten(ls)|
    ensures SumOverRecords(os) == Sum(Flatten(ls)) && SumsqOverRecords(os) == SumSq(Flatten(ls))
    ensures CountOverRecords(os, s) == CountAt(TableOf(Flatten(ls)), s)
    ensures BelowOverRecords(os, s) == Below(TableOf(Flatten(ls)), s)
  {
    TableAgrees(Flatten(ls), s);
    if os != [] {
      var n := |os| - 1;
      RecordsAddUp(os[..n], ls[..n], sqrt, s);
      RecordAdds(os[n], Flatten(ls[..n]), ls[n], sqrt, s);
    }
  }

  lemma RecordAdds(o: Stats, before: seq<real>, l: seq<real>, sqrt: real -> real, s: real)
    requires Finished(o, l, false, sqrt)
    ensures o.tallied == |l| && Sum(before + l) == Sum(before) + o.sum && SumSq(before + l) == SumSq(before) + o.sumsq
    ensures CountAt(TableOf(before + l), s) == CountAt(TableOf(before), s) + CountAt(o.table, s)
    ensures Below(TableOf(before + l), s) == Below(TableOf(before), s) + Below(o.table, s)
  {
    hide TableOf, Filled;
    AccumulatedSums(l, false);
    SumsConcat(before, l);
    CountsConcat(before, l, s);
    TableAgrees(before, s);
    TableAgrees(l, s);
    TableAgrees(before + l, s);
    FilledCounts(TableOf(l), 0, s);
  }

  /**
   * The class record of every assignment is the combination of its section records: valid equals tallied, tallies,
   * sums and sums of squares add up, and so do the counts of every score and of every score's lower ones.
   */
  lemma ClassIsSections(cs: seq<Stats>, c: Course, rosters: seq<seq<Student>>, sqrt: real -> real, k: nat, s: real)
    requires Mirrors(cs, c) && |rosters| == |c.sections| && AllFinished(cs, c, rosters, sqrt) && k < |cs|
    ensures cs[k].valid == cs[k].tallied == TalliedOver(cs[k].sstats)
    ensures cs[k].sum == SumOverRecords(cs[k].sstats) && cs[k].sumsq == SumsqOverRecords(cs[k].sstats)
    ensures CountAt(cs[k].table, s) == CountOverRecords(cs[k].sstats, s)
    ensures Below(cs[k].table, s) == BelowOverRecords(cs[k].sstats, s)
  {
    hide TableOf, Filled, Flatten, Accumulated, GradesFor, TalliedOver, SumOverRecords, SumsqOverRecords,
      CountOverRecords, BelowOverRecords;
    var ap := c.assignments[k];
    var log := GradesFor(ScoresInOrder(Flatten(rosters)), ap);
    assert Finished(cs[k], log, true, sqrt);
    ClassGrades(rosters, ap);
    AccumulatedSums(log, true);
    FilledCounts(TableOf(log), 0, s);
    RecordsAddUp(cs[k].sstats, SectionGrades(rosters, ap), sqrt, s);
  }

  /** The range of a class record is the first and the last bucket of its table. */
  lemma ClassRange(cs: seq<Stats>, c: Course, rosters: seq<seq<Student>>, sqrt: real -> real, k: nat)
    requires Mirrors(cs, c) && |rosters| == |c.sections| && AllFinished(cs, c, rosters, sqrt) && k < |cs|
    requires cs[k].tallied > 0
    ensures cs[k].table != [] && cs[k].min == cs[k].table[0].score && cs[k].max == cs[k].table[|cs[k].table|-1].score
  {
    hide TableOf, Flatten, Accumulated, GradesFor;
    var log := GradesFor(ScoresInOrder(Flatten(rosters)), c.assignments[k]);
    assert Finished(cs[k], log, true, sqrt);
    AccumulatedSums(log, true);
    RankTableRange(log);
  }

  /** The range of a section record is that of its grades, and of its table, exactly when all those grades are equal. */
  lemma SectionRange(cs: seq<Stats>, c: Course, rosters: seq<seq<Student>>, sqrt: real -> real, k: nat, i: nat)
    requires Mirrors(cs, c) && |rosters| == |c.sections| && AllFinished(cs, c, rosters, sqrt)
    requires k < |cs| && i < |c.sections| && cs[k].sstats[i].tallied > 0
    ensures var o, log := cs[k].sstats[i], GradesFor(ScoresInOrder(rosters[i]), c.assignments[k]);
      && log != [] && o.table != []
      && (o.min == Lowest(log) && o.max == Greatest(log) <==> forall j | 0 <= j < |log| :: log[j] == log[0])
      && o.table[0].score == Lowest(log) && o.table[|o.table|-1].score == Greatest(log)
  {
    hide Flatten, Accumulated, GradesFor, Lowest, Greatest;
    var log := GradesFor(ScoresInOrder(rosters[i]), c.assignments[k]);
    assert Finished(cs[k].sstats[i], log, false, sqrt);
    SectionRangeExactly(log);
    RankTableRange(log);
  }

  lemma RankTableRange(log: seq<real>)
    requires log != []
    ensures var t := RankTable(log); t != [] && t[0].score == Lowest(log) && t[|t|-1].score == Greatest(log)
  {
    hide TableOf;
    var t := TableOf(log);
    RangeIsTable(log);
    TableAgrees(log, 0.0);
    FilledRanks(t, 0, 0);
    FilledRanks(t, 0, |t| - 1);
  }
}
