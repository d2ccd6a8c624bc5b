/** hw2/src/stats.c: linking students and scores, and accumulating the statistics they point at. */
module Linking {
  import opened GradeDb
  import opened Frequencies
  import opened Sequences

  // ----- buildstats -----

  /** `cs` mirrors the course: a record per assignment, each with a record per section, all different. */
  ghost predicate Mirrors(cs: seq<Stats>, c: Course)
    reads cs`sstats
  {
    && |cs| == |c.assignments|
    && (forall k {:trigger cs[k]} | 0 <= k < |cs| ::
          cs[k].asgt == c.assignments[k] && cs[k].row == k && cs[k].col == -1 && |cs[k].sstats| == |c.sections|)
    && (forall k, i {:trigger cs[k].sstats[i]} | 0 <= k < |cs| && 0 <= i < |c.sections| ::
          cs[k].sstats[i].asgt == c.assignments[k] && cs[k].sstats[i].row == k && cs[k].sstats[i].col == i)
  }

  // ----- do_links -----

  ghost function ScoresOf(nodes: seq<Student>): set<Score>
  {
    set x, sc | x in nodes && sc in x.rawscores :: sc
  }

  /** The innermost loop of do_links, for one student and one assignment. */
  method LinkScores(scores: seq<Score>, ap: Assignment, csp: Stats, ssp: Stats)
    modifies scores
    ensures forall sc | sc in scores ::
      if sc.asgt == ap then sc.cstats == csp && sc.sstats == ssp
      else sc.cstats == old(sc.cstats) && sc.sstats == old(sc.sstats)
  {
    var i := 0;
    while i < |scores|
      invariant 0 <= i <= |scores|
      invariant forall k | 0 <= k < i && scores[k].asgt == ap :: scores[k].cstats == csp && scores[k].sstats == ssp
      invariant forall sc | sc in scores ::
        (sc.asgt == ap && sc.cstats == csp && sc.sstats == ssp) ||
        (sc.cstats == old(sc.cstats) && sc.sstats == old(sc.sstats))
    {
      if scores[i].asgt == ap {
        scores[i].cstats := csp;
        scores[i].sstats := ssp;
      }
      i := i + 1;
    }
  }

  /**
   * The course roster after n students of a pass over `all` have been threaded. Before the first of a later
   * pass, the chain of the pass before is still whole and rp is its last student.
   */
  ghost predicate Threaded(c: Course, rp: Student?, all: seq<Student>, n: nat)
    reads c, all`cnext
  {
    && n <= |all|
    && (if n == 0 then (rp == null && c.roster == null) || (all != [] && rp == all[|all|-1] && c.roster == all[0])
        else rp == all[n-1] && c.roster == all[0])
    && CNextList(if n == 0 then null else all[0], all[..n])
  }

  /** Appending one student to the course roster. */
  method Thread(c: Course, rp: Student?, stp: Student, ghost all: seq<Student>, ghost n: nat)
    requires n < |all| && stp == all[n] && AllDistinct(all) && Threaded(c, rp, all, n)
    modifies c`roster, all`cnext
    ensures Threaded(c, stp, all, n + 1)
  {
    if rp == null {
      c.roster := stp;
      stp.cnext := null;
    } else {
      rp.cnext := stp;
      stp.cnext := null;
    }
  }

  /** The score is linked to the record cs for its assignment, and to the record of its own section. */
  ghost predicate LinkedTo(sc: Score, csp: Stats)
    reads sc, csp
  {
    sc.cstats == csp && sc.home < |csp.sstats| && sc.sstats == csp.sstats[sc.home]
  }

  /** The loop of do_links over the students of one section. */
  method LinkSection(c: Course, sep: Section, ap: Assignment, csp: Stats, ssp: Stats, rp: Student?,
                     ghost all: seq<Student>, ghost n: nat, ghost nodes: seq<Student>) returns (rp': Student?)
    requires AllDistinct(all) && Threaded(c, rp, all, n)
    requires n + |nodes| <= |all| && all[n..n+|nodes|] == nodes && NextList(sep.roster, nodes)
    modifies c`roster, all`cnext, ScoresOf(nodes)
    ensures Threaded(c, rp', all, n + |nodes|)
    ensures forall sc | sc in ScoresOf(nodes) ::
      if sc.asgt == ap then sc.cstats == csp && sc.sstats == ssp
      else sc.cstats == old(sc.cstats) && sc.sstats == old(sc.sstats)
  {
    hide Threaded;
    rp' := rp;
    var stp := sep.roster;
    ghost var j := 0;
    while stp != null
      invariant 0 <= j <= |nodes| && stp == At(nodes, j)
      invariant Threaded(c, rp', all, n + j)
      invariant forall sc | sc in ScoresOf(nodes) ::
        (sc.asgt == ap && sc.cstats == csp && sc.sstats == ssp) ||
        (sc.cstats == old(sc.cstats) && sc.sstats == old(sc.sstats))
      invariant forall k, sc | 0 <= k < j && sc in nodes[k].rawscores && sc.asgt == ap ::
        sc.cstats == csp && sc.sstats == ssp
      decreases |nodes| - j
    {
      assert stp == nodes[j] == all[n+j];
      Thread(c, rp', stp, all, n + j);
      rp' := stp;
      forall k | 0 <= k < |stp.rawscores| ensures stp.rawscores[k] in ScoresOf(nodes) {
        assert stp in nodes && stp.rawscores[k] in stp.rawscores;
      }
      LinkScores(stp.rawscores, ap, csp, ssp);
      stp := stp.next;
      j := j + 1;
    }
  }

  /** What do_links expects of a course: section lists without a common student, scores at home in their section. */
  ghost predicate Linkable(c: Course, rosters: seq<seq<Student>>)
    reads c.sections, Flatten(rosters)`next
  {
    && |rosters| == |c.sections| && AllDistinct(Flatten(rosters)) && AllDistinct(c.assignments)
    && (forall i | 0 <= i < |rosters| ::
          (forall j | 0 <= j < |rosters[i]| :: rosters[i][j] in Flatten(rosters)) &&
          NextList(c.sections[i].roster, rosters[i]))
    && AtHome(rosters)
  }

  ghost predicate AtHome(rosters: seq<seq<Student>>)
  {
    forall i, sc | 0 <= i < |rosters| && sc in ScoresOf(rosters[i]) :: sc.home == i
  }

  lemma ScoresHome(rosters: seq<seq<Student>>)
    requires AtHome(rosters)
    ensures forall sc | sc in ScoresOf(Flatten(rosters)) :: sc.home < |rosters| && sc in ScoresOf(rosters[sc.home])
  {
    forall sc | sc in ScoresOf(Flatten(rosters)) ensures sc.home < |rosters| && sc in ScoresOf(rosters[sc.home]) {
      var x :| x in Flatten(rosters) && sc in x.rawscores;
      FlattenMembers(rosters, x);
      var j :| 0 <= j < |rosters| && x in rosters[j];
      assert sc in ScoresOf(rosters[j]);
    }
  }

  lemma ScoresOfSection(rosters: seq<seq<Student>>, i: nat)
    requires AtHome(rosters) && i < |rosters|
    ensures forall sc :: sc in ScoresOf(rosters[i]) <==> sc in ScoresOf(Flatten(rosters)) && sc.home == i
  {
    ScoresHome(rosters);
    forall sc | sc in ScoresOf(rosters[i]) ensures sc in ScoresOf(Flatten(rosters)) {
      var x :| x in rosters[i] && sc in x.rawscores;
      FlattenMembers(rosters, x);
    }
  }

  /** One round of the loop of do_links over the sections. */
  method LinkRound(c: Course, i: nat, ap: Assignment, csp: Stats, rp: Student?,
                   ghost rosters: seq<seq<Student>>, ghost all: seq<Student>, ghost mine: set<Score>)
                 returns (rp': Student?)
    requires Linkable(c, rosters) && all == Flatten(rosters) && mine == ScoresOf(all)
    requires i < |rosters| == |csp.sstats| && Threaded(c, rp, all, Offset(rosters, i))
    modifies c`roster, all`cnext, mine
    ensures Threaded(c, rp', all, Offset(rosters, i + 1))
    ensures forall sc {:trigger sc in mine} | sc in mine ::
      if sc.asgt == ap && sc.home == i then LinkedTo(sc, csp)
      else sc.cstats == old(sc.cstats) && sc.sstats == old(sc.sstats)
  {
    FlattenAt(rosters, i);
    ScoresOfSection(rosters, i);
    rp' := LinkSection(c, c.sections[i], ap, csp, csp.sstats[i], rp, all, Offset(rosters, i), rosters[i]);
  }

  /** The loop of do_links over the sections, for one assignment. */
  method LinkAssignment(c: Course, ap: Assignment, csp: Stats, rp: Student?,
                        ghost rosters: seq<seq<Student>>, ghost all: seq<Student>, ghost mine: set<Score>)
    returns (rp': Student?)
    requires Linkable(c, rosters) && all == Flatten(rosters) && mine == ScoresOf(all) && Threaded(c, rp, all, 0)
    requires |csp.sstats| == |c.sections|
    modifies c`roster, all`cnext, mine
    ensures Threaded(c, rp', all, |all|)
    ensures forall sc {:trigger sc in mine} | sc in mine ::
      if sc.asgt == ap then LinkedTo(sc, csp) else sc.cstats == old(sc.cstats) && sc.sstats == old(sc.sstats)
  {
    hide Threaded, AllDistinct, NextList, Flatten;
    rp' := rp;
    var i := 0;
    OffsetEnds(rosters);
    while i < |c.sections|
      invariant 0 <= i <= |rosters|
      invariant Threaded(c, rp', all, Offset(rosters, i))
      invariant forall sc {:trigger sc in mine} | sc in mine ::
        if sc.asgt == ap && sc.home < i then LinkedTo(sc, csp)
        else sc.cstats == old(sc.cstats) && sc.sstats == old(sc.sstats)
    {
      rp' := LinkRound(c, i, ap, csp, rp', rosters, all, mine);
      i := i + 1;
    }
    ScoresHome(rosters);
  }

  lemma LinkableParts(c: Course, cs: seq<Stats>, rosters: seq<seq<Student>>)
    requires Linkable(c, rosters) && Mirrors(cs, c)
    ensures AllDistinct(c.assignments) && |cs| == |c.assignments|
    ensures forall k | 0 <= k < |cs| :: |cs[k].sstats| == |c.sections|
    ensures CNextList(null, Flatten(rosters)[..0])
  {
  }

  /**
   * do_links: with at least one assignment the course roster is the section rosters one after another, although
   * it is cut and threaded anew for each assignment; every score of an assignment points at that assignment's
   * record and at its section's record within it.
   */
  method DoLinks(c: Course, cs: seq<Stats>, ghost rosters: seq<seq<Student>>)
    requires Linkable(c, rosters) && Mirrors(cs, c)
    modifies c`roster, Flatten(rosters)`cnext, ScoresOf(Flatten(rosters))
    ensures c.assignments != [] ==> CNextList(c.roster, Flatten(rosters))
    ensures c.assignments == [] ==> c.roster == null
    ensures Linkable(c, rosters) && AllLinked(cs, c, Flatten(rosters))
  {
    hide Mirrors, Flatten, CNextList;
    LinkableParts(c, cs, rosters);
    ghost var all := Flatten(rosters);
    c.roster := null;
    var rp: Student? := null;
    var k := 0;
    while k < |c.assignments|
      invariant 0 <= k <= |cs|
      invariant Threaded(c, rp, all, if k == 0 then 0 else |all|)
      invariant k == 0 ==> c.roster == null
      invariant forall l, sc | 0 <= l < k && sc in ScoresOf(all) && sc.asgt == c.assignments[l] :: LinkedTo(sc, cs[l])
    {
      assert Threaded(c, rp, all, 0);
      rp := LinkAssignment(c, c.assignments[k], cs[k], rp, rosters, all, ScoresOf(all));
      k := k + 1;
    }
    assert all[..|all|] == all;
  }

  ghost predicate AllLinked(cs: seq<Stats>, c: Course, all: seq<Student>)
    requires |cs| == |c.assignments|
    reads cs, ScoresOf(all)
  {
    forall k, sc | 0 <= k < |cs| && sc in ScoresOf(all) && sc.asgt == c.assignments[k] :: LinkedTo(sc, cs[k])
  }
}
