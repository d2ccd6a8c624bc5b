/** What the text of a course keeps: the strings that survive being printed, and the course that reading yields. */
module Survival {
  import opened Options
  import opened Numbers
  import opened Tokens
  import opened TokenText
  import opened Database
  import opened Reader

  // ----- strings that survive -----

  predicate WellPerson(p: Option<Person>)
  {
    p.Some? ==> IsWord(p.value.surname) && IsLine(p.value.name)
  }

  predicate WellAssignment(a: Assignment)
  {
    IsWord(a.name) && IsWord(a.atype)
  }

  predicate WellGrade(g: Grade)
  {
    g.Valid? || IsLine(g.code)
  }

  predicate WellStudent(s: Student, asgts: seq<Assignment>)
  {
    && IsWord(s.id) && IsWord(s.surname) && IsLine(s.name)
    && forall x | x in s.scores :: x.asgt < |asgts| && WellGrade(x.grade)
  }

  predicate WellSection(s: Section, asgts: seq<Assignment>)
  {
    IsLine(s.name) && WellPerson(s.assistant) && forall x | x in s.roster :: WellStudent(x, asgts)
  }

  /** Ids, surnames and types are words; names, titles and codes are lines; scores are for declared assignments. */
  predicate WellWritten(c: Course)
  {
    && IsWord(c.number) && IsLine(c.title) && WellPerson(c.professor)
    && (forall a | a in c.assignments :: WellAssignment(a))
    && (forall s | s in c.sections :: WellSection(s, c.assignments))
  }

  // ----- what comes back -----

  function RereadNorm(known: bool, n: Norm): Norm
  {
    if n.Linear? && !known then Raw else n
  }

  function RereadGroup(known: bool, n: Norm, g: Group): Group
  {
    if (n.Linear? && !known) || n.Raw? then ByClass else g
  }

  function RereadAssignment(known: bool, a: Assignment): Assignment
  {
    a.(norm := RereadNorm(known, a.norm), group := RereadGroup(known, a.norm, a.group))
  }

  function RereadAssignments(known: bool, s: seq<Assignment>): (r: seq<Assignment>)
    ensures |r| == |s| && forall i | 0 <= i < |s| :: r[i] == RereadAssignment(known, s[i])
  {
    if s == [] then [] else [RereadAssignment(known, s[0])] + RereadAssignments(known, s[1..])
  }

  function NormErrors(known: bool, n: Norm): nat
  {
    if n.Linear? && !known then 2 else 0
  }

  function AssignmentErrors(known: bool, s: seq<Assignment>): nat
  {
    if s == [] then 0 else NormErrors(known, s[0].norm) + AssignmentErrors(known, s[1..])
  }

  /** The number printed for a USENORM grade. */
  function Printed(g: Grade, norm: Norm): int
    requires g.UseNorm? && !norm.Raw?
  {
    match norm case Linear(_, _) => g.lnorm case Quantile => g.qnorm case Scale(_) => g.snorm
  }

  function RereadGrade(g: Grade, norm: Norm): Grade
  {
    if !g.UseNorm? then g
    else if norm.Raw? then UseLikeAvg(g.code)
    else var x := Printed(g, norm); UseNorm(x, x, x, "USELIKEAVG" + (" " + g.code))
  }

  /** `seen` is the policy the reader has for the assignment. */
  function GradeErrors(g: Grade, norm: Norm, seen: Norm): nat
  {
    if g.UseNorm? && !norm.Raw? && !NormInRange(Printed(g, norm), seen) then 1 else 0
  }

  /** The first assignment of the same name. */
  function First(asgts: seq<Assignment>, i: nat): (r: nat)
    requires i < |asgts|
    ensures r <= i && asgts[r].name == asgts[i].name && forall j | 0 <= j < r :: asgts[j].name != asgts[i].name
  {
    Find(asgts, asgts[i].name).value
  }

  function RereadScores(s: seq<Score>, asgts: seq<Assignment>): seq<Score>
    requires forall x | x in s :: x.asgt < |asgts|
  {
    if s == [] then []
    else [Score(First(asgts, s[0].asgt), RereadGrade(s[0].grade, asgts[s[0].asgt].norm))] + RereadScores(s[1..], asgts)
  }

  function ScoreErrors(known: bool, s: seq<Score>, asgts: seq<Assignment>): nat
    requires forall x | x in s :: x.asgt < |asgts|
  {
    if s == [] then 0
    else
      GradeErrors(s[0].grade, asgts[s[0].asgt].norm, RereadNorm(known, asgts[First(asgts, s[0].asgt)].norm)) +
      ScoreErrors(known, s[1..], asgts)
  }

  function RereadStudents(s: seq<Student>, asgts: seq<Assignment>): seq<Student>
    requires forall x | x in s :: Scored(x, asgts)
  {
    if s == [] then []
    else
      assert Scored(s[0], asgts);
      [s[0].(scores := RereadScores(s[0].scores, asgts))] + RereadStudents(s[1..], asgts)
  }

  function StudentErrors(known: bool, s: seq<Student>, asgts: seq<Assignment>): nat
    requires forall x | x in s :: Scored(x, asgts)
  {
    if s == [] then 0
    else
      assert Scored(s[0], asgts);
      ScoreErrors(known, s[0].scores, asgts) + StudentErrors(known, s[1..], asgts)
  }

  function RereadSections(s: seq<Section>, asgts: seq<Assignment>): seq<Section>
    requires forall x, y | x in s && y in x.roster :: Scored(y, asgts)
  {
    if s == [] then []
    else [s[0].(roster := RereadStudents(s[0].roster, asgts))] + RereadSections(s[1..], asgts)
  }

  function SectionErrors(known: bool, s: seq<Section>, asgts: seq<Assignment>): nat
    requires forall x, y | x in s && y in x.roster :: Scored(y, asgts)
  {
    if s == [] then 0 else StudentErrors(known, s[0].roster, asgts) + SectionErrors(known, s[1..], asgts)
  }

  function Reread(known: bool, c: Course): Course
    requires AllScored(c)
  {
    c.(assignments := RereadAssignments(known, c.assignments), sections := RereadSections(c.sections, c.assignments))
  }

  function Complaints(known: bool, c: Course): nat
    requires AllScored(c)
  {
    AssignmentErrors(known, c.assignments) + SectionErrors(known, c.sections, c.assignments)
  }

  // ----- what nothing happens to -----

  predicate KeptAssignment(known: bool, a: Assignment)
  {
    (a.norm.Linear? ==> known) && (a.norm.Raw? ==> a.group.ByClass?)
  }

  predicate KeptScore(x: Score, asgts: seq<Assignment>)
    requires x.asgt < |asgts|
  {
    !x.grade.UseNorm? && First(asgts, x.asgt) == x.asgt
  }

  predicate KeptScores(s: seq<Score>, asgts: seq<Assignment>)
    requires forall x | x in s :: x.asgt < |asgts|
  {
    forall x | x in s :: KeptScore(x, asgts)
  }

  predicate KeptStudent(s: Student, asgts: seq<Assignment>)
    requires Scored(s, asgts)
  {
    KeptScores(s.scores, asgts)
  }

  predicate KeptSection(s: Section, asgts: seq<Assignment>)
    requires forall y | y in s.roster :: Scored(y, asgts)
  {
    forall y | y in s.roster :: KeptStudent(y, asgts)
  }

  /**
   * No LINEAR policy, no group without a policy, no USENORM grade, and scores for assignments no earlier one shadows.
   */
  predicate Lossless(known: bool, c: Course)
    requires AllScored(c)
  {
    && (forall a | a in c.assignments :: KeptAssignment(known, a))
    && (forall s | s in c.sections :: KeptSection(s, c.assignments))
  }

  lemma HeadTail<T>(x: T, xs: seq<T>, y: T, ys: seq<T>)
    ensures [x] + xs == [y] + ys <==> x == y && xs == ys
  {
    assert ([x] + xs)[0] == x && ([y] + ys)[0] == y;
    assert ([x] + xs)[1..] == xs && ([y] + ys)[1..] == ys;
  }

  lemma {:induction false} AssignmentsKept(known: bool, s: seq<Assignment>)
    ensures RereadAssignments(known, s) == s <==> forall a | a in s :: KeptAssignment(known, a)
    ensures (forall a | a in s :: KeptAssignment(known, a)) ==> AssignmentErrors(known, s) == 0
  {
    if s != [] {
      AssignmentsKept(known, s[1..]);
      assert forall a :: a in s <==> a == s[0] || a in s[1..];
      assert s == [s[0]] + s[1..];
      assert RereadAssignment(known, s[0]) == s[0] <==> KeptAssignment(known, s[0]);
      HeadTail(RereadAssignment(known, s[0]), RereadAssignments(known, s[1..]), s[0], s[1..]);
    }
  }

  lemma GradeKept(g: Grade, norm: Norm)
    ensures RereadGrade(g, norm) == g <==> !g.UseNorm?
  {
    if g.UseNorm? && !norm.Raw? { assert |"USELIKEAVG" + (" " + g.code)| > |g.code|; }
  }

  lemma {:induction false} ScoresKept(known: bool, s: seq<Score>, asgts: seq<Assignment>)
    requires forall x | x in s :: x.asgt < |asgts|
    ensures RereadScores(s, asgts) == s <==> KeptScores(s, asgts)
    ensures KeptScores(s, asgts) ==> ScoreErrors(known, s, asgts) == 0
  {
    hide RereadGrade, First;
    if s != [] {
      ScoresKept(known, s[1..], asgts);
      GradeKept(s[0].grade, asgts[s[0].asgt].norm);
      assert s[0] in s && forall x :: x in s <==> x == s[0] || x in s[1..];
      assert s == [s[0]] + s[1..];
      var x0 := Score(First(asgts, s[0].asgt), RereadGrade(s[0].grade, asgts[s[0].asgt].norm));
      assert x0 == s[0] <==> KeptScore(s[0], asgts);
      HeadTail(x0, RereadScores(s[1..], asgts), s[0], s[1..]);
    }
  }

  lemma {:induction false} StudentsKept(known: bool, s: seq<Student>, asgts: seq<Assignment>)
    requires forall x | x in s :: Scored(x, asgts)
    ensures RereadStudents(s, asgts) == s <==> forall x | x in s :: KeptStudent(x, asgts)
    ensures (forall x | x in s :: KeptStudent(x, asgts)) ==> StudentErrors(known, s, asgts) == 0
  {
    hide RereadScores, ScoreErrors, KeptScores;
    if s != [] {
      StudentsKept(known, s[1..], asgts);
      assert s[0] in s && Scored(s[0], asgts);
      ScoresKept(known, s[0].scores, asgts);
      assert forall x :: x in s <==> x == s[0] || x in s[1..];
      assert s == [s[0]] + s[1..];
      var x0 := s[0].(scores := RereadScores(s[0].scores, asgts));
      assert x0 == s[0] <==> KeptStudent(s[0], asgts);
      HeadTail(x0, RereadStudents(s[1..], asgts), s[0], s[1..]);
    }
  }

  lemma {:induction false} SectionsKept(known: bool, s: seq<Section>, asgts: seq<Assignment>)
    requires forall x, y | x in s && y in x.roster :: Scored(y, asgts)
    ensures RereadSections(s, asgts) == s <==> forall x | x in s :: KeptSection(x, asgts)
    ensures (forall x | x in s :: KeptSection(x, asgts)) ==> SectionErrors(known, s, asgts) == 0
  {
    hide RereadStudents, StudentErrors;
    if s != [] {
      SectionsKept(known, s[1..], asgts);
      StudentsKept(known, s[0].roster, asgts);
      assert s[0] in s && forall x :: x in s <==> x == s[0] || x in s[1..];
      assert s == [s[0]] + s[1..];
      var x0 := s[0].(roster := RereadStudents(s[0].roster, asgts));
      assert x0 == s[0] <==> KeptSection(s[0], asgts);
      HeadTail(x0, RereadSections(s[1..], asgts), s[0], s[1..]);
    }
  }

  lemma LosslessKept(known: bool, c: Course)
    requires AllScored(c)
    ensures Reread(known, c) == c && Complaints(known, c) == 0 <==> Lossless(known, c)
  {
    hide RereadAssignments, RereadSections, AssignmentErrors, SectionErrors;
    AssignmentsKept(known, c.assignments);
    SectionsKept(known, c.sections, c.assignments);
  }

  /** When no two assignments share a name, no score can be taken for another assignment's. */
  lemma DistinctNames(asgts: seq<Assignment>, x: Score)
    requires forall i, j | 0 <= i < j < |asgts| :: asgts[i].name != asgts[j].name
    requires x.asgt < |asgts|
    ensures KeptScore(x, asgts) <==> !x.grade.UseNorm?
  {
    assert asgts[First(asgts, x.asgt)].name == asgts[x.asgt].name;
  }
}
