/**
 * Printing and reading are inverse: reading the text of a course gives the course back, without errors, exactly when
 * its strings are words and lines and it is Lossless.
 */
module RoundTrip {
  import opened Options
  import opened Numbers
  import opened Tokens
  import opened TokenText
  import opened Database
  import opened Reader
  import opened Survival
  import opened AssignmentText
  import opened RosterText
  import opened Yields

  lemma SectionsLook(asgts: seq<Assignment>, st: In)
    ensures ReadSections(asgts, Look(st)) == ReadSections(asgts, st)
  {
    hide AdvanceToken;
    LookTwice(st);
  }

  lemma SectionLineNext(name: string, x: string)
    ensures NextIn(PutSectionLine(name, x), {"SECTION", ""})
  {
    WordAhead(" ", "SECTION", " " + (name + ("\n" + x)), 0);
  }

  lemma SectionsNext(s: seq<Section>, asgts: seq<Assignment>)
    requires forall x, y | x in s && y in x.roster :: Scored(y, asgts)
    ensures NextIn(PutSections(s, asgts, ""), {"SECTION", ""})
  {
    hide NextWord;
    if s == [] {
      NothingNext();
    } else {
      SectionLineNext(s[0].name,
        PutPerson("ASSISTANT", s[0].assistant, PutStudents(s[0].roster, asgts, PutSections(s[1..], asgts, ""))));
    }
  }

  lemma NothingNext()
    ensures NextWord("") == "" && Ahead("", 0) == In("", None, 0)
  {
  }

  lemma NoSections(asgts: seq<Assignment>, e: nat)
    ensures ReadSections(asgts, In("", None, e)) == Got([], In("", None, e))
  {
  }

  /** A SECTION line in front of text x. */
  lemma SectionLine(asgts: seq<Assignment>, name: string, x: string, e: nat, assistant: Option<Person>, st1: In,
                    roster: seq<Student>, st2: In, rest: seq<Section>, st: In)
    requires IsLine(name) && IsClean(x)
    requires ReadPerson("ASSISTANT", In(x, None, e)) == Got(assistant, st1)
    requires ReadStudents(asgts, st1) == Got(roster, st2) && ReadSections(asgts, st2) == Got(rest, st)
    ensures ReadSections(asgts, In(PutSectionLine(name, x), None, e)) ==
      Got([Section(name, assistant, roster)] + rest, st)
  {
    hide ReadPerson, ReadStudents, SkipBlank, Word, IsLine;
    WordAhead(" ", "SECTION", " " + (name + ("\n" + x)), e);
    NameHit(" ", name, x, e);
  }

  lemma AssistantText(p: Option<Person>, k: string, asgts: seq<Assignment>, e: nat, roster: seq<Student>, st: In)
    requires WellPerson(p) && NextIn(k, {"STUDENT", "SECTION", ""})
    requires ReadStudents(asgts, In(k, None, e)) == Got(roster, st)
    ensures IsClean(PutPerson("ASSISTANT", p, k))
    ensures var r := ReadPerson("ASSISTANT", In(PutPerson("ASSISTANT", p, k), None, e));
      r.Got? && r.value == p && ReadStudents(asgts, r.st) == Got(roster, st)
  {
    hide ReadPerson, ReadStudents, WellPerson, NextWord;
    PersonText("ASSISTANT", p, k, e);
    StudentsLook(asgts, In(k, None, e));
  }

  lemma SectionStep(known: bool, s: Section, asgts: seq<Assignment>, t: string, e: nat, rest: seq<Section>, st: In)
    requires WellSection(s, asgts) && (forall a | a in asgts :: WellAssignment(a))
    requires (forall y | y in s.roster :: Scored(y, asgts))
    requires NextIn(t, {"SECTION", ""})
    requires ReadSections(RereadAssignments(known, asgts), In(t, None, e + StudentErrors(known, s.roster, asgts))) ==
      Got(rest, st)
    ensures ReadSections(RereadAssignments(known, asgts),
        In(PutSectionLine(s.name, PutPerson("ASSISTANT", s.assistant, PutStudents(s.roster, asgts, t))), None, e)) ==
      Got([s.(roster := RereadStudents(s.roster, asgts))] + rest, st)
  {
    hide ReadSections, ReadStudents, ReadPerson, PutPerson, Look, NextIn, PutSectionLine, RereadAssignments,
      PutStudents, IsLine,
      WellPerson, RereadStudents, StudentErrors, WellAssignment, WellStudent, IsClean;
    var e' := e + StudentErrors(known, s.roster, asgts);
    var asgts' := RereadAssignments(known, asgts);
    var y := PutStudents(s.roster, asgts, t);
    StudentsNext(s.roster, asgts, t);
    StudentsText(known, s.roster, asgts, t, e);
    AssistantText(s.assistant, y, asgts', e, RereadStudents(s.roster, asgts), Ahead(t, e'));
    SectionsLook(asgts', In(t, None, e'));
    SectionLine(asgts', s.name, PutPerson("ASSISTANT", s.assistant, y), e, s.assistant,
      ReadPerson("ASSISTANT", In(PutPerson("ASSISTANT", s.assistant, y), None, e)).st,
      RereadStudents(s.roster, asgts), Ahead(t, e'), rest, st);
  }

  lemma {:induction false} SectionsText(known: bool, s: seq<Section>, asgts: seq<Assignment>, e: nat)
    requires (forall x, y | x in s && y in x.roster :: Scored(y, asgts)) && (forall x | x in s :: WellSection(x, asgts))
    requires forall a | a in asgts :: WellAssignment(a)
    ensures ReadSections(RereadAssignments(known, asgts), In(PutSections(s, asgts, ""), None, e)) ==
      Got(RereadSections(s, asgts), In("", None, e + SectionErrors(known, s, asgts)))
  {
    hide ReadSections, PutStudents, PutPerson, Look, NextIn, StudentErrors, RereadStudents, RereadAssignments,
      WellAssignment, WellSection;
    if s == [] {
      NoSections(RereadAssignments(known, asgts), e);
    } else {
      var x := s[0];
      assert x in s && forall y | y in s[1..] :: y in s;
      var e' := e + StudentErrors(known, x.roster, asgts);
      SectionsNext(s[1..], asgts);
      SectionsText(known, s[1..], asgts, e');
      SectionStep(known, x, asgts, PutSections(s[1..], asgts, ""), e, RereadSections(s[1..], asgts), In("", None,
        e + SectionErrors(known, s, asgts)));
    }
  }

  lemma WellWrittenScored(c: Course)
    requires WellWritten(c)
    ensures AllScored(c)
  {
    forall x, y | x in c.sections && y in x.roster ensures Scored(y, c.assignments) {
      assert WellSection(x, c.assignments) && WellStudent(y, c.assignments);
    }
  }

  /** The COURSE line in front of text x. */
  lemma CourseLine(number: string, title: string, x: string, professor: Option<Person>, st1: In,
                   assignments: seq<Assignment>, st2: In, sections: seq<Section>, st: In)
    requires IsWord(number) && IsLine(title) && IsClean(x)
    requires ReadPerson("PROFESSOR", In(x, None, 0)) == Got(professor, st1)
    requires ReadAssignments(st1) == Got(assignments, st2) && ReadSections(assignments, st2) == Got(sections, st)
    ensures ReadCourse(In("COURSE" + (" " + (number + (" " + (title + ("\n" + x))))), None, 0)) ==
      Got(Course(number, title, professor, assignments, sections), st)
  {
    hide ReadPerson, ReadAssignments, ReadSections, SkipBlank, Word, IsLine, ReadWord, ReadName;
    var y := " " + (number + (" " + (title + ("\n" + x))));
    WordAhead("", "COURSE", y, 0);
    assert "" + ("COURSE" + y) == "COURSE" + y;
    WordHit(" ", number, " " + (title + ("\n" + x)), 0);
    NameHit(" ", title, x, 0);
  }

  lemma ProfessorText(p: Option<Person>, k: string, asgts: seq<Assignment>, st: In)
    requires WellPerson(p) && NextIn(k, {"ASSIGNMENT", "SECTION", ""})
    requires ReadAssignments(In(k, None, 0)) == Got(asgts, st)
    ensures IsClean(PutPerson("PROFESSOR", p, k))
    ensures var r := ReadPerson("PROFESSOR", In(PutPerson("PROFESSOR", p, k), None, 0));
      r.Got? && r.value == p && ReadAssignments(r.st) == Got(asgts, st)
  {
    hide ReadPerson, ReadAssignments, WellPerson, NextWord;
    PersonText("PROFESSOR", p, k, 0);
    AssignmentsLook(In(k, None, 0));
  }

  lemma CourseBack(known: bool, c: Course)
    requires WellWritten(c) && AllScored(c)
    ensures ReadCourse(In(CourseText(known, c), None, 0)) == Got(Reread(known, c), In("", None, Complaints(known, c)))
  {
    hide ReadCourse, ReadPerson, ReadAssignments, ReadSections, Look, NextIn, PutPerson, PutSections, PutAssignments,
      RereadAssignments, RereadSections, IsLine, IsWord, WellAssignment, WellSection, WellPerson, IsClean;
    var asgts := RereadAssignments(known, c.assignments);
    var e := AssignmentErrors(known, c.assignments);
    var u := PutSections(c.sections, c.assignments, "");
    var t := PutAssignments(known, c.assignments, u);
    SectionsNext(c.sections, c.assignments);
    AssignmentsNext(known, c.assignments, u);
    SectionsText(known, c.sections, c.assignments, e);
    SectionsLook(asgts, In(u, None, e));
    AssignmentsText(known, c.assignments, u, 0);
    ProfessorText(c.professor, t, asgts, Ahead(u, e));
    CourseLine(c.number, c.title, PutPerson("PROFESSOR", c.professor, t), c.professor,
      ReadPerson("PROFESSOR", In(PutPerson("PROFESSOR", c.professor, t), None, 0)).st,
      asgts, Ahead(u, e), RereadSections(c.sections, c.assignments), In("", None, Complaints(known, c)));
  }

  lemma FileFrame(text: string, c: Course, e: nat)
    requires text != "" && text[0] == 'C' && ReadCourse(In(text, None, 0)) == Got(c, In("", None, e))
    ensures ReadFile(text) == Got(c, In("", None, e))
  {
    hide ReadCourse;
  }

  /** What reading the text of a course yields: the course with what the text does not carry replaced. */
  lemma ReadBack(known: bool, c: Course)
    requires WellWritten(c)
    ensures AllScored(c) && ReadFile(CourseText(known, c)) == Got(Reread(known, c), In("", None, Complaints(known, c)))
  {
    hide ReadFile, ReadCourse, PutPerson, Reread, Complaints;
    WellWrittenScored(c);
    CourseBack(known, c);
    FileFrame(CourseText(known, c), Reread(known, c), Complaints(known, c));
  }

  predicate ReadsBack(known: bool, c: Course)
    requires AllScored(c)
  {
    ReadFile(CourseText(known, c)) == Got(c, In("", None, 0))
  }

  /** The round trip succeeds exactly for courses of words and lines that are lossless. */
  lemma RoundTripExactly(known: bool, c: Course)
    requires AllScored(c)
    ensures ReadsBack(known, c) <==> WellWritten(c) && Lossless(known, c)
  {
    hide ReadFile, CourseText, Reread, Complaints, WellWritten, Lossless;
    if ReadsBack(known, c) { ReadFileYields(CourseText(known, c)); }
    if WellWritten(c) { ReadBack(known, c); LosslessKept(known, c); }
  }

  /** A course with no LINEAR policy, no group without a policy and no USENORM grade. */
  predicate Storable(known: bool, c: Course)
  {
    && (forall a | a in c.assignments :: KeptAssignment(known, a))
    && (forall s, y, x | s in c.sections && y in s.roster && x in y.scores :: !x.grade.UseNorm?)
  }

  lemma YieldedLossless(known: bool, c: Course)
    requires Yielded(c)
    ensures AllScored(c) && (Lossless(known, c) <==> Storable(known, c))
  {
    forall s, y | s in c.sections && y in s.roster ensures Scored(y, c.assignments) {
      assert YieldedSection(s, c.assignments) && YieldedStudent(y, c.assignments);
    }
    forall s, y, x | s in c.sections && y in s.roster && x in y.scores
      ensures x.asgt < |c.assignments| && (KeptScore(x, c.assignments) <==> !x.grade.UseNorm?)
    {
      assert YieldedSection(s, c.assignments) && YieldedStudent(y, c.assignments) && YieldedScore(x, c.assignments);
    }
    LosslessScores(known, c);
  }

  lemma LosslessScores(known: bool, c: Course)
    requires AllScored(c)
    ensures Lossless(known, c) <==>
      && (forall a | a in c.assignments :: KeptAssignment(known, a))
      && (forall s, y, x | s in c.sections && y in s.roster && x in y.scores ::
            x.asgt < |c.assignments| && KeptScore(x, c.assignments))
  {
    if Lossless(known, c) {
      forall s, y, x | s in c.sections && y in s.roster && x in y.scores
        ensures x.asgt < |c.assignments| && KeptScore(x, c.assignments)
      {
        assert KeptSection(s, c.assignments) && Scored(y, c.assignments) && KeptStudent(y, c.assignments);
      }
    }
  }

  /**
   * A course that was read from any text without errors survives being written and read again exactly if it is
   * Storable.
   */
  lemma ReadWriteRead(known: bool, text: string)
    requires var r := ReadFile(text); r.Got? && r.st.errors == 0
    ensures var c := ReadFile(text).value; AllScored(c) && (ReadsBack(known, c) <==> Storable(known, c))
  {
    hide ReadFile, WellWritten, Lossless, Storable, Yielded, ReadsBack, AllScored;
    var c := ReadFile(text).value;
    ReadFileYields(text);
    YieldedLossless(known, c);
    RoundTripExactly(known, c);
  }

  /** One assignment with a LINEAR policy is enough for a course not to come back. */
  lemma LinearNotKept()
    ensures var a := Assignment("hw", "homework", NoWeight, Linear(0, MILLION), ByClass, 0);
      var c := Course("1", "", None, [a], []);
      WellWritten(c) && AllScored(c) && !ReadsBack(false, c)
  {
    hide ReadFile, CourseText, ReadsBack;
    var a := Assignment("hw", "homework", NoWeight, Linear(0, MILLION), ByClass, 0);
    var c := Course("1", "", None, [a], []);
    assert a in c.assignments && !KeptAssignment(false, a);
    RoundTripExactly(false, c);
  }

  /** So is one USENORM grade: the text says USELIKEAVG as well, and the code comes back longer. */
  lemma UseNormNotKept()
    ensures var a := Assignment("hw", "homework", NoWeight, Quantile, ByClass, 0);
      var y := Student("1", "Doe", "Jane", [Score(0, UseNorm(MILLION, 0, 0, "ill"))]);
      var c := Course("1", "", None, [a], [Section("1", None, [y])]);
      WellWritten(c) && AllScored(c) && !ReadsBack(false, c)
  {
    hide ReadFile, CourseText, ReadsBack, First, IsWord, IsLine;
    var a := Assignment("hw", "homework", NoWeight, Quantile, ByClass, 0);
    var y := Student("1", "Doe", "Jane", [Score(0, UseNorm(MILLION, 0, 0, "ill"))]);
    PlainWords();
    OneScore(Course("1", "", None, [a], [Section("1", None, [y])]), a, y);
  }

  lemma PlainWords()
    ensures IsWord("hw") && IsWord("homework") && IsWord("1") && IsWord("Doe")
    ensures IsLine("1") && IsLine("") && IsLine("Jane") && IsLine("ill")
  {
  }

  /** A course of one assignment and one student with a USENORM grade does not come back. */
  lemma OneScore(c: Course, a: Assignment, y: Student)
    requires |y.scores| == 1 && y.scores[0].asgt == 0 && y.scores[0].grade.UseNorm? && WellStudent(y, [a])
    requires c.assignments == [a] && |c.sections| == 1 && c.sections[0].roster == [y]
    ensures AllScored(c) && !ReadsBack(false, c)
  {
    hide ReadFile, CourseText, ReadsBack, First, IsWord, IsLine, WellWritten;
    var s, x := c.sections[0], y.scores[0];
    assert x in y.scores && !KeptScore(x, [a]);
    assert y in s.roster && Scored(y, [a]) && !KeptStudent(y, [a]);
    assert s in c.sections && !KeptSection(s, [a]);
    RoundTripExactly(false, c);
  }
}
