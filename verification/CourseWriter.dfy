/**
 * hw2/src/write.c: printing a course to a file. Each method is given the text k that is to follow what it prints, and
 * is specified by the functions of Database that put their subject in front of k.
 */
module CourseWriter {
  import opened Options
  import opened Numbers
  import opened Database

  class Output {
    var text: string

    constructor ()
      ensures text == ""
    {
      text := "";
    }

    method Print(s: string, ghost k: string)
      modifies this
      ensures text + k == old(text) + (s + k)
    {
      text := text + s;
    }
  }

  /** writeprofessor and writeassistant. */
  method WritePerson(fd: Output, keyword: string, p: Option<Person>, ghost k: string)
    modifies fd
    ensures fd.text + k == old(fd.text) + PutPerson(keyword, p, k)
  {
    if p.None? { return; }
    var q := p.value;
    ghost var k1 := q.name + ("\n" + k);
    ghost var k2 := q.surname + (", " + k1);
    fd.Print(" ", keyword + (" " + k2));
    fd.Print(keyword, " " + k2);
    fd.Print(" ", k2);
    fd.Print(q.surname, ", " + k1);
    fd.Print(", ", k1);
    fd.Print(q.name, "\n" + k);
    fd.Print("\n", k);
  }

  method WriteCode(fd: Output, code: string, ghost k: string)
    modifies fd
    ensures fd.text + k == old(fd.text) + PutCode(code, k)
  {
    fd.Print(" ", code + ("\n" + k));
    fd.Print(code, "\n" + k);
    fd.Print("\n", k);
  }

  /** A keyword and a number, as in " USERAW %f". */
  method WriteNumber(fd: Output, keyword: string, x: int, ghost k: string)
    modifies fd
    ensures fd.text + k == old(fd.text) + (" " + (keyword + (" " + (Format(x) + k))))
  {
    hide Format;
    fd.Print(" ", keyword + (" " + (Format(x) + k)));
    fd.Print(keyword, " " + (Format(x) + k));
    fd.Print(" ", Format(x) + k);
    fd.Print(Format(x), k);
  }

  /** The case for USELIKEAVG, into which the one for USENORM falls. */
  method WriteLikeAvg(fd: Output, code: string, ghost k: string)
    modifies fd
    ensures fd.text + k == old(fd.text) + PutLikeAvg(code, k)
  {
    hide PutCode;
    fd.Print(" ", "USELIKEAVG" + PutCode(code, k));
    fd.Print("USELIKEAVG", PutCode(code, k));
    WriteCode(fd, code, k);
  }

  method WriteNormScore(fd: Output, g: Grade, norm: Norm, ghost k: string)
    requires g.UseNorm?
    modifies fd
    ensures fd.text + k == old(fd.text) + PutGrade(g, norm, k)
  {
    hide PutLikeAvg, Format;
    match norm {
      case Quantile => WriteNumber(fd, "USENORM", g.qnorm, PutLikeAvg(g.code, k));
      case Linear(_, _) => WriteNumber(fd, "USENORM", g.lnorm, PutLikeAvg(g.code, k));
      case Scale(_) => WriteNumber(fd, "USENORM", g.snorm, PutLikeAvg(g.code, k));
      case Raw =>
    }
    WriteLikeAvg(fd, g.code, k);
  }

  method WriteGrade(fd: Output, g: Grade, norm: Norm, ghost k: string)
    modifies fd
    ensures fd.text + k == old(fd.text) + PutGrade(g, norm, k)
  {
    hide PutLikeAvg, PutCode, Format;
    match g {
      case Valid(x) =>
        fd.Print(" ", Format(x) + ("\n" + k));
        fd.Print(Format(x), "\n" + k);
        fd.Print("\n", k);
      case UseRaw(x, code) =>
        WriteNumber(fd, "USERAW", x, PutCode(code, k));
        WriteCode(fd, code, k);
      case UseNorm(_, _, _, _) => WriteNormScore(fd, g, norm, k);
      case UseLikeAvg(code) => WriteLikeAvg(fd, code, k);
      case UseClassAvg(code) =>
        fd.Print(" ", "USECLASSAVG" + PutCode(code, k));
        fd.Print("USECLASSAVG", PutCode(code, k));
        WriteCode(fd, code, k);
    }
  }

  method WriteScore(fd: Output, s: Score, asgts: seq<Assignment>, ghost k: string)
    requires s.asgt < |asgts|
    modifies fd
    ensures fd.text + k ==
      old(fd.text) + ("   " + ("SCORE" + (" " + (asgts[s.asgt].name + PutGrade(s.grade, asgts[s.asgt].norm, k)))))
  {
    hide PutGrade;
    var a := asgts[s.asgt];
    ghost var k1 := PutGrade(s.grade, a.norm, k);
    fd.Print("   ", "SCORE" + (" " + (a.name + k1)));
    fd.Print("SCORE", " " + (a.name + k1));
    fd.Print(" ", a.name + k1);
    fd.Print(a.name, k1);
    WriteGrade(fd, s.grade, a.norm, k);
  }

  method WriteScores(fd: Output, scores: seq<Score>, asgts: seq<Assignment>, ghost k: string)
    requires forall x | x in scores :: x.asgt < |asgts|
    modifies fd
    ensures fd.text + k == old(fd.text) + PutScores(scores, asgts, k)
  {
    hide PutGrade;
    var i := 0;
    while i < |scores|
      invariant i <= |scores|
      invariant fd.text + PutScores(scores[i..], asgts, k) == old(fd.text) + PutScores(scores, asgts, k)
    {
      assert scores[i..][1..] == scores[i+1..] && scores[i..][0] == scores[i];
      WriteScore(fd, scores[i], asgts, PutScores(scores[i+1..], asgts, k));
      i := i + 1;
    }
  }

  method WriteStudentLine(fd: Output, s: Student, ghost k: string)
    modifies fd
    ensures fd.text + k == old(fd.text) + PutStudentLine(s, k)
  {
    ghost var k1 := s.name + ("\n" + k);
    ghost var k2 := s.surname + (", " + k1);
    fd.Print("  ", "STUDENT" + (" " + (s.id + (" " + k2))));
    fd.Print("STUDENT", " " + (s.id + (" " + k2)));
    fd.Print(" ", s.id + (" " + k2));
    fd.Print(s.id, " " + k2);
    fd.Print(" ", k2);
    fd.Print(s.surname, ", " + k1);
    fd.Print(", ", k1);
    fd.Print(s.name, "\n" + k);
    fd.Print("\n", k);
  }

  method WriteStudent(fd: Output, s: Student, asgts: seq<Assignment>, ghost k: string)
    requires Scored(s, asgts)
    modifies fd
    ensures fd.text + k == old(fd.text) + PutStudentLine(s, PutScores(s.scores, asgts, k))
  {
    hide PutStudentLine, PutScores;
    WriteStudentLine(fd, s, PutScores(s.scores, asgts, k));
    WriteScores(fd, s.scores, asgts, k);
  }

  method WriteStudents(fd: Output, roster: seq<Student>, asgts: seq<Assignment>, ghost k: string)
    requires forall x | x in roster :: Scored(x, asgts)
    modifies fd
    ensures fd.text + k == old(fd.text) + PutStudents(roster, asgts, k)
  {
    hide PutStudentLine, PutScores, Scored;
    var i := 0;
    while i < |roster|
      invariant i <= |roster|
      invariant fd.text + PutStudents(roster[i..], asgts, k) == old(fd.text) + PutStudents(roster, asgts, k)
    {
      assert roster[i..][1..] == roster[i+1..] && roster[i..][0] == roster[i];
      WriteStudent(fd, roster[i], asgts, PutStudents(roster[i+1..], asgts, k));
      i := i + 1;
    }
  }

  method WriteSection(fd: Output, s: Section, asgts: seq<Assignment>, ghost k: string)
    requires forall y | y in s.roster :: Scored(y, asgts)
    modifies fd
    ensures fd.text + k ==
      old(fd.text) + PutSectionLine(s.name, PutPerson("ASSISTANT", s.assistant, PutStudents(s.roster, asgts, k)))
  {
    hide PutPerson, PutStudents, Scored;
    ghost var k1 := PutStudents(s.roster, asgts, k);
    ghost var k2 := PutPerson("ASSISTANT", s.assistant, k1);
    fd.Print(" ", "SECTION" + (" " + (s.name + ("\n" + k2))));
    fd.Print("SECTION", " " + (s.name + ("\n" + k2)));
    fd.Print(" ", s.name + ("\n" + k2));
    fd.Print(s.name, "\n" + k2);
    fd.Print("\n", k2);
    WritePerson(fd, "ASSISTANT", s.assistant, k1);
    WriteStudents(fd, s.roster, asgts, k);
  }

  method WriteSections(fd: Output, sections: seq<Section>, asgts: seq<Assignment>, ghost k: string)
    requires forall x, y | x in sections && y in x.roster :: Scored(y, asgts)
    modifies fd
    ensures fd.text + k == old(fd.text) + PutSections(sections, asgts, k)
  {
    hide PutPerson, PutStudents, Scored, PutSectionLine;
    var i := 0;
    while i < |sections|
      invariant i <= |sections|
      invariant fd.text + PutSections(sections[i..], asgts, k) == old(fd.text) + PutSections(sections, asgts, k)
    {
      assert sections[i..][1..] == sections[i+1..] && sections[i..][0] == sections[i];
      WriteSection(fd, sections[i], asgts, PutSections(sections[i+1..], asgts, k));
      i := i + 1;
    }
  }

  /** "  " and a keyword and a number on a line. */
  method WriteOption(fd: Output, keyword: string, x: int, ghost k: string)
    modifies fd
    ensures fd.text + k == old(fd.text) + ("  " + (keyword + (" " + (Format(x) + ("\n" + k)))))
  {
    hide Format;
    fd.Print("  ", keyword + (" " + (Format(x) + ("\n" + k))));
    fd.Print(keyword, " " + (Format(x) + ("\n" + k)));
    fd.Print(" ", Format(x) + ("\n" + k));
    fd.Print(Format(x), "\n" + k);
    fd.Print("\n", k);
  }

  method WriteGroup(fd: Output, g: Group, ghost k: string)
    modifies fd
    ensures fd.text + k == old(fd.text) + PutGroup(g, k)
  {
    var w := if g.ByClass? then "BYCLASS" else "BYSECTION";
    fd.Print(" ", w + ("\n" + k));
    fd.Print(w, "\n" + k);
    fd.Print("\n", k);
  }

  method WriteNorm(fd: Output, n: Norm, g: Group, ghost k: string)
    modifies fd
    ensures fd.text + k == old(fd.text) + PutNorm(false, n, g, k)
  {
    hide Format, PutGroup;
    if n.Raw? { return; }
    ghost var k1 := PutGroup(g, k);
    match n {
      case Linear(mean, stddev) =>
        ghost var k3 := Format(stddev) + k1;
        ghost var k2 := Format(mean) + (", " + k3);
        fd.Print("  ", "NORMALIZE" + (" " + ("LINEAR" + (": " + k2))));
        fd.Print("NORMALIZE", " " + ("LINEAR" + (": " + k2)));
        fd.Print(" ", "LINEAR" + (": " + k2));
        fd.Print("LINEAR", ": " + k2);
        fd.Print(": ", k2);
        fd.Print(Format(mean), ", " + k3);
        fd.Print(", ", k3);
        fd.Print(Format(stddev), k1);
      case Quantile =>
        fd.Print("  ", "NORMALIZE" + (" " + ("QUANTILE" + k1)));
        fd.Print("NORMALIZE", " " + ("QUANTILE" + k1));
        fd.Print(" ", "QUANTILE" + k1);
        fd.Print("QUANTILE", k1);
      case Scale(x) =>
        ghost var k2 := Format(x) + k1;
        fd.Print("  ", "NORMALIZE" + (" " + ("SCALE" + (" " + k2))));
        fd.Print("NORMALIZE", " " + ("SCALE" + (" " + k2)));
        fd.Print(" ", "SCALE" + (" " + k2));
        fd.Print("SCALE", " " + k2);
        fd.Print(" ", k2);
        fd.Print(Format(x), k1);
    }
    WriteGroup(fd, g, k);
  }

  method WriteAssignmentLine(fd: Output, name: string, atype: string, ghost k: string)
    modifies fd
    ensures fd.text + k == old(fd.text) + (" " + ("ASSIGNMENT" + (" " + (name + (" " + (atype + ("\n" + k)))))))
  {
    ghost var k1 := atype + ("\n" + k);
    fd.Print(" ", "ASSIGNMENT" + (" " + (name + (" " + k1))));
    fd.Print("ASSIGNMENT", " " + (name + (" " + k1)));
    fd.Print(" ", name + (" " + k1));
    fd.Print(name, " " + k1);
    fd.Print(" ", k1);
    fd.Print(atype, "\n" + k);
    fd.Print("\n", k);
  }

  method WriteAssignment(fd: Output, a: Assignment, ghost k: string)
    modifies fd
    ensures fd.text + k == old(fd.text) + PutAssignment(false, a, k)
  {
    hide Format, PutNorm;
    ghost var k2 := PutMax(a.max, k);
    ghost var k1 := PutNorm(false, a.norm, a.group, k2);
    WriteAssignmentLine(fd, a.name, a.atype, PutWeight(a.weighting, k1));
    if a.weighting.Weight? { WriteOption(fd, "WEIGHT", a.weighting.weight, k1); }
    WriteNorm(fd, a.norm, a.group, k2);
    if a.max != 0 { WriteOption(fd, "MAXIMUM", a.max, k); }
  }

  method WriteAssignments(fd: Output, asgts: seq<Assignment>, ghost k: string)
    modifies fd
    ensures fd.text + k == old(fd.text) + PutAssignments(false, asgts, k)
  {
    hide PutAssignment;
    var i := 0;
    while i < |asgts|
      invariant i <= |asgts|
      invariant fd.text + PutAssignments(false, asgts[i..], k) == old(fd.text) + PutAssignments(false, asgts, k)
    {
      assert asgts[i..][1..] == asgts[i+1..] && asgts[i..][0] == asgts[i];
      WriteAssignment(fd, asgts[i], PutAssignments(false, asgts[i+1..], k));
      i := i + 1;
    }
  }

  method WriteCourse(fd: Output, c: Course)
    requires AllScored(c)
    modifies fd
    ensures fd.text == old(fd.text) + CourseText(false, c)
  {
    hide PutPerson, PutAssignments, PutSections, Scored;
    ghost var k3 := PutSections(c.sections, c.assignments, "");
    ghost var k2 := PutAssignments(false, c.assignments, k3);
    ghost var k1 := c.title + ("\n" + PutPerson("PROFESSOR", c.professor, k2));
    fd.Print("COURSE", " " + (c.number + (" " + k1)));
    fd.Print(" ", c.number + (" " + k1));
    fd.Print(c.number, " " + k1);
    fd.Print(" ", k1);
    fd.Print(c.title, "\n" + PutPerson("PROFESSOR", c.professor, k2));
    fd.Print("\n", PutPerson("PROFESSOR", c.professor, k2));
    WritePerson(fd, "PROFESSOR", c.professor, k2);
    WriteAssignments(fd, c.assignments, k3);
    WriteSections(fd, c.sections, c.assignments, "");
    assert fd.text + "" == fd.text;
  }
}
