/** hw2/src/write.c: the lines of a database file, each as its format string prints it. */
module FileFormat {
  import opened Options
  import opened Numbers
  import opened Database

  lemma Regroup(a: string, b: string, c: string)
    ensures a + (b + c) == (a + b) + c
  {
  }

  /** A line of two fields. */
  lemma TwoFields(key: string, a: string, sep: string, b: string, k: string)
    ensures key + (a + (sep + (b + ("\n" + k)))) == (key + a + sep + b + "\n") + k
  {
    Regroup(b, "\n", k);
    Regroup(sep, b + "\n", k);
    Regroup(a, sep + (b + "\n"), k);
    Regroup(key, a + (sep + (b + "\n")), k);
    assert key + (a + (sep + (b + "\n"))) == key + a + sep + b + "\n";
  }

  lemma OneField(key: string, a: string, k: string)
    ensures key + (a + ("\n" + k)) == (key + a + "\n") + k
  {
    Regroup(a, "\n", k);
    Regroup(key, a + "\n", k);
    assert key + (a + "\n") == key + a + "\n";
  }

  /** A keyword with a blank on either side. */
  lemma Keyword(before: string, key: string, after: string, x: string)
    ensures before + (key + (after + x)) == (before + key + after) + x
  {
    Regroup(key, after, x);
    Regroup(before, key + after, x);
  }

  lemma CourseLines(c: Course)
    requires AllScored(c)
    ensures CourseText(false, c) == ("COURSE " + c.number + " " + c.title + "\n") +
      PutPerson("PROFESSOR", c.professor,
        PutAssignments(false, c.assignments, PutSections(c.sections, c.assignments, "")))
  {
    hide PutPerson, PutAssignments, PutSections;
    var k := PutPerson("PROFESSOR", c.professor,
      PutAssignments(false, c.assignments, PutSections(c.sections, c.assignments, "")));
    var x := c.number + (" " + (c.title + ("\n" + k)));
    Keyword("", "COURSE", " ", x);
    assert "" + ("COURSE" + (" " + x)) == "COURSE" + (" " + x) && "" + "COURSE" + " " == "COURSE ";
    TwoFields("COURSE ", c.number, " ", c.title, k);
  }

  lemma PersonLine(p: Person, k: string)
    ensures PutPerson("PROFESSOR", Some(p), k) == (" PROFESSOR " + p.surname + ", " + p.name + "\n") + k
    ensures PutPerson("ASSISTANT", Some(p), k) == (" ASSISTANT " + p.surname + ", " + p.name + "\n") + k
    ensures PutPerson("PROFESSOR", None, k) == PutPerson("ASSISTANT", None, k) == k
  {
    var x := p.surname + (", " + (p.name + ("\n" + k)));
    Keyword(" ", "PROFESSOR", " ", x);
    Keyword(" ", "ASSISTANT", " ", x);
    assert " " + "PROFESSOR" + " " == " PROFESSOR " && " " + "ASSISTANT" + " " == " ASSISTANT ";
    TwoFields(" PROFESSOR ", p.surname, ", ", p.name, k);
    TwoFields(" ASSISTANT ", p.surname, ", ", p.name, k);
  }

  lemma AssignmentLines(a: Assignment, k: string)
    ensures PutAssignment(false, a, k) == (" ASSIGNMENT " + a.name + " " + a.atype + "\n") +
      PutWeight(a.weighting, PutNorm(false, a.norm, a.group, PutMax(a.max, k)))
  {
    hide PutWeight, PutNorm, PutMax;
    var y := PutWeight(a.weighting, PutNorm(false, a.norm, a.group, PutMax(a.max, k)));
    Keyword(" ", "ASSIGNMENT", " ", a.name + (" " + (a.atype + ("\n" + y))));
    assert " " + "ASSIGNMENT" + " " == " ASSIGNMENT ";
    TwoFields(" ASSIGNMENT ", a.name, " ", a.atype, y);
  }

  lemma WeightLine(x: int, k: string)
    ensures PutWeight(Weight(x), k) == ("  WEIGHT " + Format(x) + "\n") + k
  {
    hide Format;
    Keyword("  ", "WEIGHT", " ", Format(x) + ("\n" + k));
    assert "  " + "WEIGHT" + " " == "  WEIGHT ";
    OneField("  WEIGHT ", Format(x), k);
  }

  /** A maximum of 0 is not printed. */
  lemma MaximumLine(max: int, k: string)
    ensures PutMax(max, k) == if max == 0 then k else ("  MAXIMUM " + Format(max) + "\n") + k
  {
    hide Format;
    Keyword("  ", "MAXIMUM", " ", Format(max) + ("\n" + k));
    assert "  " + "MAXIMUM" + " " == "  MAXIMUM ";
    OneField("  MAXIMUM ", Format(max), k);
  }

  lemma GroupWord(k: string)
    ensures PutGroup(ByClass, k) == " BYCLASS\n" + k && PutGroup(BySection, k) == " BYSECTION\n" + k
  {
    Keyword(" ", "BYCLASS", "\n", k);
    Keyword(" ", "BYSECTION", "\n", k);
    assert " " + "BYCLASS" + "\n" == " BYCLASS\n" && " " + "BYSECTION" + "\n" == " BYSECTION\n";
  }

  /** A RAW policy is not printed. */
  lemma NormalizeLine(mean: int, stddev: int, scale: int, g: Group, k: string)
    ensures PutNorm(false, Raw, g, k) == k
    ensures PutNorm(false, Quantile, g, k) == "  NORMALIZE QUANTILE" + PutGroup(g, k)
    ensures PutNorm(false, Scale(scale), g, k) == ("  NORMALIZE SCALE " + Format(scale)) + PutGroup(g, k)
    ensures PutNorm(false, Linear(mean, stddev), g, k) ==
      ("  NORMALIZE LINEAR: " + Format(mean) + ", " + Format(stddev)) + PutGroup(g, k)
  {
    hide Format, PutGroup;
    var y := PutGroup(g, k);
    Keyword("  ", "NORMALIZE", " ", "QUANTILE" + y);
    Regroup("  " + "NORMALIZE" + " ", "QUANTILE", y);
    assert "  " + "NORMALIZE" + " " + "QUANTILE" == "  NORMALIZE QUANTILE";
    Keyword("  ", "NORMALIZE", " ", "SCALE" + (" " + (Format(scale) + y)));
    Keyword("  " + "NORMALIZE" + " ", "SCALE", " ", Format(scale) + y);
    assert "  " + "NORMALIZE" + " " + "SCALE" + " " == "  NORMALIZE SCALE ";
    Regroup("  NORMALIZE SCALE ", Format(scale), y);
    LinearLine(mean, stddev, y);
  }

  lemma LinearLine(mean: int, stddev: int, y: string)
    ensures "  " + ("NORMALIZE" + (" " + ("LINEAR" + (": " + (Format(mean) + (", " + (Format(stddev) + y))))))) ==
      ("  NORMALIZE LINEAR: " + Format(mean) + ", " + Format(stddev)) + y
  {
    hide Format;
    var x := Format(mean) + (", " + (Format(stddev) + y));
    Keyword("  ", "NORMALIZE", " ", "LINEAR" + (": " + x));
    Keyword("  " + "NORMALIZE" + " ", "LINEAR", ": ", x);
    assert "  " + "NORMALIZE" + " " + "LINEAR" + ": " == "  NORMALIZE LINEAR: ";
    Keyword("  NORMALIZE LINEAR: ", Format(mean), ", ", Format(stddev) + y);
    Regroup("  NORMALIZE LINEAR: " + Format(mean) + ", ", Format(stddev), y);
  }

  lemma SectionLine(name: string, x: string)
    ensures PutSectionLine(name, x) == (" SECTION " + name + "\n") + x
  {
    Keyword(" ", "SECTION", " ", name + ("\n" + x));
    assert " " + "SECTION" + " " == " SECTION ";
    OneField(" SECTION ", name, x);
  }

  /** A section line is followed by the assistant, the students, and the other sections. */
  lemma SectionLines(s: seq<Section>, asgts: seq<Assignment>, k: string)
    requires s != [] && forall x, y | x in s && y in x.roster :: Scored(y, asgts)
    ensures PutSections(s, asgts, k) == (" SECTION " + s[0].name + "\n") +
      PutPerson("ASSISTANT", s[0].assistant, PutStudents(s[0].roster, asgts, PutSections(s[1..], asgts, k)))
  {
    hide PutPerson, PutStudents;
    SectionLine(s[0].name,
      PutPerson("ASSISTANT", s[0].assistant, PutStudents(s[0].roster, asgts, PutSections(s[1..], asgts, k))));
  }

  lemma StudentLine(s: Student, x: string)
    ensures PutStudentLine(s, x) == ("  STUDENT " + s.id + " " + s.surname + ", " + s.name + "\n") + x
  {
    var y := s.surname + (", " + (s.name + ("\n" + x)));
    Keyword("  ", "STUDENT", " ", s.id + (" " + y));
    assert "  " + "STUDENT" + " " == "  STUDENT ";
    Keyword("  STUDENT ", s.id, " ", y);
    TwoFields("  STUDENT " + s.id + " ", s.surname, ", ", s.name, x);
  }

  lemma ScoreStart(s: seq<Score>, asgts: seq<Assignment>, k: string)
    requires s != [] && forall x | x in s :: x.asgt < |asgts|
    ensures s[0].asgt < |asgts|
    ensures PutScores(s, asgts, k) == ("   SCORE " + asgts[s[0].asgt].name) +
      PutGrade(s[0].grade, asgts[s[0].asgt].norm, PutScores(s[1..], asgts, k))
  {
    hide PutGrade;
    assert s[0] in s;
    var name, y := asgts[s[0].asgt].name, PutGrade(s[0].grade, asgts[s[0].asgt].norm, PutScores(s[1..], asgts, k));
    Keyword("   ", "SCORE", " ", name + y);
    assert "   " + "SCORE" + " " == "   SCORE ";
    Regroup("   SCORE ", name, y);
  }

  lemma GradeFields(x: int, code: string, norm: Norm, k: string)
    ensures PutGrade(Valid(x), norm, k) == (" " + Format(x) + "\n") + k
    ensures PutGrade(UseRaw(x, code), norm, k) == (" USERAW " + Format(x) + " " + code + "\n") + k
    ensures PutGrade(UseLikeAvg(code), norm, k) == (" USELIKEAVG " + code + "\n") + k
    ensures PutGrade(UseClassAvg(code), norm, k) == (" USECLASSAVG " + code + "\n") + k
  {
    hide Format;
    OneField(" ", Format(x), k);
    Keyword(" ", "USERAW", " ", Format(x) + PutCode(code, k));
    assert " " + "USERAW" + " " == " USERAW ";
    TwoFields(" USERAW ", Format(x), " ", code, k);
    Keyword(" ", "USELIKEAVG", " ", code + ("\n" + k));
    assert " " + "USELIKEAVG" + " " == " USELIKEAVG ";
    OneField(" USELIKEAVG ", code, k);
    Keyword(" ", "USECLASSAVG", " ", code + ("\n" + k));
    assert " " + "USECLASSAVG" + " " == " USECLASSAVG ";
    OneField(" USECLASSAVG ", code, k);
  }

  /** A USENORM grade: the number that goes with the policy, if it has one, and the keyword of the next case. */
  lemma NormGrade(q: int, l: int, s: int, code: string, norm: Norm, k: string)
    ensures var y := (" USELIKEAVG " + code + "\n") + k;
      PutGrade(UseNorm(q, l, s, code), norm, k) ==
      if norm.Raw? then y
      else (" USENORM " + Format(if norm.Quantile? then q else if norm.Linear? then l else s)) + y
  {
    hide Format;
    Keyword(" ", "USELIKEAVG", " ", code + ("\n" + k));
    assert " " + "USELIKEAVG" + " " == " USELIKEAVG ";
    OneField(" USELIKEAVG ", code, k);
    var x := if norm.Quantile? then q else if norm.Linear? then l else s;
    var y := (" USELIKEAVG " + code + "\n") + k;
    Keyword(" ", "USENORM", " ", Format(x) + y);
    assert " " + "USENORM" + " " == " USENORM ";
    Regroup(" USENORM ", Format(x), y);
  }
}
