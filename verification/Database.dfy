/**
 * The grade database as a value, and the text hw2/src/write.c prints for it. Fields that the policy of an
 * assignment or the kind of a grade leaves without meaning are not represented; numbers are in millionths.
 */
module Database {
  import opened Options
  import opened Numbers

  datatype Person = Person(surname: string, name: string)

  datatype Weighting = NoWeight | Weight(weight: int)
  datatype Norm = Raw | Linear(mean: int, stddev: int) | Quantile | Scale(scale: int)
  datatype Group = ByClass | BySection

  datatype Assignment = Assignment(name: string, atype: string, weighting: Weighting,
                        norm: Norm, group: Group, max: int)

  datatype Grade =
    | Valid(grade: int)
    | UseRaw(grade: int, code: string)
    | UseNorm(qnorm: int, lnorm: int, snorm: int, code: string)
    | UseLikeAvg(code: string)
    | UseClassAvg(code: string)

  /** A score is for the assignment at position `asgt` of the course. */
  datatype Score = Score(asgt: nat, grade: Grade)

  datatype Student = Student(id: string, surname: string, name: string, scores: seq<Score>)
  datatype Section = Section(name: string, assistant: Option<Person>, roster: seq<Student>)
  datatype Course = Course(number: string, title: string, professor: Option<Person>,
                           assignments: seq<Assignment>, sections: seq<Section>)

  // Each function below is the text of its subject followed by k.

  function PutPerson(keyword: string, p: Option<Person>, k: string): string
  {
    match p
    case None => k
    case Some(q) => " " + (keyword + (" " + (q.surname + (", " + (q.name + ("\n" + k))))))
  }

  function PutWeight(w: Weighting, k: string): string
  {
    match w
    case NoWeight => k
    case Weight(x) => "  " + ("WEIGHT" + (" " + (Format(x) + ("\n" + k))))
  }

  function PutGroup(g: Group, k: string): string
  {
    " " + ((if g.ByClass? then "BYCLASS" else "BYSECTION") + ("\n" + k))
  }

  /**
   * The program prints a LINEAR policy under a keyword that the reader does not know; `known` stands for a writer that
   * prints the one that the reader knows.
   */
  function LinearKeyword(known: bool): string
  {
    if known then "GENLINEAR" else "LINEAR"
  }

  function PutNorm(known: bool, n: Norm, g: Group, k: string): string
  {
    match n
    case Raw => k
    case Linear(mean, stddev) =>
      "  " + ("NORMALIZE" + (" " + (LinearKeyword(known) +
        (": " + (Format(mean) + (", " + (Format(stddev) + PutGroup(g, k))))))))
    case Quantile => "  " + ("NORMALIZE" + (" " + ("QUANTILE" + PutGroup(g, k))))
    case Scale(x) => "  " + ("NORMALIZE" + (" " + ("SCALE" + (" " + (Format(x) + PutGroup(g, k))))))
  }

  function PutMax(max: int, k: string): string
  {
    if max == 0 then k else "  " + ("MAXIMUM" + (" " + (Format(max) + ("\n" + k))))
  }

  function PutAssignment(known: bool, a: Assignment, k: string): string
  {
    " " + ("ASSIGNMENT" + (" " + (a.name + (" " + (a.atype + ("\n" +
      PutWeight(a.weighting, PutNorm(known, a.norm, a.group, PutMax(a.max, k)))))))))
  }

  function PutAssignments(known: bool, s: seq<Assignment>, k: string): string
  {
    if s == [] then k else PutAssignment(known, s[0], PutAssignments(known, s[1..], k))
  }

  /** The case for USENORM falls through to the one for USELIKEAVG. */
  function PutGrade(g: Grade, norm: Norm, k: string): string
  {
    match g
    case Valid(x) => " " + (Format(x) + ("\n" + k))
    case UseRaw(x, code) => " " + ("USERAW" + (" " + (Format(x) + PutCode(code, k))))
    case UseNorm(q, l, s, code) =>
      (match norm
       case Raw => PutLikeAvg(code, k)
       case Linear(_, _) => " " + ("USENORM" + (" " + (Format(l) + PutLikeAvg(code, k))))
       case Quantile => " " + ("USENORM" + (" " + (Format(q) + PutLikeAvg(code, k))))
       case Scale(_) => " " + ("USENORM" + (" " + (Format(s) + PutLikeAvg(code, k)))))
    case UseLikeAvg(code) => PutLikeAvg(code, k)
    case UseClassAvg(code) => " " + ("USECLASSAVG" + PutCode(code, k))
  }

  function PutLikeAvg(code: string, k: string): string
  {
    " " + ("USELIKEAVG" + PutCode(code, k))
  }

  function PutCode(code: string, k: string): string
  {
    " " + (code + ("\n" + k))
  }

  function PutScores(s: seq<Score>, asgts: seq<Assignment>, k: string): string
    requires forall x | x in s :: x.asgt < |asgts|
  {
    if s == [] then k
    else
      "   " + ("SCORE" + (" " + (asgts[s[0].asgt].name +
        PutGrade(s[0].grade, asgts[s[0].asgt].norm, PutScores(s[1..], asgts, k)))))
  }

  /** Every score is for an assignment of the course. */
  predicate Scored(s: Student, asgts: seq<Assignment>)
  {
    forall x | x in s.scores :: x.asgt < |asgts|
  }

  function PutStudentLine(s: Student, x: string): string
  {
    "  " + ("STUDENT" + (" " + (s.id + (" " + (s.surname + (", " + (s.name + ("\n" + x))))))))
  }

  function PutStudents(s: seq<Student>, asgts: seq<Assignment>, k: string): string
    requires forall x | x in s :: Scored(x, asgts)
  {
    if s == [] then k
    else
      assert Scored(s[0], asgts);
      PutStudentLine(s[0], PutScores(s[0].scores, asgts, PutStudents(s[1..], asgts, k)))
  }

  function PutSectionLine(name: string, x: string): string
  {
    " " + ("SECTION" + (" " + (name + ("\n" + x))))
  }

  function PutSections(s: seq<Section>, asgts: seq<Assignment>, k: string): string
    requires forall x, y | x in s && y in x.roster :: Scored(y, asgts)
  {
    if s == [] then k
    else
      PutSectionLine(s[0].name,
        PutPerson("ASSISTANT", s[0].assistant, PutStudents(s[0].roster, asgts, PutSections(s[1..], asgts, k))))
  }

  predicate AllScored(c: Course)
  {
    forall x, y | x in c.sections && y in x.roster :: Scored(y, c.assignments)
  }

  function CourseText(known: bool, c: Course): string
    requires AllScored(c)
  {
    "COURSE" + (" " + (c.number + (" " + (c.title + ("\n" +
      PutPerson("PROFESSOR", c.professor,
        PutAssignments(known, c.assignments, PutSections(c.sections, c.assignments, ""))))))))
  }
}
