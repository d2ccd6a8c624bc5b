/** Reading printed persons, grades, scores and students. */
module RosterText {
  import opened Options
  import opened Numbers
  import opened Tokens
  import opened TokenText
  import opened Database
  import opened Reader
  import opened Survival
  import opened AssignmentText

  lemma PersonText(keyword: string, p: Option<Person>, k: string, e: nat)
    requires IsWord(keyword) && WellPerson(p) && IsClean(k) && NextWord(k) != keyword
    ensures ReadPerson(keyword, In(PutPerson(keyword, p, k), None, e)) ==
      (if p.None? then Got(None, Ahead(k, e)) else Got(p, In(k, None, e)))
    ensures ReadPerson(keyword, Ahead(PutPerson(keyword, p, k), e)) ==
      ReadPerson(keyword, In(PutPerson(keyword, p, k), None, e))
  {
    LookTwice(In(PutPerson(keyword, p, k), None, e));
    if p.None? {
      CheckMiss(k, keyword, e);
    } else {
      var q := p.value;
      CheckHit(" ", keyword, " " + (q.surname + (", " + (q.name + ("\n" + k)))), e);
      WordHit(" ", q.surname, ", " + (q.name + ("\n" + k)), e);
      NameHit(", ", q.name, k, e);
    }
  }

  lemma CodeText(code: string, k: string, e: nat)
    requires IsLine(code)
    ensures ReadCode(In(PutCode(code, k), None, e)) == Got(code, In("\n" + k, None, e))
  {
    EolHit(" ", code, k, e);
  }

  lemma LikeAvgLine(code: string)
    requires IsLine(code)
    ensures IsLine("USELIKEAVG" + (" " + code))
  {
  }

  /** A keyword for a substitution, followed by text x. */
  lemma GradeWord(key: string, x: string, e: nat)
    requires IsWord(key) && EndsWord(x)
    ensures Look(In(" " + (key + x), None, e)) == In(x, Some(key), e)
  {
    WordAhead(" ", key, x, e);
  }

  lemma NormScoreRest(x: int, y: string, seen: Norm, e: nat, e': nat)
    requires EndsWord(y) && e' == e + if NormInRange(x, seen) then 0 else 1
    ensures ReadNormScore(seen, In(" " + (Format(x) + y), None, e)) == (x, In(y, None, e'))
  {
    hide Format, NormInRange;
    NumberHit(" ", x, y, e);
  }

  lemma LikeAvgCode(code: string, k: string, e: nat)
    requires IsLine(code)
    ensures ReadCode(In(PutLikeAvg(code, k), None, e)) == Got("USELIKEAVG" + (" " + code), In("\n" + k, None, e))
  {
    hide IsLine;
    LikeAvgLine(code);
    var l := "USELIKEAVG" + (" " + code);
    EolHit(" ", l, k, e);
    Reassociate("USELIKEAVG", " ", code, "\n" + k);
  }

  lemma Reassociate(a: string, b: string, c: string, d: string)
    ensures (a + (b + c)) + d == a + (b + (c + d))
  {
  }

  /** The USENORM line of a policy that prints the number x: what follows it is read as the code. */
  lemma NormScoreText(x: int, code: string, seen: Norm, k: string, e: nat)
    requires IsLine(code)
    ensures ReadGrade(seen, In(" " + ("USENORM" + (" " + (Format(x) + PutLikeAvg(code, k)))), None, e)) ==
      Got(UseNorm(x, x, x, "USELIKEAVG" + (" " + code)),
          In("\n" + k, None, e + if NormInRange(x, seen) then 0 else 1))
  {
    GradeWord("USENORM", " " + (Format(x) + PutLikeAvg(code, k)), e);
    var e' := e + if NormInRange(x, seen) then 0 else 1;
    NormScoreRest(x, PutLikeAvg(code, k), seen, e, e');
    LikeAvgCode(code, k, e');
  }

  lemma LikeAvgText(code: string, seen: Norm, k: string, e: nat)
    requires IsLine(code)
    ensures ReadGrade(seen, In(PutLikeAvg(code, k), None, e)) == Got(UseLikeAvg(code), In("\n" + k, None, e))
  {
    GradeWord("USELIKEAVG", PutCode(code, k), e);
    CodeText(code, k, e);
  }

  lemma ValidText(x: int, seen: Norm, k: string, e: nat)
    ensures ReadGrade(seen, In(" " + (Format(x) + ("\n" + k)), None, e)) == Got(Valid(x), In("\n" + k, None, e))
  {
    FormatIsWord(x);
    FormatNotKeyword(x);
    GradeWord(Format(x), "\n" + k, e);
    NumberHit(" ", x, "\n" + k, e);
  }

  lemma FormatNotKeyword(x: int)
    ensures Format(x)[0] != 'U'
  {
    FormatChars(x);
    assert Format(x)[0] in Format(x);
  }

  lemma RawText(x: int, code: string, seen: Norm, k: string, e: nat)
    requires IsLine(code)
    ensures ReadGrade(seen, In(" " + ("USERAW" + (" " + (Format(x) + PutCode(code, k)))), None, e)) ==
      Got(UseRaw(x, code), In("\n" + k, None, e))
  {
    GradeWord("USERAW", " " + (Format(x) + PutCode(code, k)), e);
    NumberHit(" ", x, PutCode(code, k), e);
    CodeText(code, k, e);
  }

  lemma ClassAvgText(code: string, seen: Norm, k: string, e: nat)
    requires IsLine(code)
    ensures ReadGrade(seen, In(" " + ("USECLASSAVG" + PutCode(code, k)), None, e)) ==
      Got(UseClassAvg(code), In("\n" + k, None, e))
  {
    GradeWord("USECLASSAVG", PutCode(code, k), e);
    CodeText(code, k, e);
  }

  lemma GradeText(g: Grade, norm: Norm, seen: Norm, k: string, e: nat)
    requires WellGrade(g)
    ensures ReadGrade(seen, In(PutGrade(g, norm, k), None, e)) ==
      Got(RereadGrade(g, norm), In("\n" + k, None, e + GradeErrors(g, norm, seen)))
  {
    hide ReadGrade, PutCode, PutLikeAvg, Format;
    match g
    case Valid(x) => ValidText(x, seen, k, e);
    case UseRaw(x, code) => RawText(x, code, seen, k, e);
    case UseNorm(_, _, _, code) =>
      if norm.Raw? { LikeAvgText(code, seen, k, e); } else { NormScoreText(Printed(g, norm), code, seen, k, e); }
    case UseLikeAvg(code) => LikeAvgText(code, seen, k, e);
    case UseClassAvg(code) => ClassAvgText(code, seen, k, e);
  }

  lemma FindReread(known: bool, asgts: seq<Assignment>, name: string)
    ensures Find(RereadAssignments(known, asgts), name) == Find(asgts, name)
    decreases |asgts|
  {
    if asgts != [] { FindReread(known, asgts[1..], name); }
  }

  lemma ScoresNext(s: seq<Score>, asgts: seq<Assignment>, k: string)
    requires (forall x | x in s :: x.asgt < |asgts|) && IsClean(k)
    ensures IsClean(PutScores(s, asgts, k))
  {
  }

  /** One score, from what each part of its line yields. */
  lemma ScoreParts(asgts: seq<Assignment>, st0: In, name: string, x: string, e: nat, i: nat, g: Grade,
                   st3: In, st4: In, rest: seq<Score>, st: In)
    requires CheckToken(st0, "SCORE").0 && Look(CheckToken(st0, "SCORE").1) == In(x, Some(name), e)
    requires Find(asgts, name) == Some(i)
    requires ReadGrade(asgts[i].norm, In(x, None, e)) == Got(g, st3) && ExpectNewline(st3) == Got((), st4)
    requires ReadScores(asgts, st4) == Got(rest, st)
    ensures ReadScores(asgts, st0) == Got([Score(i, g)] + rest, st)
  {
    hide CheckToken, Look, ReadGrade, ExpectNewline, Find;
  }

  lemma ScoreHead(name: string, x: string, e: nat)
    requires IsWord(name) && EndsWord(x)
    ensures var (found, st) := CheckToken(In("   " + ("SCORE" + (" " + (name + x))), None, e), "SCORE");
      found && Look(st) == In(x, Some(name), e)
  {
    hide CheckToken, Look, IsWord, NextWord;
    KeywordsAreWords();
    CheckHit("   ", "SCORE", " " + (name + x), e);
    WordAhead(" ", name, x, e);
  }

  /** One SCORE line in front of text that reads as `rest`, in terms of the assignments the reader has. */
  lemma ScoreLine(name: string, norm: Norm, g: Grade, asgts: seq<Assignment>, i: nat, t: string, e: nat, e': nat,
                  rest: seq<Score>, st: In)
    requires IsWord(name) && WellGrade(g) && IsClean(t) && Find(asgts, name) == Some(i)
    requires e' == e + GradeErrors(g, norm, asgts[i].norm)
    requires ReadScores(asgts, In(t, None, e')) == Got(rest, st)
    ensures ReadScores(asgts, In("   " + ("SCORE" + (" " + (name + PutGrade(g, norm, t)))), None, e)) ==
      Got([Score(i, RereadGrade(g, norm))] + rest, st)
  {
    hide CheckToken, Look, ReadGrade, PutGrade, ExpectNewline, GradeErrors, RereadGrade;
    hide IsWord, IsLine, Find, WellGrade, ReadScores;
    var y := PutGrade(g, norm, t);
    GradeEnds(g, norm, t);
    ScoreHead(name, y, e);
    GradeText(g, norm, asgts[i].norm, t, e);
    NewlineHit(t, e');
    ScoreParts(asgts, In("   " + ("SCORE" + (" " + (name + y))), None, e), name, y, e, i,
      RereadGrade(g, norm), In("\n" + t, None, e'), In(t, None, e'), rest, st);
  }

  lemma KeywordsAreWords()
    ensures IsWord("SCORE") && IsBlank("   ") && IsBlank(" ")
  {
  }

  lemma GradeEnds(g: Grade, norm: Norm, t: string)
    ensures EndsWord(PutGrade(g, norm, t))
  {
  }

  lemma FirstReread(known: bool, asgts: seq<Assignment>, i: nat)
    requires i < |asgts|
    ensures RereadAssignments(known, asgts)[First(asgts, i)].norm == RereadNorm(known, asgts[First(asgts, i)].norm)
  {
  }

  lemma NoScores(asgts: seq<Assignment>, k: string, e: nat)
    requires NextWord(k) != "SCORE"
    ensures ReadScores(asgts, In(k, None, e)) == Got([], Ahead(k, e))
  {
    CheckMiss(k, "SCORE", e);
  }

  lemma {:induction false} ScoresText(known: bool, s: seq<Score>, asgts: seq<Assignment>, k: string, e: nat)
    requires (forall x | x in s :: x.asgt < |asgts| && WellGrade(x.grade))
    requires (forall a | a in asgts :: WellAssignment(a))
    requires IsClean(k) && NextWord(k) != "SCORE"
    ensures ReadScores(RereadAssignments(known, asgts), In(PutScores(s, asgts, k), None, e)) ==
      Got(RereadScores(s, asgts), Ahead(k, e + ScoreErrors(known, s, asgts)))
  {
    hide ReadScores, PutGrade, Look, NextWord, GradeErrors, RereadGrade, RereadNorm, RereadAssignments;
    if s == [] {
      NoScores(RereadAssignments(known, asgts), k, e);
    } else {
      var x := s[0];
      assert x in s && asgts[x.asgt] in asgts;
      ScoresNext(s[1..], asgts, k);
      var e' := e + GradeErrors(x.grade, asgts[x.asgt].norm, RereadNorm(known, asgts[First(asgts, x.asgt)].norm));
      ScoresText(known, s[1..], asgts, k, e');
      FindReread(known, asgts, asgts[x.asgt].name);
      FirstReread(known, asgts, x.asgt);
      ScoreLine(asgts[x.asgt].name, asgts[x.asgt].norm, x.grade, RereadAssignments(known, asgts), First(asgts, x.asgt),
        PutScores(s[1..], asgts, k), e, e', RereadScores(s[1..], asgts), Ahead(k, e + ScoreErrors(known, s, asgts)));
    }
  }

  // ----- students -----

  predicate AllWellStudents(s: seq<Student>, asgts: seq<Assignment>)
  {
    forall x | x in s :: WellStudent(x, asgts)
  }

  lemma StudentsLook(asgts: seq<Assignment>, st: In)
    ensures ReadStudents(asgts, Look(st)) == ReadStudents(asgts, st)
  {
    hide AdvanceToken;
    LookTwice(st);
  }

  lemma NoStudents(asgts: seq<Assignment>, k: string, e: nat)
    requires NextIn(k, {"SECTION", ""})
    ensures ReadStudents(asgts, In(k, None, e)) == Got([], Ahead(k, e))
  {
    CheckMiss(k, "STUDENT", e);
  }

  lemma StudentLineNext(s: Student, x: string)
    ensures NextIn(PutStudentLine(s, x), {"STUDENT", "SECTION", ""})
  {
    WordAhead("  ", "STUDENT", " " + (s.id + (" " + (s.surname + (", " + (s.name + ("\n" + x)))))), 0);
  }

  lemma StudentsNext(s: seq<Student>, asgts: seq<Assignment>, k: string)
    requires NextIn(k, {"SECTION", ""}) && forall x | x in s :: Scored(x, asgts)
    ensures NextIn(PutStudents(s, asgts, k), {"STUDENT", "SECTION", ""})
  {
    hide NextIn, NextWord;
    if s == [] {
      NextInMore(k);
    } else {
      assert Scored(s[0], asgts);
      StudentLineNext(s[0], PutScores(s[0].scores, asgts, PutStudents(s[1..], asgts, k)));
    }
  }

  lemma NextInMore(k: string)
    requires NextIn(k, {"SECTION", ""})
    ensures NextIn(k, {"STUDENT", "SECTION", ""})
  {
  }

  /** A STUDENT line in front of scores that read as `scores` and students that read as `rest`. */
  lemma StudentLine(s: Student, asgts: seq<Assignment>, x: string, e: nat, scores: seq<Score>, st1: In,
                    rest: seq<Student>, st: In)
    requires IsWord(s.id) && IsWord(s.surname) && IsLine(s.name) && IsClean(x)
    requires ReadScores(asgts, In(x, None, e)) == Got(scores, st1) && ReadStudents(asgts, st1) == Got(rest, st)
    ensures ReadStudents(asgts, In(PutStudentLine(s, x), None, e)) == Got([s.(scores := scores)] + rest, st)
  {
    hide CheckToken, ReadWord, ReadName, ReadScores, IsLine, NextWord, Look;
    CheckHit("  ", "STUDENT", " " + (s.id + (" " + (s.surname + (", " + (s.name + ("\n" + x)))))), e);
    WordHit(" ", s.id, " " + (s.surname + (", " + (s.name + ("\n" + x)))), e);
    WordHit(" ", s.surname, ", " + (s.name + ("\n" + x)), e);
    NameHit(", ", s.name, x, e);
  }

  lemma StudentStep(known: bool, s: Student, asgts: seq<Assignment>, t: string, e: nat, rest: seq<Student>, st: In)
    requires WellStudent(s, asgts) && (forall a | a in asgts :: WellAssignment(a))
    requires NextIn(t, {"STUDENT", "SECTION", ""})
    requires ReadStudents(RereadAssignments(known, asgts), In(t, None, e + ScoreErrors(known, s.scores, asgts))) ==
      Got(rest, st)
    ensures ReadStudents(RereadAssignments(known, asgts),
        In(PutStudentLine(s, PutScores(s.scores, asgts, t)), None, e)) ==
      Got([s.(scores := RereadScores(s.scores, asgts))] + rest, st)
  {
    hide ReadStudents, ReadScores, Look, NextWord, PutStudentLine, RereadAssignments, PutScores, IsWord, IsLine,
      RereadScores, ScoreErrors, WellGrade, WellAssignment;
    var e' := e + ScoreErrors(known, s.scores, asgts);
    ScoresNext(s.scores, asgts, t);
    ScoresText(known, s.scores, asgts, t, e);
    StudentsLook(RereadAssignments(known, asgts), In(t, None, e'));
    StudentLine(s, RereadAssignments(known, asgts), PutScores(s.scores, asgts, t), e,
                RereadScores(s.scores, asgts), Ahead(t, e'), rest, st);
  }

  lemma {:induction false} StudentsText(known: bool, s: seq<Student>, asgts: seq<Assignment>, k: string, e: nat)
    requires (forall x | x in s :: Scored(x, asgts)) && AllWellStudents(s, asgts)
    requires (forall a | a in asgts :: WellAssignment(a)) && NextIn(k, {"SECTION", ""})
    ensures ReadStudents(RereadAssignments(known, asgts), In(PutStudents(s, asgts, k), None, e)) ==
      Got(RereadStudents(s, asgts), Ahead(k, e + StudentErrors(known, s, asgts)))
  {
    hide ReadStudents, PutScores, Look, NextWord, ScoreErrors, RereadScores, RereadAssignments, NextIn, WellAssignment,
      WellStudent;
    if s == [] {
      NoStudents(RereadAssignments(known, asgts), k, e);
    } else {
      var x := s[0];
      assert x in s && Scored(x, asgts);
      assert forall y | y in s[1..] :: y in s;
      var e' := e + ScoreErrors(known, x.scores, asgts);
      StudentsNext(s[1..], asgts, k);
      StudentsText(known, s[1..], asgts, k, e');
      StudentStep(known, x, asgts, PutStudents(s[1..], asgts, k), e, RereadStudents(s[1..], asgts), Ahead(k,
        e + StudentErrors(known, s, asgts)));
    }
  }
}
