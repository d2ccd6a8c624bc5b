/**
 * What the reader can yield: errors are never uncounted, and from any text at all an error-free read yields a course
 * whose strings are words and lines and whose scores are for the first assignment of their name.
 */
module Yields {
  import opened Options
  import opened Numbers
  import opened Tokens
  import opened TokenText
  import opened Database
  import opened Reader
  import opened Survival

  /** Between reading steps the token buffer holds a word or nothing. */
  predicate Sound(st: In)
  {
    st.tok.Some? ==> IsWord(st.tok.value)
  }

  predicate Follows(st: In, st': In)
  {
    Sound(st') && st.errors <= st'.errors
  }

  lemma {:induction false} SkipBlankStart(s: string)
    ensures SkipBlank(s) != "" ==> !IsWhitespace(SkipBlank(s)[0])
  {
    if s != "" && IsWhitespace(s[0]) { SkipBlankStart(s[1..]); }
  }

  lemma {:induction false} WordChars(s: string)
    ensures forall c | c in Word(s) :: !IsWhitespace(c) && c != '\n'
  {
    if s != "" && !IsWhitespace(s[0]) && s[0] != '\n' { WordChars(s[1..]); }
  }

  lemma {:induction false} LineChars(s: string)
    ensures forall c | c in Line(s) :: c != '\n'
    ensures Line(s) != "" ==> s != "" && Line(s)[0] == s[0]
  {
    if s != "" && s[0] != '\n' { LineChars(s[1..]); }
  }

  lemma AdvanceFollows(st: In)
    ensures Follows(st, AdvanceToken(st))
  {
    WordChars(SkipBlank(st.rest));
  }

  lemma LookFollows(st: In)
    requires Sound(st)
    ensures Follows(st, Look(st))
  {
    AdvanceFollows(st);
  }

  lemma CheckFollows(st: In, key: string)
    requires Sound(st)
    ensures Follows(st, CheckToken(st, key).1)
  {
    LookFollows(st);
  }

  lemma ReadWordYields(st: In)
    requires Sound(st)
    ensures var (w, st') := ReadWord(st); Follows(st, st') && (st'.errors == st.errors ==> IsWord(w))
  {
    hide AdvanceToken;
    LookFollows(st);
  }

  lemma {:induction false} BlankLinesFollow(st: In)
    ensures var r := GobbleBlankLines(st); r.Got? ==> r.st.errors == st.errors && r.st.tok == st.tok
    decreases |st.rest|
  {
    if st.tok.None? && st.rest != "" {
      var l := Line(st.rest);
      if st.rest[0] == '#' {
        if |l| != |st.rest| { BlankLinesFollow(st.(rest := st.rest[|l|+1..])); }
      } else if st.rest[0] == '\n' {
        BlankLinesFollow(st.(rest := SkipBlank(st.rest[1..])));
      }
    }
  }

  lemma NewlineFollows(st: In)
    requires Sound(st)
    ensures var r := ExpectNewline(st); r.Got? ==> Follows(st, r.st)
  {
    hide GobbleBlankLines, SkipBlank, Line;
    var st1 := GobbleWhitespace(st);
    var r := NextChar(st1);
    if st.tok.Some? {
      assert st.tok.value[0] in st.tok.value;
    } else if r.Got? && r.value == '\n' {
      BlankLinesFollow(r.st);
    }
  }

  lemma EolYields(st: In)
    ensures var r := AdvanceEol(st); r.Got? ==> IsLine(r.st.tok.value) && st.errors <= r.st.errors
  {
    SkipBlankStart(st.rest);
    LineChars(SkipBlank(st.rest));
  }

  lemma ReadNameYields(st: In)
    ensures var r := ReadName(st); r.Got? ==> Follows(st, r.st) && IsLine(r.value)
  {
    hide AdvanceEol, ExpectNewline, IsLine;
    EolYields(st);
    var r := AdvanceEol(st);
    if r.Got? { NewlineFollows(r.st.Flush()); }
  }

  lemma TakeNumberFollows(st: In)
    requires Sound(st)
    ensures Follows(st, TakeNumber(st).1)
  {
    hide Scan;
  }

  lemma ReadNumberFollows(st: In, default: int)
    ensures Follows(st, ReadNumber(st, default).1)
  {
    hide AdvanceToken, TakeNumber;
    AdvanceFollows(st);
    TakeNumberFollows(AdvanceToken(st));
  }

  lemma ReadGradeNumberFollows(st: In)
    requires Sound(st)
    ensures Follows(st, ReadGradeNumber(st).1)
  {
    hide Look, TakeNumber;
    LookFollows(st);
    TakeNumberFollows(Look(st));
  }

  lemma ReadPersonYields(keyword: string, st: In)
    requires Sound(st)
    ensures var r := ReadPerson(keyword, st);
      r.Got? ==> Follows(st, r.st) && (r.st.errors == st.errors ==> WellPerson(r.value))
  {
    hide CheckToken, ReadWord, ReadName, IsLine, IsWord;
    var st1 := CheckToken(st, keyword).1;
    CheckFollows(st, keyword);
    ReadWordYields(st1);
    ReadNameYields(ReadWord(st1).1);
  }

  lemma ReadWeightFollows(st: In)
    ensures Follows(st, ReadWeight(st).1)
  {
    hide AdvanceToken, TakeNumber;
    AdvanceFollows(st);
    TakeNumberFollows(AdvanceToken(st));
  }

  lemma {:induction false} ReadNormWordsFollow(norm: Norm, group: Group, st: In)
    requires Sound(st)
    ensures Follows(st, ReadNormWords(norm, group, st).3)
    decreases st.Left()
  {
    hide CheckToken, ReadNumber, Sound;
    var (raw, st1) := CheckToken(st, "RAW");
    CheckFollows(st, "RAW");
    if raw { ReadNormWordsFollow(Raw, group, st1); return; }
    var (std, st2) := CheckToken(st1, "STDLINEAR");
    CheckFollows(st1, "STDLINEAR");
    if std { ReadNormWordsFollow(Linear(0, MILLION), group, st2); return; }
    var (gen, st3) := CheckToken(st2, "GENLINEAR");
    CheckFollows(st2, "GENLINEAR");
    if gen {
      var (mean, st4) := ReadNumber(st3, 0);
      ReadNumberFollows(st3, 0);
      var (stddev, st5) := ReadNumber(st4, MILLION);
      ReadNumberFollows(st4, MILLION);
      ReadNormWordsFollow(Linear(mean, stddev), group, st5);
      return;
    }
    var (quantile, st4) := CheckToken(st3, "QUANTILE");
    CheckFollows(st3, "QUANTILE");
    if quantile { ReadNormWordsFollow(Quantile, group, st4); return; }
    var (scale, st5) := CheckToken(st4, "SCALE");
    CheckFollows(st4, "SCALE");
    if scale {
      var (x, st6) := ReadNumber(st5, 0);
      ReadNumberFollows(st5, 0);
      ReadNormWordsFollow(Scale(x), group, st6);
      return;
    }
    var (byclass, st6) := CheckToken(st5, "BYCLASS");
    CheckFollows(st5, "BYCLASS");
    if byclass { ReadNormWordsFollow(norm, ByClass, st6); return; }
    var (bysection, st7) := CheckToken(st6, "BYSECTION");
    CheckFollows(st6, "BYSECTION");
    if bysection { ReadNormWordsFollow(norm, BySection, st7); }
  }

  lemma ReadNormFollows(norm: Norm, group: Group, st: In)
    requires Sound(st)
    ensures Follows(st, ReadNorm(norm, group, st).2)
  {
    hide ReadNormWords;
    ReadNormWordsFollow(norm, group, st);
  }

  /** The optional lines leave the name and type of an assignment alone. */
  lemma {:induction false} ReadOptionsYields(a: Assignment, st: In)
    requires Sound(st)
    ensures var r := ReadOptions(a, st);
      r.Got? ==> Follows(st, r.st) && r.value.name == a.name && r.value.atype == a.atype
    decreases st.Left()
  {
    hide CheckToken, ReadWeight, ReadNorm, ReadMax, ExpectNewline, Sound;
    var (weight, st1) := CheckToken(st, "WEIGHT");
    CheckFollows(st, "WEIGHT");
    if weight {
      var (w, st2) := ReadWeight(st1);
      ReadWeightFollows(st1);
      OptionLineYields(a.(weighting := if w.Weight? then w else NoWeight), st, st2);
      return;
    }
    var (normalize, st2) := CheckToken(st1, "NORMALIZE");
    CheckFollows(st1, "NORMALIZE");
    if normalize {
      var (n, g, st3) := ReadNorm(a.norm, a.group, st2);
      ReadNormFollows(a.norm, a.group, st2);
      OptionLineYields(a.(norm := n, group := g), st, st3);
      return;
    }
    var (maximum, st3) := CheckToken(st2, "MAXIMUM");
    CheckFollows(st2, "MAXIMUM");
    if maximum {
      var (max, st4) := ReadMax(a.max, st3);
      ReadMaxFollows(a.max, st3);
      OptionLineYields(a.(max := max), st, st4);
    }
  }

  lemma ReadMaxFollows(max: int, st: In)
    ensures Follows(st, ReadMax(max, st).1)
  {
    hide ReadNumber;
    ReadNumberFollows(st, max);
  }

  lemma {:induction false} OptionLineYields(a: Assignment, st: In, st1: In)
    requires Follows(st, st1) && st1.Left() < st.Left()
    ensures var l := ExpectNewline(st1);
      l.Got? ==> var r := ReadOptions(a, l.st);
        r.Got? ==> Follows(st, r.st) && r.value.name == a.name && r.value.atype == a.atype
    decreases st.Left(), 0
  {
    hide ReadOptions, ExpectNewline;
    NewlineFollows(st1);
    var l := ExpectNewline(st1);
    if l.Got? { ReadOptionsYields(a, l.st); }
  }

  lemma {:induction false} ReadAssignmentsYields(st: In)
    requires Sound(st)
    ensures var r := ReadAssignments(st);
      r.Got? ==> Follows(st, r.st) && (r.st.errors == st.errors ==> forall a | a in r.value :: WellAssignment(a))
    decreases st.Left()
  {
    hide CheckToken, ReadWord, ReadOptions, ExpectNewline, Sound, IsWord;
    var (found, st1) := CheckToken(st, "ASSIGNMENT");
    CheckFollows(st, "ASSIGNMENT");
    if found {
      var (name, st2) := ReadWord(st1);
      ReadWordYields(st1);
      var (atype, st3) := ReadWord(st2);
      ReadWordYields(st2);
      var r4 := ExpectNewline(st3);
      NewlineFollows(st3);
      if r4.Got? {
        var r5 := ReadOptions(Assignment(name, atype, NoWeight, Raw, ByClass, 0), r4.st);
        ReadOptionsYields(Assignment(name, atype, NoWeight, Raw, ByClass, 0), r4.st);
        if r5.Got? { ReadAssignmentsYields(r5.st); }
      }
    }
  }

  lemma ReadNormScoreFollows(norm: Norm, st: In)
    requires Sound(st)
    ensures Follows(st, ReadNormScore(norm, st).1)
  {
    hide Look, TakeNumber, NormInRange;
    LookFollows(st);
    TakeNumberFollows(Look(st));
  }

  lemma ReadCodeYields(st: In)
    ensures var r := ReadCode(st); r.Got? ==> Follows(st, r.st) && IsLine(r.value)
  {
    hide AdvanceEol, IsLine;
    EolYields(st);
  }

  lemma ReadGradeYields(norm: Norm, st: In)
    requires Sound(st)
    ensures var r := ReadGrade(norm, st); r.Got? ==> Follows(st, r.st) && WellGrade(r.value)
  {
    hide CheckToken, ReadGradeNumber, ReadNormScore, ReadCode, IsLine, Sound;
    var (useraw, st1) := CheckToken(st, "USERAW");
    CheckFollows(st, "USERAW");
    if useraw {
      ReadGradeNumberFollows(st1);
      ReadCodeYields(ReadGradeNumber(st1).1);
      return;
    }
    var (usenorm, st2) := CheckToken(st1, "USENORM");
    CheckFollows(st1, "USENORM");
    if usenorm {
      ReadNormScoreFollows(norm, st2);
      ReadCodeYields(ReadNormScore(norm, st2).1);
      return;
    }
    var (uselikeavg, st3) := CheckToken(st2, "USELIKEAVG");
    CheckFollows(st2, "USELIKEAVG");
    if uselikeavg { ReadCodeYields(st3); return; }
    var (useclassavg, st4) := CheckToken(st3, "USECLASSAVG");
    CheckFollows(st3, "USECLASSAVG");
    if useclassavg { ReadCodeYields(st4); return; }
    ReadGradeNumberFollows(st4);
  }

  /** A score the reader can yield: for the first assignment of its name. */
  predicate YieldedScore(x: Score, asgts: seq<Assignment>)
  {
    x.asgt < |asgts| && WellGrade(x.grade) && First(asgts, x.asgt) == x.asgt
  }

  lemma {:induction false} ReadScoresYields(asgts: seq<Assignment>, st: In)
    requires Sound(st)
    ensures var r := ReadScores(asgts, st);
      r.Got? ==> Follows(st, r.st) && forall x | x in r.value :: YieldedScore(x, asgts)
    decreases st.Left()
  {
    hide CheckToken, Look, ReadGrade, ExpectNewline, Sound, WellGrade;
    var (found, st1) := CheckToken(st, "SCORE");
    CheckFollows(st, "SCORE");
    if found {
      var st2 := Look(st1);
      LookFollows(st1);
      if st2.tok.Some? {
        var i := Find(asgts, st2.tok.value);
        if i.Some? {
          var r3 := ReadGrade(asgts[i.value].norm, st2.Flush());
          FlushSound(st2);
          ReadGradeYields(asgts[i.value].norm, st2.Flush());
          if r3.Got? {
            var r4 := ExpectNewline(r3.st);
            NewlineFollows(r3.st);
            if r4.Got? { ReadScoresYields(asgts, r4.st); }
          }
        }
      }
    }
  }

  lemma FlushSound(st: In)
    ensures Sound(st.Flush())
  {
  }

  predicate YieldedStudent(s: Student, asgts: seq<Assignment>)
  {
    forall x | x in s.scores :: YieldedScore(x, asgts)
  }

  lemma {:induction false} ReadStudentsYields(asgts: seq<Assignment>, st: In)
    requires Sound(st)
    ensures var r := ReadStudents(asgts, st);
      r.Got? ==>
        && Follows(st, r.st)
        && (forall x | x in r.value :: YieldedStudent(x, asgts))
        && (r.st.errors == st.errors ==> forall x | x in r.value :: WellStudent(x, asgts))
    decreases st.Left()
  {
    hide CheckToken, ReadWord, ReadName, ReadScores, Sound, IsWord, IsLine, WellGrade, First;
    var (found, st1) := CheckToken(st, "STUDENT");
    CheckFollows(st, "STUDENT");
    if found {
      var st2 := ReadWord(st1).1;
      ReadWordYields(st1);
      var st3 := ReadWord(st2).1;
      ReadWordYields(st2);
      var r4 := ReadName(st3);
      ReadNameYields(st3);
      if r4.Got? {
        var r5 := ReadScores(asgts, r4.st);
        ReadScoresYields(asgts, r4.st);
        if r5.Got? { ReadStudentsYields(asgts, r5.st); }
      }
    }
  }

  predicate YieldedSection(s: Section, asgts: seq<Assignment>)
  {
    forall x | x in s.roster :: YieldedStudent(x, asgts)
  }

  lemma {:induction false} ReadSectionsYields(asgts: seq<Assignment>, st: In)
    requires Sound(st)
    ensures var r := ReadSections(asgts, st);
      r.Got? ==>
        && Follows(st, r.st)
        && (forall x | x in r.value :: YieldedSection(x, asgts))
        && (r.st.errors == st.errors ==> forall x | x in r.value :: WellSection(x, asgts))
    decreases st.Left()
  {
    hide CheckToken, Look, ReadPerson, ReadName, ReadStudents, Sound, WellPerson, IsLine, WellStudent, YieldedStudent;
    var st1 := Look(st);
    LookFollows(st);
    if st1.tok.Some? {
      var (file, st2) := CheckToken(st1, "FILE");
      CheckFollows(st1, "FILE");
      var (found, st3) := CheckToken(st2, "SECTION");
      CheckFollows(st2, "SECTION");
      if !file && found {
        var r4 := ReadName(st3);
        ReadNameYields(st3);
        if r4.Got? {
          var r5 := ReadPerson("ASSISTANT", r4.st);
          ReadPersonYields("ASSISTANT", r4.st);
          if r5.Got? {
            var r6 := ReadStudents(asgts, r5.st);
            ReadStudentsYields(asgts, r5.st);
            if r6.Got? { ReadSectionsYields(asgts, r6.st); }
          }
        }
      }
    }
  }

  predicate Yielded(c: Course)
  {
    forall s | s in c.sections :: YieldedSection(s, c.assignments)
  }

  lemma ReadCourseYields(st: In)
    requires Sound(st)
    ensures var r := ReadCourse(st);
      r.Got? ==> Follows(st, r.st) && Yielded(r.value) && (r.st.errors == st.errors ==> WellWritten(r.value))
  {
    hide ExpectToken, ReadWord, ReadName, ReadPerson, ReadAssignments, ReadSections, Sound, WellPerson, IsWord, IsLine,
      WellAssignment, WellSection, YieldedSection;
    var st1 := ExpectToken(st, "COURSE");
    ExpectFollows(st, "COURSE");
    var st2 := ReadWord(st1).1;
    ReadWordYields(st1);
    var r3 := ReadName(st2);
    ReadNameYields(st2);
    if r3.Got? {
      var r4 := ReadPerson("PROFESSOR", r3.st);
      ReadPersonYields("PROFESSOR", r3.st);
      if r4.Got? {
        var r5 := ReadAssignments(r4.st);
        ReadAssignmentsYields(r4.st);
        if r5.Got? { ReadSectionsYields(r5.value, r5.st); }
      }
    }
  }

  lemma ExpectFollows(st: In, key: string)
    requires Sound(st)
    ensures Follows(st, ExpectToken(st, key))
  {
    LookFollows(st);
  }

  /**
   * From any text: every score is for the first assignment of its name, and without errors every string is well
   * formed.
   */
  lemma ReadFileYields(text: string)
    ensures var r := ReadFile(text);
      r.Got? ==> Yielded(r.value) && (r.st.errors == 0 ==> WellWritten(r.value))
  {
    hide ReadCourse, GobbleBlankLines, WellWritten, Yielded;
    var r1 := GobbleBlankLines(In(text, None, 0));
    BlankLinesFollow(In(text, None, 0));
    if r1.Got? {
      ReadCourseYields(r1.st);
      var r2 := ReadCourse(r1.st);
      if r2.Got? { BlankLinesFollow(r2.st); }
    }
  }
}
