/** hw2/src/read.c: the recursive-descent reader of the grade database, over the states of Tokens. */
module Reader {
  import opened Options
  import opened Numbers
  import opened Tokens
  import opened Database

  /** The token in the buffer scanned as a number, and removed if it is one. */
  function TakeNumber(st: In): (r: (Option<int>, In))
    ensures r.1.Left() <= st.Left()
  {
    match st.tok
    case None => (None, st)
    case Some(t) =>
      match Scan(t)
      case None => (None, st)
      case Some(n) => (Some(n), st.Flush())
  }

  /** advancetoken and a number, `default` and an error if there is none. */
  function ReadNumber(st: In, default: int): (r: (int, In))
    ensures r.1.Left() <= st.Left()
  {
    var (n, st1) := TakeNumber(AdvanceToken(st));
    match n case Some(x) => (x, st1) case None => (default, st1.Error())
  }

  /** The same, but keeping a token that is there already. */
  function ReadGradeNumber(st: In): (r: (int, In))
    ensures r.1.Left() <= st.Left()
  {
    var (n, st1) := TakeNumber(Look(st));
    match n case Some(x) => (x, st1) case None => (0, st1.Error())
  }

  function ReadPerson(keyword: string, st: In): (r: Res<Option<Person>>)
    ensures r.Got? ==> r.st.Left() <= st.Left()
  {
    var (found, st1) := CheckToken(st, keyword);
    if !found then Got(None, st1)
    else
      var (surname, st2) := ReadWord(st1);
      var (name, st3) :- ReadName(st2);
      Got(Some(Person(surname, name)), st3)
  }

  function ReadWeight(st: In): (r: (Weighting, In))
    ensures r.1.Left() <= st.Left()
  {
    var (n, st1) := TakeNumber(AdvanceToken(st));
    match n case Some(x) => (Weight(x), st1) case None => (NoWeight, st1.Error())
  }

  function ReadMax(max: int, st: In): (r: (int, In))
    ensures r.1.Left() <= st.Left()
  {
    ReadNumber(st, max)
  }

  /** The words of a NORMALIZE line, from the policy and group so far. */
  function ReadNormWords(norm: Norm, group: Group, st: In): (r: (Norm, Group, bool, In))
    ensures r.3.Left() <= st.Left()
    decreases st.Left()
  {
    var (raw, st1) := CheckToken(st, "RAW");
    if raw then NormFound(ReadNormWords(Raw, group, st1)) else
    var (std, st2) := CheckToken(st1, "STDLINEAR");
    if std then NormFound(ReadNormWords(Linear(0, MILLION), group, st2)) else
    var (gen, st3) := CheckToken(st2, "GENLINEAR");
    if gen then
      var (mean, st4) := ReadNumber(st3, 0);
      var (stddev, st5) := ReadNumber(st4, MILLION);
      NormFound(ReadNormWords(Linear(mean, stddev), group, st5))
    else
    var (quantile, st4) := CheckToken(st3, "QUANTILE");
    if quantile then NormFound(ReadNormWords(Quantile, group, st4)) else
    var (scale, st5) := CheckToken(st4, "SCALE");
    if scale then
      var (x, st6) := ReadNumber(st5, 0);
      NormFound(ReadNormWords(Scale(x), group, st6))
    else
    var (byclass, st6) := CheckToken(st5, "BYCLASS");
    if byclass then NormFound(ReadNormWords(norm, ByClass, st6)) else
    var (bysection, st7) := CheckToken(st6, "BYSECTION");
    if bysection then NormFound(ReadNormWords(norm, BySection, st7)) else
    (norm, group, false, st7)
  }

  function NormFound(r: (Norm, Group, bool, In)): (Norm, Group, bool, In)
  {
    (r.0, r.1, true, r.3)
  }

  function ReadNorm(norm: Norm, group: Group, st: In): (r: (Norm, Group, In))
    ensures r.2.Left() <= st.Left()
  {
    var (n, g, found, st1) := ReadNormWords(norm, group, st);
    if found then (n, g, st1) else (Raw, ByClass, st1.Error())
  }

  /** The optional lines of an assignment. */
  function ReadOptions(a: Assignment, st: In): (r: Res<Assignment>)
    ensures r.Got? ==> r.st.Left() <= st.Left()
    decreases st.Left()
  {
    var (weight, st1) := CheckToken(st, "WEIGHT");
    if weight then
      var (w, st2) := ReadWeight(st1);
      var a' := if w.Weight? then a.(weighting := w) else a.(weighting := NoWeight);
      var (_, st3) :- ExpectNewline(st2);
      ReadOptions(a', st3)
    else
    var (normalize, st2) := CheckToken(st1, "NORMALIZE");
    if normalize then
      var (n, g, st3) := ReadNorm(a.norm, a.group, st2);
      var (_, st4) :- ExpectNewline(st3);
      ReadOptions(a.(norm := n, group := g), st4)
    else
    var (maximum, st3) := CheckToken(st2, "MAXIMUM");
    if maximum then
      var (max, st4) := ReadMax(a.max, st3);
      var (_, st5) :- ExpectNewline(st4);
      ReadOptions(a.(max := max), st5)
    else
    Got(a, st3)
  }

  function ReadAssignments(st: In): (r: Res<seq<Assignment>>)
    ensures r.Got? ==> r.st.Left() <= st.Left()
    decreases st.Left()
  {
    var (found, st1) := CheckToken(st, "ASSIGNMENT");
    if !found then Got([], st1)
    else
      var (name, st2) := ReadWord(st1);
      var (atype, st3) := ReadWord(st2);
      var (_, st4) :- ExpectNewline(st3);
      var (a, st5) :- ReadOptions(Assignment(name, atype, NoWeight, Raw, ByClass, 0), st4);
      var (rest, st6) :- ReadAssignments(st5);
      Got([a] + rest, st6)
  }

  /** The first assignment of that name. */
  function Find(asgts: seq<Assignment>, name: string): (r: Option<nat>)
    ensures r.Some? ==> r.value < |asgts| && asgts[r.value].name == name
    ensures r.Some? ==> forall i | 0 <= i < r.value :: asgts[i].name != name
    ensures r.None? ==> forall i | 0 <= i < |asgts| :: asgts[i].name != name
  {
    if asgts == [] then None
    else if asgts[0].name == name then Some(0)
    else match Find(asgts[1..], name) case None => None case Some(i) => Some(i + 1)
  }

  /** The range check on a normalized score; outside it counts an error. */
  function NormInRange(f: int, norm: Norm): bool
  {
    match norm
    case Quantile => 0 <= f <= 100 * MILLION
    case Scale(x) => 0 <= f <= x
    case _ => true
  }

  function ReadNormScore(norm: Norm, st: In): (r: (int, In))
    ensures r.1.Left() <= st.Left()
  {
    var (n, st1) := TakeNumber(Look(st));
    match n
    case Some(f) => (f, if NormInRange(f, norm) then st1 else st1.Error())
    case None => (0, st1.Error())
  }

  function ReadCode(st: In): (r: Res<string>)
    ensures r.Got? ==> r.st.Left() <= st.Left()
  {
    var (_, st1) :- AdvanceEol(st);
    Got(st1.tok.value, st1.Flush())
  }

  function ReadGrade(norm: Norm, st: In): (r: Res<Grade>)
    ensures r.Got? ==> r.st.Left() <= st.Left()
  {
    var (useraw, st1) := CheckToken(st, "USERAW");
    if useraw then
      var (x, st2) := ReadGradeNumber(st1);
      var (code, st3) :- ReadCode(st2);
      Got(UseRaw(x, code), st3)
    else
    var (usenorm, st2) := CheckToken(st1, "USENORM");
    if usenorm then
      var (x, st3) := ReadNormScore(norm, st2);
      var (code, st4) :- ReadCode(st3);
      Got(UseNorm(x, x, x, code), st4)
    else
    var (uselikeavg, st3) := CheckToken(st2, "USELIKEAVG");
    if uselikeavg then
      var (code, st4) :- ReadCode(st3);
      Got(UseLikeAvg(code), st4)
    else
    var (useclassavg, st4) := CheckToken(st3, "USECLASSAVG");
    if useclassavg then
      var (code, st5) :- ReadCode(st4);
      Got(UseClassAvg(code), st5)
    else
    var (x, st5) := ReadGradeNumber(st4);
    Got(Valid(x), st5)
  }

  /** A score for an undeclared assignment stops the program. */
  function ReadScores(asgts: seq<Assignment>, st: In): (r: Res<seq<Score>>)
    ensures r.Got? ==> r.st.Left() <= st.Left()
    decreases st.Left()
  {
    var (found, st1) := CheckToken(st, "SCORE");
    if !found then Got([], st1)
    else
      var st2 := Look(st1);
      match st2.tok
      case None => Fatal
      case Some(t) =>
        match Find(asgts, t)
        case None => Fatal
        case Some(i) =>
          var (g, st3) :- ReadGrade(asgts[i].norm, st2.Flush());
          var (_, st4) :- ExpectNewline(st3);
          var (rest, st5) :- ReadScores(asgts, st4);
          Got([Score(i, g)] + rest, st5)
  }

  function ReadStudents(asgts: seq<Assignment>, st: In): (r: Res<seq<Student>>)
    ensures r.Got? ==> r.st.Left() <= st.Left()
    decreases st.Left()
  {
    var (found, st1) := CheckToken(st, "STUDENT");
    if !found then Got([], st1)
    else
      var (id, st2) := ReadWord(st1);
      var (surname, st3) := ReadWord(st2);
      var (name, st4) :- ReadName(st3);
      var (scores, st5) :- ReadScores(asgts, st4);
      var (rest, st6) :- ReadStudents(asgts, st5);
      Got([Student(id, surname, name, scores)] + rest, st6)
  }

  /** No other file can be opened, so a FILE line stops the program. */
  function ReadSections(asgts: seq<Assignment>, st: In): (r: Res<seq<Section>>)
    ensures r.Got? ==> r.st.Left() <= st.Left()
    decreases st.Left()
  {
    var st1 := Look(st);
    if st1.tok.None? then Got([], st1)
    else
      var (file, st2) := CheckToken(st1, "FILE");
      if file then Fatal
      else
        var (found, st3) := CheckToken(st2, "SECTION");
        if !found then Got([], st3)
        else
          var (name, st4) :- ReadName(st3);
          var (assistant, st5) :- ReadPerson("ASSISTANT", st4);
          var (roster, st6) :- ReadStudents(asgts, st5);
          var (rest, st7) :- ReadSections(asgts, st6);
          Got([Section(name, assistant, roster)] + rest, st7)
  }

  function ReadCourse(st: In): (r: Res<Course>)
  {
    var st1 := ExpectToken(st, "COURSE");
    var (number, st2) := ReadWord(st1);
    var (title, st3) :- ReadName(st2);
    var (professor, st4) :- ReadPerson("PROFESSOR", st3);
    var (assignments, st5) :- ReadAssignments(st4);
    var (sections, st6) :- ReadSections(assignments, st5);
    Got(Course(number, title, professor, assignments, sections), st6)
  }

  function ExpectEof(st: In): In
  {
    if st.tok.Some? then st.Error().Flush()
    else if st.rest == "" then st
    else st.(rest := st.rest[1..]).Error()
  }

  function ReadFile(text: string): Res<Course>
  {
    var (_, st1) :- GobbleBlankLines(In(text, None, 0));
    var (c, st2) :- ReadCourse(st1);
    var (_, st3) :- GobbleBlankLines(st2);
    Got(c, ExpectEof(st3))
  }
}
