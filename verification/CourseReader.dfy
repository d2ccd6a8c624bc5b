/** hw2/src/read.c: the recursive-descent reader, working on the token stream. Each method does what Reader says. */
module CourseReader {
  import opened Options
  import opened Numbers
  import opened Tokens
  import opened TokenStream
  import opened Database
  import Reader

  method TakeNumber(s: Input) returns (n: Option<int>)
    requires s.Valid()
    modifies s
    ensures s.Valid() && (n, s.State()) == Reader.TakeNumber(old(s.State()))
  {
    if !s.IsToken() { return None; }
    n := Scan(s.Token());
    if n.Some? { s.FlushToken(); }
  }

  method ReadNumber(s: Input, default: int) returns (x: int)
    requires s.Valid()
    modifies s
    ensures s.Valid() && (x, s.State()) == Reader.ReadNumber(old(s.State()), default)
  {
    hide Reader.TakeNumber, AdvanceToken;
    s.AdvanceToken();
    var n := TakeNumber(s);
    if n.Some? { x := n.value; } else { s.Error(); x := default; }
  }

  method Look(s: Input)
    requires s.Valid()
    modifies s
    ensures s.Valid() && s.State() == Tokens.Look(old(s.State()))
  {
    if !s.IsToken() { s.AdvanceToken(); }
  }

  method ReadGradeNumber(s: Input) returns (x: int)
    requires s.Valid()
    modifies s
    ensures s.Valid() && (x, s.State()) == Reader.ReadGradeNumber(old(s.State()))
  {
    hide Reader.TakeNumber, Tokens.Look;
    Look(s);
    var n := TakeNumber(s);
    if n.Some? { x := n.value; } else { s.Error(); x := 0; }
  }

  /** readid, readsurname and readatype. */
  method ReadWord(s: Input) returns (w: string)
    requires s.Valid()
    modifies s
    ensures s.Valid() && (w, s.State()) == Tokens.ReadWord(old(s.State()))
  {
    hide Tokens.Look;
    Look(s);
    if s.IsToken() { w := s.Token(); } else { s.Error(); w := ""; }
    s.FlushToken();
  }

  method ReadName(s: Input) returns (r: Option<string>)
    requires s.Valid()
    modifies s
    ensures s.Valid() && Does(Tokens.ReadName(old(s.State())), r, s.State())
  {
    hide AdvanceEol, ExpectNewline;
    var _ :- s.AdvanceEol();
    var n := s.Token();
    s.FlushToken();
    var _ :- s.ExpectNewline();
    return Some(n);
  }

  /** readprofessor and readassistant. */
  method ReadPerson(s: Input, keyword: string) returns (r: Option<Option<Person>>)
    requires s.Valid()
    modifies s
    ensures s.Valid() && Does(Reader.ReadPerson(keyword, old(s.State())), r, s.State())
  {
    hide Tokens.CheckToken, Tokens.ReadWord, Tokens.ReadName;
    var found := s.CheckToken(keyword);
    if !found { return Some(None); }
    var surname := ReadWord(s);
    var name :- ReadName(s);
    return Some(Some(Person(surname, name)));
  }

  method ReadWeight(s: Input) returns (w: Weighting)
    requires s.Valid()
    modifies s
    ensures s.Valid() && (w, s.State()) == Reader.ReadWeight(old(s.State()))
  {
    hide Reader.TakeNumber, AdvanceToken;
    s.AdvanceToken();
    var n := TakeNumber(s);
    if n.Some? { w := Weight(n.value); } else { s.Error(); w := NoWeight; }
  }

  /** One word of a NORMALIZE line. */
  method ReadNormWord(s: Input, norm: Norm, group: Group) returns (n: Norm, g: Group, found: bool)
    requires s.Valid()
    modifies s
    ensures s.Valid()
    ensures var r := Reader.ReadNormWords(norm, group, old(s.State()));
      r == if found then Reader.NormFound(Reader.ReadNormWords(n, g, s.State())) else (n, g, false, s.State())
    ensures found ==> s.State().Left() < old(s.State()).Left()
    ensures !found ==> n == norm && g == group
  {
    hide Tokens.CheckToken, Reader.ReadNumber;
    n, g, found := norm, group, true;
    var hit := s.CheckToken("RAW");
    if hit { n := Raw; return; }
    hit := s.CheckToken("STDLINEAR");
    if hit { n := Linear(0, MILLION); return; }
    hit := s.CheckToken("GENLINEAR");
    if hit {
      var mean := ReadNumber(s, 0);
      var stddev := ReadNumber(s, MILLION);
      n := Linear(mean, stddev);
      return;
    }
    hit := s.CheckToken("QUANTILE");
    if hit { n := Quantile; return; }
    hit := s.CheckToken("SCALE");
    if hit {
      var x := ReadNumber(s, 0);
      n := Scale(x);
      return;
    }
    hit := s.CheckToken("BYCLASS");
    if hit { g := ByClass; return; }
    hit := s.CheckToken("BYSECTION");
    if hit { g := BySection; return; }
    found := false;
  }

  method ReadNorm(s: Input, norm: Norm, group: Group) returns (n: Norm, g: Group)
    requires s.Valid()
    modifies s
    ensures s.Valid() && (n, g, s.State()) == Reader.ReadNorm(norm, group, old(s.State()))
  {
    hide Reader.ReadNormWords;
    var found := 0;
    n, g := norm, group;
    ghost var all := Reader.ReadNormWords(norm, group, s.State());
    var more := true;
    while more
      invariant s.Valid() && 0 <= found
      invariant more ==> var r := Reader.ReadNormWords(n, g, s.State());
        all == if found > 0 then Reader.NormFound(r) else r
      invariant !more ==> all == (n, g, found > 0, s.State())
      decreases more, s.State().Left()
    {
      n, g, more := ReadNormWord(s, n, g);
      if more { found := found + 1; }
    }
    if found == 0 {
      n, g := Raw, ByClass;
      s.Error();
    }
  }

  /** One optional line of an assignment. */
  method ReadOption(s: Input, a: Assignment) returns (r: Option<(Assignment, bool)>)
    requires s.Valid()
    modifies s
    ensures s.Valid()
    ensures r.None? ==> Reader.ReadOptions(a, old(s.State())).Fatal?
    ensures r.Some? ==>
      Reader.ReadOptions(a, old(s.State())) ==
        if r.value.1 then Reader.ReadOptions(r.value.0, s.State()) else Got(a, s.State())
    ensures r.Some? && r.value.1 ==> s.State().Left() < old(s.State()).Left()
    ensures r.Some? && !r.value.1 ==> r.value.0 == a
  {
    hide Tokens.CheckToken, Tokens.ExpectNewline, Reader.ReadWeight, Reader.ReadNorm, Reader.ReadMax;
    var a' := a;
    var hit := s.CheckToken("WEIGHT");
    if hit {
      var w := ReadWeight(s);
      a' := a'.(weighting := if w.Weight? then w else NoWeight);
      var _ :- s.ExpectNewline();
      return Some((a', true));
    }
    hit := s.CheckToken("NORMALIZE");
    if hit {
      var n, g := ReadNorm(s, a.norm, a.group);
      a' := a'.(norm := n, group := g);
      var _ :- s.ExpectNewline();
      return Some((a', true));
    }
    hit := s.CheckToken("MAXIMUM");
    if hit {
      var max := ReadMax(s, a.max);
      a' := a'.(max := max);
      var _ :- s.ExpectNewline();
      return Some((a', true));
    }
    return Some((a, false));
  }

  method ReadMax(s: Input, max: int) returns (x: int)
    requires s.Valid()
    modifies s
    ensures s.Valid() && (x, s.State()) == Reader.ReadMax(max, old(s.State()))
  {
    x := ReadNumber(s, max);
  }

  method ReadOptions(s: Input, a0: Assignment) returns (r: Option<Assignment>)
    requires s.Valid()
    modifies s
    ensures s.Valid() && Does(Reader.ReadOptions(a0, old(s.State())), r, s.State())
  {
    hide Reader.ReadOptions;
    var a, more := a0, true;
    ghost var all := Reader.ReadOptions(a, s.State());
    while more
      invariant s.Valid() && all == if more then Reader.ReadOptions(a, s.State()) else Got(a, s.State())
      decreases more, s.State().Left()
    {
      var x :- ReadOption(s, a);
      a, more := x.0, x.1;
    }
    return Some(a);
  }

  method ReadAssignments(s: Input) returns (r: Option<seq<Assignment>>)
    requires s.Valid()
    modifies s
    ensures s.Valid() && Does(Reader.ReadAssignments(old(s.State())), r, s.State())
    decreases s.State().Left()
  {
    hide Tokens.CheckToken, Tokens.ReadWord, Tokens.ExpectNewline, Reader.ReadOptions;
    var found := s.CheckToken("ASSIGNMENT");
    if !found { return Some([]); }
    var name := ReadWord(s);
    var atype := ReadWord(s);
    var _ :- s.ExpectNewline();
    var a :- ReadOptions(s, Assignment(name, atype, NoWeight, Raw, ByClass, 0));
    var next :- ReadAssignments(s);
    return Some([a] + next);
  }

  method ReadNormScore(s: Input, norm: Norm) returns (x: int)
    requires s.Valid()
    modifies s
    ensures s.Valid() && (x, s.State()) == Reader.ReadNormScore(norm, old(s.State()))
  {
    hide Tokens.Look, Reader.TakeNumber;
    Look(s);
    var n := TakeNumber(s);
    if n.None? { s.Error(); return 0; }
    x := n.value;
    match norm {
      case Quantile => if x < 0 || x > 100 * MILLION { s.Error(); }
      case Scale(scale) => if x < 0 || x > scale { s.Error(); }
      case _ =>
    }
  }

  method ReadCode(s: Input) returns (r: Option<string>)
    requires s.Valid()
    modifies s
    ensures s.Valid() && Does(Reader.ReadCode(old(s.State())), r, s.State())
  {
    hide AdvanceEol;
    var _ :- s.AdvanceEol();
    r := Some(s.Token());
    s.FlushToken();
  }

  method ReadGrade(s: Input, norm: Norm) returns (r: Option<Grade>)
    requires s.Valid()
    modifies s
    ensures s.Valid() && Does(Reader.ReadGrade(norm, old(s.State())), r, s.State())
  {
    hide Tokens.CheckToken, Reader.ReadGradeNumber, Reader.ReadNormScore, Reader.ReadCode;
    var hit := s.CheckToken("USERAW");
    if hit {
      var x := ReadGradeNumber(s);
      var code :- ReadCode(s);
      return Some(UseRaw(x, code));
    }
    hit := s.CheckToken("USENORM");
    if hit {
      var x := ReadNormScore(s, norm);
      var code :- ReadCode(s);
      return Some(UseNorm(x, x, x, code));
    }
    hit := s.CheckToken("USELIKEAVG");
    if hit {
      var code :- ReadCode(s);
      return Some(UseLikeAvg(code));
    }
    hit := s.CheckToken("USECLASSAVG");
    if hit {
      var code :- ReadCode(s);
      return Some(UseClassAvg(code));
    }
    var x := ReadGradeNumber(s);
    return Some(Valid(x));
  }

  /** The search through the list of assignments. */
  method FindAssignment(asgts: seq<Assignment>, name: string) returns (r: Option<nat>)
    ensures r == Reader.Find(asgts, name)
  {
    r := None;
    var i := 0;
    while i < |asgts|
      invariant i <= |asgts| && forall j | 0 <= j < i :: asgts[j].name != name
    {
      if asgts[i].name == name { return Some(i); }
      i := i + 1;
    }
  }

  method ReadScores(s: Input, asgts: seq<Assignment>) returns (r: Option<seq<Score>>)
    requires s.Valid()
    modifies s
    ensures s.Valid() && Does(Reader.ReadScores(asgts, old(s.State())), r, s.State())
    decreases s.State().Left()
  {
    hide Tokens.CheckToken, Tokens.Look, Tokens.ExpectNewline, Reader.ReadGrade, Reader.Find;
    var found := s.CheckToken("SCORE");
    if !found { return Some([]); }
    Look(s);
    if !s.IsToken() { return None; }
    var i :- FindAssignment(asgts, s.Token());
    s.FlushToken();
    var g :- ReadGrade(s, asgts[i].norm);
    var _ :- s.ExpectNewline();
    var next :- ReadScores(s, asgts);
    return Some([Score(i, g)] + next);
  }

  method ReadStudents(s: Input, asgts: seq<Assignment>) returns (r: Option<seq<Student>>)
    requires s.Valid()
    modifies s
    ensures s.Valid() && Does(Reader.ReadStudents(asgts, old(s.State())), r, s.State())
    decreases s.State().Left()
  {
    hide Tokens.CheckToken, Tokens.ReadWord, Tokens.ReadName, Reader.ReadScores;
    var found := s.CheckToken("STUDENT");
    if !found { return Some([]); }
    var id := ReadWord(s);
    var surname := ReadWord(s);
    var name :- ReadName(s);
    var scores :- ReadScores(s, asgts);
    var next :- ReadStudents(s, asgts);
    return Some([Student(id, surname, name, scores)] + next);
  }

  method ReadSections(s: Input, asgts: seq<Assignment>) returns (r: Option<seq<Section>>)
    requires s.Valid()
    modifies s
    ensures s.Valid() && Does(Reader.ReadSections(asgts, old(s.State())), r, s.State())
    decreases s.State().Left()
  {
    hide Tokens.CheckToken, Tokens.Look, Tokens.ReadName, Reader.ReadPerson, Reader.ReadStudents;
    Look(s);
    if !s.IsToken() { return Some([]); }
    var file := s.CheckToken("FILE");
    if file { return None; }
    var found := s.CheckToken("SECTION");
    if !found { return Some([]); }
    var name :- ReadName(s);
    var assistant :- ReadPerson(s, "ASSISTANT");
    var roster :- ReadStudents(s, asgts);
    var next :- ReadSections(s, asgts);
    return Some([Section(name, assistant, roster)] + next);
  }

  method ReadCourse(s: Input) returns (r: Option<Course>)
    requires s.Valid()
    modifies s
    ensures s.Valid() && Does(Reader.ReadCourse(old(s.State())), r, s.State())
  {
    hide Tokens.ExpectToken, Tokens.ReadWord, Tokens.ReadName, Reader.ReadPerson, Reader.ReadAssignments,
      Reader.ReadSections;
    s.ExpectToken("COURSE");
    var number := ReadWord(s);
    var title :- ReadName(s);
    var professor :- ReadPerson(s, "PROFESSOR");
    var assignments :- ReadAssignments(s);
    var sections :- ReadSections(s, assignments);
    return Some(Course(number, title, professor, assignments, sections));
  }

  method ExpectEof(s: Input)
    requires s.Valid()
    modifies s
    ensures s.Valid() && s.State() == Reader.ExpectEof(old(s.State()))
  {
    if !s.IsToken() {
      var c := s.Getc();
      if c.None? { return; }
    }
    s.Error();
    s.FlushToken();
  }

  /** The whole reader, on a file that holds `text`; `errors` counts the complaints. */
  method ReadFile(text: string) returns (r: Option<Course>, errors: nat)
    ensures var step := Reader.ReadFile(text);
      match step case Fatal => r.None? case Got(c, st) => r == Some(c) && errors == st.errors
  {
    hide Tokens.GobbleBlankLines, Reader.ReadCourse, Reader.ExpectEof;
    var s := new Input(text);
    errors := 0;
    var r1 := s.GobbleBlankLines();
    if r1.None? { return None, 0; }
    r := ReadCourse(s);
    if r.None? { return None, 0; }
    var r3 := s.GobbleBlankLines();
    if r3.None? { return None, 0; }
    ExpectEof(s);
    errors := s.errors;
  }
}
