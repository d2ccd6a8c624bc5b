/** Reading the printed assignments of a course. */
module AssignmentText {
  import opened Options
  import opened Numbers
  import opened Tokens
  import opened TokenText
  import opened Database
  import opened Reader
  import opened Survival

  lemma NumberHit(b: string, n: int, x: string, e: nat)
    requires IsBlank(b) && EndsWord(x)
    ensures TakeNumber(Look(In(b + (Format(n) + x), None, e))) == (Some(n), In(x, None, e))
    ensures TakeNumber(AdvanceToken(In(b + (Format(n) + x), None, e))) == (Some(n), In(x, None, e))
  {
    FormatIsWord(n);
    WordAhead(b, Format(n), x, e);
    ScanFormat(n);
  }

  lemma WeightLine(a: Assignment, w: Weighting, k: string, e: nat)
    requires a.weighting.NoWeight? && IsClean(k)
    ensures ReadOptions(a, In(PutWeight(w, k), None, e)) == ReadOptions(a.(weighting := w), In(k, None, e))
  {
    if w.Weight? {
      var x := " " + (Format(w.weight) + ("\n" + k));
      CheckHit("  ", "WEIGHT", x, e);
      NumberHit(" ", w.weight, "\n" + k, e);
      NewlineHit(k, e);
    } else {
      assert a.(weighting := w) == a;
    }
  }

  /** The end of a NORMALIZE line. */
  lemma NormWordsEnd(norm: Norm, group: Group, k: string, e: nat)
    ensures ReadNormWords(norm, group, In("\n" + k, None, e)) == (norm, group, false, In("\n" + k, None, e))
  {
    var x := "\n" + k;
    assert x[0] == '\n' && SkipBlank(x) == x && Word(x) == "" && x[0..] == x;
    assert Look(In(x, None, e)) == In(x, None, e);
  }

  lemma GroupWord(norm: Norm, group: Group, g: Group, k: string, e: nat)
    ensures ReadNormWords(norm, group, In(PutGroup(g, k), None, e)) == (norm, g, true, In("\n" + k, None, e))
  {
    hide SkipBlank, Word, AdvanceToken, ReadNumber;
    var w := if g.ByClass? then "BYCLASS" else "BYSECTION";
    WordAhead(" ", w, "\n" + k, e);
    LookTwice(In(PutGroup(g, k), None, e));
    NormWordsEnd(norm, g, k, e);
  }

  lemma QuantileWords(g: Group, k: string, e: nat)
    ensures ReadNormWords(Raw, ByClass, In(" " + ("QUANTILE" + PutGroup(g, k)), None, e)) ==
      (Quantile, g, true, In("\n" + k, None, e))
  {
    hide SkipBlank, Word, AdvanceToken, ReadNumber;
    GroupWord(Quantile, ByClass, g, k, e);
    WordAhead(" ", "QUANTILE", PutGroup(g, k), e);
  }

  lemma ScaleWords(x: int, g: Group, k: string, e: nat)
    ensures ReadNormWords(Raw, ByClass, In(" " + ("SCALE" + (" " + (Format(x) + PutGroup(g, k)))), None, e)) ==
      (Scale(x), g, true, In("\n" + k, None, e))
  {
    hide SkipBlank, Word, Format, Scan, AdvanceToken, TakeNumber;
    GroupWord(Scale(x), ByClass, g, k, e);
    WordAhead(" ", "SCALE", " " + (Format(x) + PutGroup(g, k)), e);
    NumberHit(" ", x, PutGroup(g, k), e);
  }

  lemma GenLinearWords(mean: int, stddev: int, g: Group, k: string, e: nat)
    ensures ReadNormWords(Raw, ByClass,
        In(" " + ("GENLINEAR" + (": " + (Format(mean) + (", " + (Format(stddev) + PutGroup(g, k)))))), None, e)) ==
      (Linear(mean, stddev), g, true, In("\n" + k, None, e))
  {
    hide SkipBlank, Word, Format, Scan, AdvanceToken, TakeNumber;
    GroupWord(Linear(mean, stddev), ByClass, g, k, e);
    WordAhead(" ", "GENLINEAR", ": " + (Format(mean) + (", " + (Format(stddev) + PutGroup(g, k)))), e);
    NumberHit(": ", mean, ", " + (Format(stddev) + PutGroup(g, k)), e);
    NumberHit(", ", stddev, PutGroup(g, k), e);
  }

  /** A NORMALIZE line whose words x the reader makes (n, g) of, with e' errors by the end of the line. */
  lemma NormalizeLine(a: Assignment, x: string, n: Norm, g: Group, k: string, e: nat, e': nat)
    requires EndsWord(x)
    requires var (n', g', st) := ReadNorm(a.norm, a.group, In(x, None, e));
      n' == n && g' == g && ExpectNewline(st) == Got((), In(k, None, e'))
    ensures ReadOptions(a, In("  " + ("NORMALIZE" + x), None, e)) ==
      ReadOptions(a.(norm := n, group := g), In(k, None, e'))
  {
    hide ReadNorm, ExpectNewline, SkipBlank, Word;
    WordAhead("  ", "NORMALIZE", x, e);
  }

  /** LINEAR is not a word of a NORMALIZE line. */
  lemma LinearUnknown(x: string, e: nat)
    requires EndsWord(x)
    ensures ReadNorm(Raw, ByClass, In(" " + ("LINEAR" + x), None, e)) == (Raw, ByClass, In(x, Some("LINEAR"), e + 1))
  {
    WordAhead(" ", "LINEAR", x, e);
  }

  lemma LinearSkipped(l: string, k: string, e: nat)
    requires forall c | c in l :: c != '\n'
    ensures ExpectNewline(In(l + ("\n" + k), Some("LINEAR"), e)) == Got((), In(k, None, e + 1))
  {
    SkipLineOver(l, k, e + 1);
  }

  lemma LinearWords(mean: int, stddev: int, g: Group, k: string, e: nat)
    ensures var (n', g', st) :=
        ReadNorm(Raw, ByClass, In(" " + ("LINEAR" + (": " + (Format(mean) + (", " + (Format(stddev) + PutGroup(g,
          k)))))), None, e));
      n' == Raw && g' == ByClass && ExpectNewline(st) == Got((), In(k, None, e + 2))
  {
    hide ReadNorm, ExpectNewline, Format;
    var w := if g.ByClass? then "BYCLASS" else "BYSECTION";
    var l := ": " + (Format(mean) + (", " + (Format(stddev) + (" " + w))));
    var x := ": " + (Format(mean) + (", " + (Format(stddev) + PutGroup(g, k))));
    FormatIsWord(mean);
    FormatIsWord(stddev);
    assert x == l + ("\n" + k);
    LinearUnknown(x, e);
    LinearSkipped(l, k, e + 1);
  }

  lemma SkipLineOver(l: string, k: string, e: nat)
    requires forall c | c in l :: c != '\n'
    ensures SkipLine(In(l + ("\n" + k), None, e)) == Got((), In(k, None, e))
  {
    LineOf(l, k);
    assert (l + ("\n" + k))[|l|+1..] == k;
  }

  lemma NormLine(known: bool, a: Assignment, n: Norm, g: Group, k: string, e: nat)
    requires a.norm.Raw? && a.group.ByClass? && IsClean(k)
    ensures ReadOptions(a, In(PutNorm(known, n, g, k), None, e)) ==
      ReadOptions(a.(norm := RereadNorm(known, n), group := RereadGroup(known, n, g)),
        In(k, None, e + NormErrors(known, n)))
  {
    hide ReadOptions, ReadNormWords, ExpectNewline, Format;
    match n
    case Raw => assert a.(norm := Raw, group := ByClass) == a;
    case Linear(mean, stddev) =>
      if known {
        GenLinearWords(mean, stddev, g, k, e);
        NewlineHit(k, e);
        NormalizeLine(a, " " + ("GENLINEAR" + (": " + (Format(mean) + (", " + (Format(stddev) + PutGroup(g, k)))))),
          n, g, k, e, e);
        return;
      }
      LinearWords(mean, stddev, g, k, e);
      NormalizeLine(a, " " + ("LINEAR" + (": " + (Format(mean) + (", " + (Format(stddev) + PutGroup(g, k)))))), Raw,
        ByClass, k, e, e + 2);
    case Quantile =>
      QuantileWords(g, k, e);
      NewlineHit(k, e);
      NormalizeLine(a, " " + ("QUANTILE" + PutGroup(g, k)), n, g, k, e, e);
    case Scale(x) =>
      ScaleWords(x, g, k, e);
      NewlineHit(k, e);
      NormalizeLine(a, " " + ("SCALE" + (" " + (Format(x) + PutGroup(g, k)))), n, g, k, e, e);
  }

  lemma MaxLine(a: Assignment, max: int, k: string, e: nat)
    requires a.max == 0 && IsClean(k)
    ensures ReadOptions(a, In(PutMax(max, k), None, e)) == ReadOptions(a.(max := max), In(k, None, e))
  {
    if max != 0 {
      WordAhead("  ", "MAXIMUM", " " + (Format(max) + ("\n" + k)), e);
      NumberHit(" ", max, "\n" + k, e);
      NewlineHit(k, e);
    } else {
      assert a.(max := max) == a;
    }
  }

  lemma OptionsEnd(a: Assignment, k: string, e: nat)
    requires NextIn(k, {"ASSIGNMENT", "SECTION", ""})
    ensures ReadOptions(a, In(k, None, e)) == Got(a, Ahead(k, e))
  {
    CheckMiss(k, "WEIGHT", e);
    CheckMiss(k, "NORMALIZE", e);
    CheckMiss(k, "MAXIMUM", e);
  }

  lemma AssignmentsNext(known: bool, s: seq<Assignment>, k: string)
    requires NextIn(k, {"SECTION", ""}) && forall a | a in s :: WellAssignment(a)
    ensures NextIn(PutAssignments(known, s, k), {"ASSIGNMENT", "SECTION", ""})
  {
    if s != [] {
      var a := s[0];
      WordAhead(" ", "ASSIGNMENT", " " + (a.name + (" " + (a.atype + ("\n" +
        PutWeight(a.weighting, PutNorm(known, a.norm, a.group,
          PutMax(a.max, PutAssignments(known, s[1..], k)))))))), 0);
    }
  }

  lemma MaxClean(max: int, k: string)
    requires IsClean(k)
    ensures IsClean(PutMax(max, k))
  {
  }

  lemma NormClean(known: bool, n: Norm, g: Group, k: string)
    requires IsClean(k)
    ensures IsClean(PutNorm(known, n, g, k))
  {
  }

  lemma MaxAndEnd(a: Assignment, max: int, k: string, e: nat)
    requires a.max == 0 && NextIn(k, {"ASSIGNMENT", "SECTION", ""})
    ensures ReadOptions(a, In(PutMax(max, k), None, e)) == Got(a.(max := max), Ahead(k, e))
  {
    hide ReadOptions, PutMax, Look, NextWord;
    MaxLine(a, max, k, e);
    OptionsEnd(a.(max := max), k, e);
  }

  lemma NormAndMax(known: bool, a: Assignment, n: Norm, g: Group, max: int, k: string, e: nat)
    requires a.norm.Raw? && a.group.ByClass? && a.max == 0 && NextIn(k, {"ASSIGNMENT", "SECTION", ""})
    ensures ReadOptions(a, In(PutNorm(known, n, g, PutMax(max, k)), None, e)) ==
      Got(a.(norm := RereadNorm(known, n), group := RereadGroup(known, n, g), max := max),
          Ahead(k, e + NormErrors(known, n)))
  {
    hide ReadOptions, PutNorm, PutMax, Look, NextWord, RereadNorm, RereadGroup, NormErrors;
    MaxClean(max, k);
    NormLine(known, a, n, g, PutMax(max, k), e);
    MaxAndEnd(a.(norm := RereadNorm(known, n), group := RereadGroup(known, n, g)), max, k, e + NormErrors(known, n));
  }

  lemma AssignmentLines(known: bool, a: Assignment, k: string, e: nat)
    requires NextIn(k, {"ASSIGNMENT", "SECTION", ""})
    ensures ReadOptions(Assignment(a.name, a.atype, NoWeight, Raw, ByClass, 0),
        In(PutWeight(a.weighting, PutNorm(known, a.norm, a.group, PutMax(a.max, k))), None, e)) ==
      Got(RereadAssignment(known, a), Ahead(k, e + NormErrors(known, a.norm)))
  {
    hide ReadOptions, PutWeight, PutNorm, PutMax, Look, NextWord, RereadNorm, RereadGroup, NormErrors;
    var a0 := Assignment(a.name, a.atype, NoWeight, Raw, ByClass, 0);
    MaxClean(a.max, k);
    NormClean(known, a.norm, a.group, PutMax(a.max, k));
    WeightLine(a0, a.weighting, PutNorm(known, a.norm, a.group, PutMax(a.max, k)), e);
    NormAndMax(known, a0.(weighting := a.weighting), a.norm, a.group, a.max, k, e);
  }

  lemma AssignmentsLook(st: In)
    ensures ReadAssignments(Look(st)) == ReadAssignments(st)
  {
    hide AdvanceToken;
    LookTwice(st);
  }

  /** The ASSIGNMENT line itself. */
  lemma AssignmentHead(name: string, atype: string, x: string, e: nat)
    requires IsWord(name) && IsWord(atype) && IsClean(x)
    ensures ReadAssignments(In(" " + ("ASSIGNMENT" + (" " + (name + (" " + (atype + ("\n" + x)))))), None, e)) ==
      match ReadOptions(Assignment(name, atype, NoWeight, Raw, ByClass, 0), In(x, None, e))
      case Fatal => Fatal
      case Got(a, st) =>
        match ReadAssignments(st) case Fatal => Fatal case Got(rest, st') => Got([a] + rest, st')
  {
    CheckHit(" ", "ASSIGNMENT", " " + (name + (" " + (atype + ("\n" + x)))), e);
    WordHit(" ", name, " " + (atype + ("\n" + x)), e);
    WordHit(" ", atype, "\n" + x, e);
    NewlineHit(x, e);
  }

  lemma NoAssignments(k: string, e: nat)
    requires NextIn(k, {"SECTION", ""})
    ensures ReadAssignments(In(k, None, e)) == Got([], Ahead(k, e))
  {
    CheckMiss(k, "ASSIGNMENT", e);
  }

  /** An assignment in front of text that reads as `rest`. */
  lemma AssignmentStep(known: bool, a: Assignment, t: string, e: nat, rest: seq<Assignment>, st: In)
    requires WellAssignment(a) && NextIn(t, {"ASSIGNMENT", "SECTION", ""})
    requires ReadAssignments(In(t, None, e + NormErrors(known, a.norm))) == Got(rest, st)
    ensures ReadAssignments(In(PutAssignment(known, a, t), None, e)) == Got([RereadAssignment(known, a)] + rest, st)
  {
    hide ReadOptions, ReadAssignments, NextWord, Look, CheckToken, NormErrors, RereadAssignment;
    assert IsClean(PutWeight(a.weighting, PutNorm(known, a.norm, a.group, PutMax(a.max, t))));
    AssignmentHead(a.name, a.atype, PutWeight(a.weighting, PutNorm(known, a.norm, a.group, PutMax(a.max, t))), e);
    AssignmentLines(known, a, t, e);
    AssignmentsLook(In(t, None, e + NormErrors(known, a.norm)));
  }

  lemma {:induction false} AssignmentsText(known: bool, s: seq<Assignment>, k: string, e: nat)
    requires (forall a | a in s :: WellAssignment(a)) && NextIn(k, {"SECTION", ""})
    ensures ReadAssignments(In(PutAssignments(known, s, k), None, e)) ==
      Got(RereadAssignments(known, s), Ahead(k, e + AssignmentErrors(known, s)))
  {
    hide ReadAssignments, PutAssignment, Look, NextWord, NormErrors, RereadAssignment;
    if s == [] {
      NoAssignments(k, e);
    } else {
      var a, t := s[0], PutAssignments(known, s[1..], k);
      assert forall b | b in s[1..] :: b in s;
      AssignmentsNext(known, s[1..], k);
      AssignmentsText(known, s[1..], k, e + NormErrors(known, a.norm));
      AssignmentStep(known, a, t, e, RereadAssignments(known, s[1..]), Ahead(k, e + AssignmentErrors(known, s)));
    }
  }
}
