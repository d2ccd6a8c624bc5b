/**
 * What the reader makes of text that the program itself does not print: blanks of any kind, comments, every word of a
 * NORMALIZE line, optional lines in any order, and lines it complains about.
 */
module LineText {
  import opened Options
  import opened Numbers
  import opened Tokens
  import opened TokenText
  import opened Database
  import opened Reader

  // ----- characters -----

  const BLANKS: string := " \t,:\U{0C}"

  /** Blanks are skipped as far as they go. */
  lemma {:induction false} BlanksSkipped(s: string)
    ensures var r := SkipBlank(s);
      && r == s[|s| - |r|..] && (forall c | c in s[..|s| - |r|] :: c in BLANKS)
      && (r == "" || r[0] !in BLANKS)
  {
    if s != "" && IsWhitespace(s[0]) {
      BlanksSkipped(s[1..]);
      var r := SkipBlank(s);
      assert s[..|s| - |r|] == [s[0]] + s[1..][..|s| - 1 - |r|];
    }
  }

  /** A token ends before a blank, a newline or the end of the file. */
  lemma {:induction false} WordEnds(s: string)
    ensures var w := Word(s);
      && w == s[..|w|] && (forall c | c in w :: c !in BLANKS && c != '\n')
      && (|w| == |s| || s[|w|] in BLANKS || s[|w|] == '\n')
  {
    if s != "" && !IsWhitespace(s[0]) && s[0] != '\n' {
      WordEnds(s[1..]);
      var w := Word(s);
      assert w == [s[0]] + Word(s[1..]) && s[..|w|] == [s[0]] + s[1..][..|w| - 1];
    }
  }

  lemma {:induction false} LineStops(s: string)
    ensures var l := Line(s);
      l == s[..|l|] && '\n' !in l && (|l| == |s| || s[|l|] == '\n')
  {
    if s != "" && s[0] != '\n' {
      LineStops(s[1..]);
      var l := Line(s);
      assert l == [s[0]] + Line(s[1..]) && s[..|l|] == [s[0]] + s[1..][..|l| - 1];
    }
  }

  // ----- blank lines and comments -----

  /** What is skipped between two lines that say something. */
  datatype Gap = Comment(text: string) | Empty(blank: string)

  predicate WellGap(g: Gap)
  {
    match g case Comment(text) => '\n' !in text case Empty(blank) => IsBlank(blank)
  }

  function PutGaps(gs: seq<Gap>, k: string): string
  {
    if gs == [] then k
    else match gs[0]
      case Comment(text) => "#" + (text + ("\n" + PutGaps(gs[1..], k)))
      case Empty(blank) => "\n" + (blank + PutGaps(gs[1..], k))
  }

  /** Text that starts a line with something to read. */
  predicate LineStart(k: string)
  {
    k == "" || (k[0] != '\n' && k[0] != '#')
  }

  lemma CommentSkipped(text: string, rest: string, e: nat)
    requires '\n' !in text
    ensures GobbleBlankLines(In("#" + (text + ("\n" + rest)), None, e)) == GobbleBlankLines(In(rest, None, e))
  {
    var s := "#" + (text + ("\n" + rest));
    assert s == ("#" + text) + ("\n" + rest);
    assert forall c | c in "#" + text :: c != '\n';
    LineOf("#" + text, rest);
    assert s[|text| + 2..] == rest;
  }

  lemma EmptySkipped(blank: string, rest: string, e: nat)
    requires IsBlank(blank) && (rest == "" || !IsWhitespace(rest[0]))
    ensures GobbleBlankLines(In("\n" + (blank + rest), None, e)) == GobbleBlankLines(In(rest, None, e))
  {
    hide IsBlank;
    var s := "\n" + (blank + rest);
    assert s[1..] == blank + rest;
    SkipBlankOver(blank, rest);
  }

  /** Comments and empty lines are skipped, however many there are, with the blanks behind an empty line. */
  lemma {:induction false} GapsSkipped(gs: seq<Gap>, k: string, e: nat)
    requires (forall g | g in gs :: WellGap(g)) && LineStart(k) && (k == "" || !IsWhitespace(k[0]))
    ensures GobbleBlankLines(In(PutGaps(gs, k), None, e)) == Got((), In(k, None, e))
  {
    if gs != [] {
      hide GobbleBlankLines, IsBlank, IsWhitespace;
      var rest := PutGaps(gs[1..], k);
      assert gs[0] in gs && WellGap(gs[0]) && forall g | g in gs[1..] :: g in gs;
      GapsSkipped(gs[1..], k, e);
      GapsStart(gs[1..], k);
      match gs[0] {
        case Comment(text) => CommentSkipped(text, rest, e);
        case Empty(blank) => EmptySkipped(blank, rest, e);
      }
    }
  }

  lemma GapsStart(gs: seq<Gap>, k: string)
    requires k == "" || !IsWhitespace(k[0])
    ensures PutGaps(gs, k) == "" || !IsWhitespace(PutGaps(gs, k)[0])
  {
  }

  /** A comment that the file ends in stops the program. */
  lemma UnfinishedComment(text: string, e: nat)
    requires '\n' !in text
    ensures GobbleBlankLines(In("#" + text, None, e)) == Fatal
  {
    LineStops("#" + text);
    assert Line("#" + text) == "#" + text;
  }

  // ----- numbers -----

  /** A token that is read as a number. */
  predicate IsNumber(t: string)
  {
    IsWord(t) && Scan(t).Some?
  }

  lemma TokenNumber(b: string, t: string, x: string, e: nat, default: int)
    requires IsBlank(b) && IsNumber(t) && EndsWord(x)
    ensures ReadNumber(In(b + (t + x), None, e), default) == (Scan(t).value, In(x, None, e))
    ensures ReadGradeNumber(In(b + (t + x), None, e)) == (Scan(t).value, In(x, None, e))
    ensures ReadWeight(In(b + (t + x), None, e)) == (Weight(Scan(t).value), In(x, None, e))
  {
    hide Scan, IsBlank, IsWord;
    WordAhead(b, t, x, e);
  }

  /** Any other token counts an error and stays where it is. */
  lemma NoNumber(b: string, t: string, x: string, e: nat, default: int, norm: Norm)
    requires IsBlank(b) && IsWord(t) && Scan(t).None? && EndsWord(x)
    ensures ReadNumber(In(b + (t + x), None, e), default) == (default, In(x, Some(t), e + 1))
    ensures ReadGradeNumber(In(b + (t + x), None, e)) == (0, In(x, Some(t), e + 1))
    ensures ReadWeight(In(b + (t + x), None, e)) == (NoWeight, In(x, Some(t), e + 1))
    ensures ReadNormScore(norm, In(b + (t + x), None, e)) == (0, In(x, Some(t), e + 1))
  {
    hide Scan, IsBlank, IsWord;
    WordAhead(b, t, x, e);
  }

  /** So does the end of a line or of the file. */
  lemma NothingThere(x: string, e: nat, default: int, norm: Norm)
    requires NextWord(x) == ""
    ensures var st := In(SkipBlank(x), None, e + 1);
      && ReadNumber(In(x, None, e), default) == (default, st) && ReadGradeNumber(In(x, None, e)) == (0, st)
      && ReadNormScore(norm, In(x, None, e)) == (0, st)
      && ReadWeight(In(x, None, e)) == (NoWeight, st) && ReadWord(In(x, None, e)) == ("", st)
  {
  }

  /** A score under QUANTILE is in range from 0 to 100, one under SCALE from 0 to the scale; outside it is an error. */
  lemma NormScoreChecked(b: string, t: string, x: string, norm: Norm, e: nat)
    requires IsBlank(b) && IsNumber(t) && EndsWord(x)
    ensures var f := Scan(t).value;
      var inside := (norm.Quantile? ==> 0 <= f <= 100_000_000) && (norm.Scale? ==> 0 <= f <= norm.scale);
      ReadNormScore(norm, In(b + (t + x), None, e)) == (f, In(x, None, if inside then e else e + 1))
  {
    hide Scan, IsBlank, IsWord;
    WordAhead(b, t, x, e);
  }

  // ----- keywords and the end of a line -----

  /** What is not the keyword stays, and counts an error. */
  lemma KeywordMissed(st: In, key: string)
    requires Look(st).tok != Some(key)
    ensures ExpectToken(st, key) == Look(st).Error()
    ensures CheckToken(st, key) == (false, Look(st))
  {
  }

  lemma KeywordFound(b: string, key: string, x: string, e: nat)
    requires IsBlank(b) && IsWord(key) && EndsWord(x)
    ensures ExpectToken(In(b + (key + x), None, e), key) == In(x, None, e)
    ensures CheckToken(In(b + (key + x), None, e), key) == (true, In(x, None, e))
  {
    WordAhead(b, key, x, e);
  }

  /** The end of a line, with blanks before it. */
  lemma LineEnd(b: string, k: string, e: nat)
    requires IsBlank(b) && LineStart(k)
    ensures ExpectNewline(In(b + ("\n" + k), None, e)) == Got((), In(k, None, e))
  {
    SkipBlankOver(b, "\n" + k);
    assert ("\n" + k)[1..] == k;
  }

  /** Anything else before it counts one error, and the rest of the line is skipped. */
  lemma LineLeftover(tok: string, l: string, k: string, e: nat)
    requires (tok == "" || tok[0] != '\n') && '\n' !in l
    ensures ExpectNewline(In(l + ("\n" + k), Some(tok), e)) == Got((), In(k, None, e + 1))
  {
    assert forall c | c in l :: c != '\n';
    LineOf(l, k);
    assert (l + ("\n" + k))[|l|+1..] == k;
  }

  /** A token that nobody took is dropped with an error when the next one, or the rest of the line, is read. */
  lemma UnreadToken(rest: string, tok: string, e: nat)
    ensures AdvanceToken(In(rest, Some(tok), e)) == AdvanceToken(In(rest, None, e + 1))
    ensures AdvanceEol(In(rest, Some(tok), e)) == AdvanceEol(In(rest, None, e + 1))
  {
  }

  /** A file that ends within a line stops the program when the rest of the line or its end is read. */
  lemma UnfinishedLine(l: string, e: nat)
    requires '\n' !in l
    ensures AdvanceEol(In(l, None, e)) == Fatal && ExpectNewline(In(l, None, e)) == Fatal
    ensures forall tok | tok == "" || tok[0] != '\n' :: ExpectNewline(In(l, Some(tok), e)) == Fatal
  {
    BlanksSkipped(l);
    NoNewline(l);
    NoNewline(SkipBlank(l));
    var s := SkipBlank(l);
    if s != "" { NoNewline(s[1..]); }
  }

  lemma {:induction false} NoNewline(l: string)
    requires '\n' !in l
    ensures Line(l) == l
  {
    if l != "" { NoNewline(l[1..]); }
  }

  // ----- NORMALIZE -----

  datatype NormWord =
    | RawWord | StdLinear | GenLinear(mean: string, stddev: string) | QuantileWord | ScaleTo(scale: string)
    | By(group: Group)

  predicate WellWord(w: NormWord)
  {
    (w.GenLinear? ==> IsNumber(w.mean) && IsNumber(w.stddev)) && (w.ScaleTo? ==> IsNumber(w.scale))
  }

  /** The words, with the same blanks before each word and number, and then x. */
  function PutWord(w: NormWord, b: string, x: string): string
  {
    match w
    case RawWord => b + ("RAW" + x)
    case StdLinear => b + ("STDLINEAR" + x)
    case GenLinear(mean, stddev) => b + ("GENLINEAR" + (b + (mean + (b + (stddev + x)))))
    case QuantileWord => b + ("QUANTILE" + x)
    case ScaleTo(scale) => b + ("SCALE" + (b + (scale + x)))
    case By(group) => b + ((if group.ByClass? then "BYCLASS" else "BYSECTION") + x)
  }

  function PutWords(ws: seq<NormWord>, b: string, x: string): string
  {
    if ws == [] then x else PutWord(ws[0], b, PutWords(ws[1..], b, x))
  }

  /** The policy a word stands for, with numbers in millionths. */
  function PolicyOf(w: NormWord): Option<Norm>
    requires WellWord(w)
  {
    match w
    case RawWord => Some(Raw)
    case StdLinear => Some(Linear(0, 1_000_000))
    case GenLinear(mean, stddev) => Some(Linear(Scan(mean).value, Scan(stddev).value))
    case QuantileWord => Some(Quantile)
    case ScaleTo(scale) => Some(Scale(Scan(scale).value))
    case By(_) => None
  }

  /** The last policy and the last group that are named. */
  function LastPolicy(ws: seq<NormWord>, norm: Norm): Norm
    requires forall w | w in ws :: WellWord(w)
  {
    if ws == [] then norm
    else
      var w := ws[|ws|-1];
      assert w in ws && WellWord(w);
      match PolicyOf(w) case Some(n) => n case None => LastPolicy(ws[..|ws|-1], norm)
  }

  function LastGroup(ws: seq<NormWord>, group: Group): Group
  {
    if ws == [] then group
    else if ws[|ws|-1].By? then ws[|ws|-1].group else LastGroup(ws[..|ws|-1], group)
  }

  lemma {:induction false} LastOfMore(ws: seq<NormWord>, norm: Norm, group: Group)
    requires ws != [] && forall w | w in ws :: WellWord(w)
    ensures WellWord(ws[0])
    ensures LastPolicy(ws, norm) ==
      LastPolicy(ws[1..], match PolicyOf(ws[0]) case Some(n) => n case None => norm)
    ensures LastGroup(ws, group) == LastGroup(ws[1..], if ws[0].By? then ws[0].group else group)
  {
    hide PolicyOf, WellWord;
    assert ws[0] in ws && forall w | w in ws[1..] :: w in ws;
    if |ws| > 1 {
      var front := ws[..|ws|-1];
      assert ws[1..][..|ws|-2] == front[1..] && ws[1..][|ws|-2] == ws[|ws|-1] && front[0] == ws[0];
      assert forall w | w in front :: w in ws;
      LastOfMore(front, norm, group);
    }
  }

  predicate NoNormWord(x: string)
  {
    && NextWord(x) != "RAW" && NextWord(x) != "STDLINEAR" && NextWord(x) != "GENLINEAR" && NextWord(x) != "QUANTILE"
    && NextWord(x) != "SCALE" && NextWord(x) != "BYCLASS" && NextWord(x) != "BYSECTION"
  }

  lemma WordsEnd(norm: Norm, group: Group, x: string, e: nat)
    requires NoNormWord(x)
    ensures ReadNormWords(norm, group, In(x, None, e)) == (norm, group, false, Ahead(x, e))
  {
    hide NextWord, Ahead, CheckToken, ReadNumber;
    CheckMiss(x, "RAW", e);
    CheckMiss(x, "STDLINEAR", e);
    CheckMiss(x, "GENLINEAR", e);
    CheckMiss(x, "QUANTILE", e);
    CheckMiss(x, "SCALE", e);
    CheckMiss(x, "BYCLASS", e);
    CheckMiss(x, "BYSECTION", e);
  }

  lemma GenLinearRead(mean: string, stddev: string, b: string, y: string, norm: Norm, group: Group, e: nat)
    requires IsBlank(b) && b != "" && IsNumber(mean) && IsNumber(stddev) && EndsWord(y)
    ensures ReadNormWords(norm, group, In(PutWord(GenLinear(mean, stddev), b, y), None, e)) ==
      NormFound(ReadNormWords(Linear(Scan(mean).value, Scan(stddev).value), group, In(y, None, e)))
  {
    hide IsBlank, IsWord, Scan, Look, NextWord, ReadNumber;
    BlankEnds(b, mean + (b + (stddev + y)));
    BlankEnds(b, stddev + y);
    KeywordRead("GENLINEAR", b, b + (mean + (b + (stddev + y))), e);
    TokenNumber(b, mean, b + (stddev + y), e, 0);
    TokenNumber(b, stddev, y, e, MILLION);
  }

  lemma ScaleRead(scale: string, b: string, y: string, norm: Norm, group: Group, e: nat)
    requires IsBlank(b) && b != "" && IsNumber(scale) && EndsWord(y)
    ensures ReadNormWords(norm, group, In(PutWord(ScaleTo(scale), b, y), None, e)) ==
      NormFound(ReadNormWords(Scale(Scan(scale).value), group, In(y, None, e)))
  {
    hide IsBlank, IsWord, Scan, Look, NextWord, ReadNumber;
    BlankEnds(b, scale + y);
    KeywordRead("SCALE", b, b + (scale + y), e);
    TokenNumber(b, scale, y, e, 0);
  }

  lemma GroupRead(g: Group, b: string, y: string, norm: Norm, group: Group, e: nat)
    requires IsBlank(b) && EndsWord(y)
    ensures ReadNormWords(norm, group, In(PutWord(By(g), b, y), None, e)) ==
      NormFound(ReadNormWords(norm, g, In(y, None, e)))
  {
    hide IsBlank, IsWord, Look, NextWord, ReadNumber, CheckToken;
    var key := if g.ByClass? then "BYCLASS" else "BYSECTION";
    KeywordSeen(key, "RAW", b, y, e);
    KeywordSeen(key, "STDLINEAR", b, y, e);
    KeywordSeen(key, "GENLINEAR", b, y, e);
    KeywordSeen(key, "QUANTILE", b, y, e);
    KeywordSeen(key, "SCALE", b, y, e);
    KeywordSeen(key, "BYCLASS", b, y, e);
    KeywordSeen(key, "BYSECTION", b, y, e);
  }

  lemma PlainRead(b: string, y: string, norm: Norm, group: Group, e: nat)
    requires IsBlank(b) && EndsWord(y)
    ensures ReadNormWords(norm, group, In(b + ("RAW" + y), None, e)) ==
      NormFound(ReadNormWords(Raw, group, In(y, None, e)))
    ensures ReadNormWords(norm, group, In(b + ("STDLINEAR" + y), None, e)) ==
      NormFound(ReadNormWords(Linear(0, MILLION), group, In(y, None, e)))
    ensures ReadNormWords(norm, group, In(b + ("QUANTILE" + y), None, e)) ==
      NormFound(ReadNormWords(Quantile, group, In(y, None, e)))
  {
    hide IsBlank, IsWord, Look, NextWord, ReadNumber;
    KeywordRead("RAW", b, y, e);
    KeywordRead("STDLINEAR", b, y, e);
    KeywordRead("QUANTILE", b, y, e);
  }

  /** One word in front of more text. */
  lemma WordRead(w: NormWord, b: string, y: string, norm: Norm, group: Group, e: nat)
    requires IsBlank(b) && b != "" && WellWord(w) && EndsWord(y)
    ensures ReadNormWords(norm, group, In(PutWord(w, b, y), None, e)) ==
      NormFound(ReadNormWords(match PolicyOf(w) case Some(n) => n case None => norm,
                              if w.By? then w.group else group, In(y, None, e)))
  {
    hide IsBlank, Scan, ReadNormWords, NormFound, IsNumber;
    match w
    case RawWord => PlainRead(b, y, norm, group, e);
    case StdLinear => PlainRead(b, y, norm, group, e);
    case QuantileWord => PlainRead(b, y, norm, group, e);
    case By(g) => GroupRead(g, b, y, norm, group, e);
    case GenLinear(mean, stddev) => GenLinearRead(mean, stddev, b, y, norm, group, e);
    case ScaleTo(scale) => ScaleRead(scale, b, y, norm, group, e);
  }

  lemma BlankEnds(b: string, x: string)
    requires IsBlank(b) && b != ""
    ensures EndsWord(b + x)
  {
    assert b[0] in b;
  }

  /** Whatever is asked for, a keyword is seen, and found if it is the one asked for. */
  lemma KeywordRead(key: string, b: string, y: string, e: nat)
    requires IsBlank(b) && EndsWord(y)
    requires key in ["RAW", "STDLINEAR", "GENLINEAR", "QUANTILE", "SCALE", "BYCLASS", "BYSECTION"]
    ensures Look(In(b + (key + y), None, e)) == In(y, Some(key), e) == Look(In(y, Some(key), e))
  {
    assert IsWord(key);
    WordAhead(b, key, y, e);
  }

  lemma KeywordSeen(key: string, other: string, b: string, y: string, e: nat)
    requires IsBlank(b) && EndsWord(y)
    requires key in ["RAW", "STDLINEAR", "GENLINEAR", "QUANTILE", "SCALE", "BYCLASS", "BYSECTION"]
    ensures var st := In(y, Some(key), e);
      && CheckToken(In(b + (key + y), None, e), other) == (key == other, if key == other then st.Flush() else st)
      && CheckToken(st, other) == (key == other, if key == other then st.Flush() else st)
  {
    hide Look;
    KeywordRead(key, b, y, e);
  }

  lemma WordsStart(ws: seq<NormWord>, b: string, x: string)
    requires IsBlank(b) && b != "" && EndsWord(x)
    ensures EndsWord(PutWords(ws, b, x))
  {
    hide EndsWord;
    if ws == [] {
      assert PutWords(ws, b, x) == x;
    } else {
      WordStarts(ws[0], b, PutWords(ws[1..], b, x));
      assert PutWords(ws, b, x) == PutWord(ws[0], b, PutWords(ws[1..], b, x));
    }
  }

  lemma WordStarts(w: NormWord, b: string, y: string)
    requires IsBlank(b) && b != ""
    ensures EndsWord(PutWord(w, b, y))
  {
    assert b[0] in b && PutWord(w, b, y)[0] == b[0];
  }

  /**
   * Any words of a NORMALIZE line, in any order and number: the last policy and the last group are the ones that count.
   */
  lemma {:induction false} NormWordsText(ws: seq<NormWord>, b: string, x: string, norm: Norm, group: Group, e: nat)
    requires IsBlank(b) && b != "" && (forall w | w in ws :: WellWord(w)) && EndsWord(x) && NoNormWord(x)
    ensures ReadNormWords(norm, group, In(PutWords(ws, b, x), None, e)) ==
      (LastPolicy(ws, norm), LastGroup(ws, group), ws != [], Ahead(x, e))
    decreases |ws|
  {
    hide PutWord, PolicyOf, WellWord, ReadNormWords, NoNormWord, IsBlank, EndsWord, Ahead;
    if ws == [] {
      WordsEnd(norm, group, x, e);
    } else {
      assert ws[0] in ws && forall w | w in ws[1..] :: w in ws;
      WordsStart(ws[1..], b, x);
      WordRead(ws[0], b, PutWords(ws[1..], b, x), norm, group, e);
      NormWordsText(ws[1..], b, x, match PolicyOf(ws[0]) case Some(n) => n case None => norm,
        if ws[0].By? then ws[0].group else group, e);
      LastOfMore(ws, norm, group);
    }
  }

  lemma LineEndNoWord(k: string, e: nat)
    ensures NoNormWord("\n" + k) && Ahead("\n" + k, e) == In("\n" + k, None, e) && EndsWord("\n" + k)
    ensures NextWord("\n" + k) == ""
  {
    var x := "\n" + k;
    assert x[0] == '\n' && SkipBlank(x) == x && Word(x) == "" && x[0..] == x;
  }

  // ----- the optional lines of an assignment -----

  datatype OptionLine = WeightLine(weight: string) | NormalizeLine(words: seq<NormWord>) | MaximumLine(max: string)

  predicate WellOption(o: OptionLine)
  {
    match o
    case WeightLine(t) => IsNumber(t)
    case MaximumLine(t) => IsNumber(t)
    case NormalizeLine(ws) => ws != [] && forall w | w in ws :: WellWord(w)
  }

  function PutOption(o: OptionLine, b: string, k: string): string
  {
    match o
    case WeightLine(t) => b + ("WEIGHT" + (b + (t + ("\n" + k))))
    case MaximumLine(t) => b + ("MAXIMUM" + (b + (t + ("\n" + k))))
    case NormalizeLine(ws) => b + ("NORMALIZE" + PutWords(ws, b, "\n" + k))
  }

  function PutOptions(os: seq<OptionLine>, b: string, k: string): string
  {
    if os == [] then k else PutOption(os[0], b, PutOptions(os[1..], b, k))
  }

  /** What a line changes in the assignment. */
  function WithOption(a: Assignment, o: OptionLine): Assignment
    requires WellOption(o)
  {
    match o
    case WeightLine(t) => a.(weighting := Weight(Scan(t).value))
    case MaximumLine(t) => a.(max := Scan(t).value)
    case NormalizeLine(ws) => a.(norm := LastPolicy(ws, a.norm), group := LastGroup(ws, a.group))
  }

  function WithOptions(a: Assignment, os: seq<OptionLine>): Assignment
    requires forall o | o in os :: WellOption(o)
    decreases |os|
  {
    if os == [] then a
    else
      assert os[0] in os && forall o | o in os[1..] :: o in os;
      WithOptions(WithOption(a, os[0]), os[1..])
  }

  lemma OptionRead(a: Assignment, o: OptionLine, b: string, k: string, e: nat)
    requires IsBlank(b) && b != "" && WellOption(o) && LineStart(k)
    ensures ReadOptions(a, In(PutOption(o, b, k), None, e)) == ReadOptions(WithOption(a, o), In(k, None, e))
  {
    hide Scan, ReadNormWords, WellWord, NextWord, IsBlank, Ahead, LastPolicy, PutWords, ReadNumber, ReadWeight,
      ExpectNewline, Look;
    match o {
      case WeightLine(t) => NumberLine("WEIGHT", t, b, k, e, 0);
      case MaximumLine(t) => NumberLine("MAXIMUM", t, b, k, e, a.max);
      case NormalizeLine(ws) =>
        LineEndNoWord(k, e);
        WordsStart(ws, b, "\n" + k);
        OptionWord("NORMALIZE", b, PutWords(ws, b, "\n" + k), e);
        NormWordsText(ws, b, "\n" + k, a.norm, a.group, e);
        PlainEnd(k, e);
    }
  }

  lemma OptionWord(key: string, b: string, y: string, e: nat)
    requires IsBlank(b) && EndsWord(y) && key in ["WEIGHT", "NORMALIZE", "MAXIMUM"]
    ensures Look(In(b + (key + y), None, e)) == In(y, Some(key), e) == Look(In(y, Some(key), e))
  {
    assert IsWord(key);
    WordAhead(b, key, y, e);
  }

  lemma PlainEnd(k: string, e: nat)
    requires LineStart(k)
    ensures ExpectNewline(In("\n" + k, None, e)) == Got((), In(k, None, e))
  {
    assert "" + ("\n" + k) == "\n" + k;
    LineEnd("", k, e);
  }

  lemma NumberLine(key: string, t: string, b: string, k: string, e: nat, default: int)
    requires IsBlank(b) && b != "" && IsNumber(t) && LineStart(k) && key in ["WEIGHT", "NORMALIZE", "MAXIMUM"]
    ensures var y := b + (t + ("\n" + k));
      && Look(In(b + (key + y), None, e)) == In(y, Some(key), e) == Look(In(y, Some(key), e))
      && ReadNumber(In(y, None, e), default) == (Scan(t).value, In("\n" + k, None, e))
      && ReadWeight(In(y, None, e)) == (Weight(Scan(t).value), In("\n" + k, None, e))
    ensures ExpectNewline(In("\n" + k, None, e)) == Got((), In(k, None, e))
  {
    hide Scan, Look, ReadNumber, ReadWeight, ExpectNewline, IsWord;
    LineEndNoWord(k, e);
    BlankEnds(b, t + ("\n" + k));
    OptionWord(key, b, b + (t + ("\n" + k)), e);
    TokenNumber(b, t, "\n" + k, e, default);
    PlainEnd(k, e);
  }

  lemma OptionsStart(os: seq<OptionLine>, b: string, k: string)
    requires IsBlank(b) && b != "" && LineStart(k)
    ensures LineStart(PutOptions(os, b, k))
  {
    if os != [] { assert b[0] in b && PutOptions(os, b, k)[0] == b[0]; }
  }

  /** Optional lines in any order and number, each with any words it may have: every line changes its own part. */
  lemma {:induction false} OptionsText(a: Assignment, os: seq<OptionLine>, b: string, k: string, e: nat)
    requires IsBlank(b) && b != "" && (forall o | o in os :: WellOption(o)) && LineStart(k)
    requires NextWord(k) !in ["WEIGHT", "NORMALIZE", "MAXIMUM"]
    ensures ReadOptions(a, In(PutOptions(os, b, k), None, e)) == Got(WithOptions(a, os), Ahead(k, e))
    decreases |os|
  {
    hide PutOption, WithOption, WellOption, ReadOptions, NextWord, IsBlank, Ahead;
    if os == [] {
      NoOption(a, k, e);
    } else {
      assert os[0] in os && forall o | o in os[1..] :: o in os;
      OptionsStart(os[1..], b, k);
      OptionRead(a, os[0], b, PutOptions(os[1..], b, k), e);
      OptionsText(WithOption(a, os[0]), os[1..], b, k, e);
    }
  }

  lemma NoOption(a: Assignment, k: string, e: nat)
    requires NextWord(k) !in ["WEIGHT", "NORMALIZE", "MAXIMUM"]
    ensures ReadOptions(a, In(k, None, e)) == Got(a, Ahead(k, e))
  {
    hide NextWord, Ahead, CheckToken;
    CheckMiss(k, "WEIGHT", e);
    CheckMiss(k, "NORMALIZE", e);
    CheckMiss(k, "MAXIMUM", e);
  }

  /** A weight or a maximum that is not a number: two errors, no weight, and the maximum from before. */
  lemma BadOption(a: Assignment, t: string, l: string, b: string, k: string, e: nat)
    requires IsBlank(b) && b != "" && IsWord(t) && Scan(t).None? && '\n' !in l && EndsWord(l + ("\n" + k))
    ensures ReadOptions(a, In(b + ("WEIGHT" + (b + (t + (l + ("\n" + k))))), None, e)) ==
      ReadOptions(a.(weighting := NoWeight), In(k, None, e + 2))
    ensures ReadOptions(a, In(b + ("MAXIMUM" + (b + (t + (l + ("\n" + k))))), None, e)) ==
      ReadOptions(a, In(k, None, e + 2))
  {
    hide Scan, ReadNumber, ReadWeight, ExpectNewline, Look, IsBlank;
    var y := b + (t + (l + ("\n" + k)));
    assert t[0] in t;
    BlankEnds(b, t + (l + ("\n" + k)));
    OptionWord("WEIGHT", b, y, e);
    OptionWord("MAXIMUM", b, y, e);
    NoNumber(b, t, l + ("\n" + k), e, a.max, a.norm);
    LineLeftover(t, l, k, e + 1);
    assert a.(max := a.max) == a;
  }

  /** A NORMALIZE line without any of its words counts an error and makes the assignment RAW by class. */
  lemma EmptyNormalize(norm: Norm, group: Group, x: string, e: nat)
    requires NoNormWord(x)
    ensures ReadNorm(norm, group, In(x, None, e)) == (Raw, ByClass, Ahead(x, e).Error())
  {
    hide ReadNormWords, Ahead, NoNormWord;
    WordsEnd(norm, group, x, e);
  }

  // ----- grades -----

  lemma GradeWordRead(key: string, b: string, y: string, e: nat)
    requires IsBlank(b) && EndsWord(y) && key in ["USERAW", "USENORM", "USELIKEAVG", "USECLASSAVG"]
    ensures Look(In(b + (key + y), None, e)) == In(y, Some(key), e) == Look(In(y, Some(key), e))
  {
    assert IsWord(key);
    WordAhead(b, key, y, e);
  }

  /** A substitution keyword with its code, which is the rest of the line. */
  lemma CodeRead(b: string, code: string, k: string, norm: Norm, e: nat)
    requires IsBlank(b) && b != "" && IsLine(code)
    ensures ReadGrade(norm, In(b + ("USELIKEAVG" + (b + (code + ("\n" + k)))), None, e)) ==
      Got(UseLikeAvg(code), In("\n" + k, None, e))
    ensures ReadGrade(norm, In(b + ("USECLASSAVG" + (b + (code + ("\n" + k)))), None, e)) ==
      Got(UseClassAvg(code), In("\n" + k, None, e))
  {
    hide IsBlank, IsLine, Look, AdvanceEol, ReadGradeNumber, ReadNormScore;
    var y := b + (code + ("\n" + k));
    BlankEnds(b, code + ("\n" + k));
    GradeWordRead("USELIKEAVG", b, y, e);
    GradeWordRead("USECLASSAVG", b, y, e);
    EolHit(b, code, k, e);
  }

  /** A number for which a code is given; under USENORM it is the normalized score whatever the policy. */
  lemma CodedNumberRead(b: string, t: string, code: string, k: string, norm: Norm, e: nat)
    requires IsBlank(b) && b != "" && IsNumber(t) && IsLine(code)
    ensures var f := Scan(t).value;
      && ReadGrade(norm, In(b + ("USERAW" + (b + (t + (b + (code + ("\n" + k)))))), None, e)) ==
           Got(UseRaw(f, code), In("\n" + k, None, e))
      && var inside := (norm.Quantile? ==> 0 <= f <= 100_000_000) && (norm.Scale? ==> 0 <= f <= norm.scale);
         ReadGrade(norm, In(b + ("USENORM" + (b + (t + (b + (code + ("\n" + k)))))), None, e)) ==
           Got(UseNorm(f, f, f, code), In("\n" + k, None, if inside then e else e + 1))
  {
    hide IsBlank, IsLine, IsNumber, Scan, Look, AdvanceEol, ReadGradeNumber, ReadNormScore;
    var z := b + (code + ("\n" + k));
    BlankEnds(b, code + ("\n" + k));
    BlankEnds(b, t + z);
    GradeWordRead("USERAW", b, b + (t + z), e);
    GradeWordRead("USENORM", b, b + (t + z), e);
    TokenNumber(b, t, z, e, 0);
    NormScoreChecked(b, t, z, norm, e);
    EolHit(b, code, k, e);
    EolHit(b, code, k, e + 1);
  }

  /** A number alone is a valid grade. */
  lemma PlainGradeRead(b: string, t: string, x: string, norm: Norm, e: nat)
    requires IsBlank(b) && IsNumber(t) && EndsWord(x)
    ensures ReadGrade(norm, In(b + (t + x), None, e)) == Got(Valid(Scan(t).value), In(x, None, e))
  {
    hide IsBlank, IsWord, Scan, ReadCode, ReadNormScore;
    NumberNotKeyword(t);
    WordAhead(b, t, x, e);
  }

  lemma NumberNotKeyword(t: string)
    requires IsNumber(t)
    ensures t[0] != 'U'
  {
  }

  // ----- scores and the end of the file -----

  /** A score for an assignment that is not declared, or for none, stops the program. */
  lemma UndeclaredStops(asgts: seq<Assignment>, b: string, name: string, x: string, e: nat)
    requires IsBlank(b) && b != "" && IsWord(name) && EndsWord(x)
    requires forall a | a in asgts :: a.name != name
    ensures ReadScores(asgts, In(b + ("SCORE" + (b + (name + x))), None, e)) == Fatal
  {
    hide ReadGrade, ExpectNewline;
    assert IsWord("SCORE");
    BlankEnds(b, name + x);
    CheckHit(b, "SCORE", b + (name + x), e);
    WordAhead(b, name, x, e);
  }

  /** Reading a file without errors takes all of it. */
  lemma NothingLeft(text: string)
    ensures var r := ReadFile(text); r.Got? && r.st.errors == 0 ==> r.st == In("", None, 0)
  {
    hide ReadCourse, GobbleBlankLines;
  }
}
