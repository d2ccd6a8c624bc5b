/** hw2/src/read.c: the tokenizer, as functions from one state of the reader to the next. */
module Tokens {
  import opened Options

  /**
   * The reader's state: the input not yet read, the token in the readahead buffer, and the errors counted.
   * A token buffer may hold an empty string (a blank rest of line), which still counts as a token.
   */
  datatype In = In(rest: string, tok: Option<string>, errors: nat) {
    /** What is left to consume. */
    function Left(): nat {
      |rest| + if tok.Some? then |tok.value| else 0
    }

    function Error(): In {
      this.(errors := errors + 1)
    }

    function Flush(): In {
      this.(tok := None)
    }
  }

  /** A reading step either stops the program or yields a value and the next state. */
  datatype Res<+T> = Fatal | Got(value: T, st: In) {
    predicate IsFailure() { Fatal? }
    function PropagateFailure<U>(): Res<U> requires Fatal? { Fatal }
    function Extract(): (T, In) requires Got? { (value, st) }
  }

  predicate IsWhitespace(c: char)
  {
    c == ',' || c == ':' || c == ' ' || c == '\t' || c == '\U{0C}'
  }

  function SkipBlank(s: string): (r: string)
    ensures |r| <= |s|
  {
    if s != "" && IsWhitespace(s[0]) then SkipBlank(s[1..]) else s
  }

  /** The token s starts with. */
  function Word(s: string): (w: string)
    ensures |w| <= |s|
  {
    if s != "" && !IsWhitespace(s[0]) && s[0] != '\n' then [s[0]] + Word(s[1..]) else ""
  }

  /** The rest of the line s starts with. */
  function Line(s: string): (l: string)
    ensures |l| <= |s|
  {
    if s != "" && s[0] != '\n' then [s[0]] + Line(s[1..]) else ""
  }

  function GobbleWhitespace(st: In): (r: In)
    ensures r.Left() <= st.Left()
  {
    if st.tok.Some? then st else st.(rest := SkipBlank(st.rest))
  }

  function GobbleBlankLines(st: In): (r: Res<()>)
    ensures r.Got? ==> r.st.Left() <= st.Left()
    decreases |st.rest|
  {
    if st.tok.Some? || st.rest == "" then Got((), st)
    else if st.rest[0] == '#' then
      var comment := Line(st.rest);
      if |comment| == |st.rest| then Fatal else GobbleBlankLines(st.(rest := st.rest[|comment|+1..]))
    else if st.rest[0] == '\n' then GobbleBlankLines(st.(rest := SkipBlank(st.rest[1..])))
    else Got((), st)
  }

  /** advancetoken; the token buffer stays empty before the end of a line. */
  function AdvanceToken(st: In): (r: In)
    ensures r.Left() <= |st.rest|
  {
    var st1 := if st.tok.Some? then st.Error() else st;
    var s := SkipBlank(st.rest);
    var w := Word(s);
    st1.(rest := s[|w|..], tok := if w == "" then None else Some(w))
  }

  function AdvanceEol(st: In): (r: Res<()>)
    ensures r.Got? ==> r.st.Left() <= |st.rest| && r.st.tok.Some?
  {
    var st1 := if st.tok.Some? then st.Error() else st;
    var s := SkipBlank(st.rest);
    var l := Line(s);
    if |l| == |s| then Fatal else Got((), st1.(rest := s[|l|..], tok := Some(l)))
  }

  /** nextchar; a token's terminating NUL is the last character taken from the buffer. */
  function NextChar(st: In): (r: Res<char>)
    ensures r.Got? ==> r.st.Left() <= st.Left()
  {
    match st.tok
    case Some(t) => if t == "" then Got('\0', st.Flush()) else Got(t[0], st.(tok := Some(t[1..])))
    case None => if st.rest == "" then Fatal else Got(st.rest[0], st.(rest := st.rest[1..]))
  }

  /** Scanning ahead for a newline, from an empty token buffer. */
  function SkipLine(st: In): (r: Res<()>)
    ensures r.Got? ==> r.st.Left() <= st.Left()
  {
    var l := Line(st.rest);
    if |l| == |st.rest| then Fatal else Got((), st.(rest := st.rest[|l|+1..]))
  }

  function ExpectNewline(st: In): (r: Res<()>)
    ensures r.Got? ==> r.st.Left() <= st.Left()
  {
    var (c, st1) :- NextChar(GobbleWhitespace(st));
    if c == '\n' then GobbleBlankLines(st1) else SkipLine(st1.Error().Flush())
  }

  /** A token in the buffer, unless the line ends first. */
  function Look(st: In): (r: In)
    ensures r.Left() <= st.Left()
  {
    if st.tok.Some? then st else AdvanceToken(st)
  }

  function CheckToken(st: In, key: string): (r: (bool, In))
    ensures r.1.Left() <= st.Left()
    ensures r.0 && key != "" ==> r.1.Left() < st.Left()
  {
    var st1 := Look(st);
    if st1.tok == Some(key) then (true, st1.Flush()) else (false, st1)
  }

  function ExpectToken(st: In, key: string): (r: In)
    ensures r.Left() <= st.Left()
  {
    var st1 := Look(st);
    if st1.tok == Some(key) then st1.Flush() else st1.Error()
  }

  /** readid, readsurname and readatype. */
  function ReadWord(st: In): (r: (string, In))
    ensures r.1.Left() <= st.Left()
  {
    var st1 := Look(st);
    match st1.tok
    case Some(t) => (t, st1.Flush())
    case None => ("", st1.Error().Flush())
  }

  function ReadName(st: In): (r: Res<string>)
    ensures r.Got? ==> r.st.Left() <= st.Left()
  {
    var (_, st1) :- AdvanceEol(st);
    var (_, st2) :- ExpectNewline(st1.Flush());
    Got(st1.tok.value, st2)
  }
}
