/** hw2/src/read.c: the token functions, working on the open file and the readahead buffer. */
module TokenStream {
  import opened Options
  import opened Tokens

  /** A step that yields r in state st does what `step` says; stopping the program yields nothing. */
  predicate Does<T(==)>(step: Res<T>, r: Option<T>, st: In)
  {
    match step
    case Fatal => r.None?
    case Got(value, st') => r == Some(value) && st == st'
  }

  /** The file from a character read on, or from its end. */
  function From(c: Option<char>, rest: string): string
  {
    if c.Some? then [c.value] + rest else rest
  }

  lemma FromSteps(c: char, s: string)
    ensures SkipBlank([c] + s) == if IsWhitespace(c) then SkipBlank(s) else [c] + s
    ensures Word([c] + s) == if !IsWhitespace(c) && c != '\n' then [c] + Word(s) else ""
    ensures Line([c] + s) == if c != '\n' then [c] + Line(s) else ""
  {
    assert ([c] + s)[1..] == s;
  }

  /** buf and x make s, and whatever token or line x starts with completes the one s starts with. */
  predicate WordPart(buf: string, x: string, s: string)
  {
    buf + x == s && buf + Word(x) == Word(s)
  }

  predicate LinePart(buf: string, x: string, s: string)
  {
    buf + x == s && buf + Line(x) == Line(s)
  }

  lemma PartsBegin(s: string)
    ensures WordPart("", s, s) && LinePart("", s, s)
  {
  }

  lemma WordPartStep(buf: string, c: char, x: string, s: string)
    requires WordPart(buf, [c] + x, s)
    ensures !IsWhitespace(c) && c != '\n' ==> WordPart(buf + [c], x, s)
    ensures IsWhitespace(c) || c == '\n' ==> buf == Word(s) && s[|buf|..] == [c] + x
  {
    hide Word;
    FromSteps(c, x);
    Moved(buf, c, x, Word(x));
  }

  lemma Moved(buf: string, c: char, x: string, w: string)
    ensures buf + ([c] + x) == (buf + [c]) + x && buf + ([c] + w) == (buf + [c]) + w
    ensures buf + "" == buf && (buf + ([c] + x))[|buf|..] == [c] + x && (buf + ([c] + x))[|buf|+1..] == x
  {
  }

  lemma LinePartStep(buf: string, c: char, x: string, s: string)
    requires LinePart(buf, [c] + x, s)
    ensures c != '\n' ==> LinePart(buf + [c], x, s)
    ensures c == '\n' ==> buf == Line(s) && |buf| < |s| && s[|buf|..] == [c] + x && s[|buf|+1..] == x
  {
    hide Line;
    FromSteps(c, x);
    Moved(buf, c, x, Line(x));
  }

  lemma PartsEnd(buf: string, s: string)
    ensures WordPart(buf, "", s) ==> buf == s == Word(s) && s[|buf|..] == ""
    ensures LinePart(buf, "", s) ==> buf == s == Line(s)
  {
    assert buf + "" == buf;
  }

  class Input {
    /** What is left of the file. */
    var rest: string
    /** The characters from tokenptr to tokenend, with the terminating NUL. */
    var tokenbuf: string
    var errors: nat

    ghost predicate Valid()
      reads this
    {
      tokenbuf != "" ==> tokenbuf[|tokenbuf|-1] == '\0'
    }

    ghost function State(): In
      reads this
    {
      In(rest, if tokenbuf == "" then None else Some(tokenbuf[..|tokenbuf|-1]), errors)
    }

    constructor (text: string)
      ensures Valid() && State() == In(text, None, 0)
    {
      rest, tokenbuf, errors := text, "", 0;
    }

    predicate IsToken()
      reads this
    {
      tokenbuf != ""
    }

    /** The C string in the buffer. */
    function Token(): (t: string)
      requires IsToken()
      reads this
      ensures State().tok == Some(t)
    {
      tokenbuf[..|tokenbuf|-1]
    }

    method Error()
      requires Valid()
      modifies this
      ensures Valid() && State() == old(State()).Error()
    {
      errors := errors + 1;
    }

    method FlushToken()
      modifies this
      ensures Valid() && State() == old(State()).Flush()
    {
      tokenbuf := "";
    }

    method Getc() returns (c: Option<char>)
      modifies this`rest
      ensures old(rest) == From(c, rest) && (c.None? ==> rest == "")
    {
      if rest == "" { c := None; } else { c, rest := Some(rest[0]), rest[1..]; }
    }

    method Ungetc(c: Option<char>)
      modifies this`rest
      ensures rest == From(c, old(rest))
    {
      rest := From(c, rest);
    }

    method Store(c: char)
      modifies this`tokenbuf
      ensures tokenbuf == old(tokenbuf) + [c] && tokenbuf != ""
      ensures tokenbuf[..|tokenbuf|-1] == old(tokenbuf)
    {
      tokenbuf := tokenbuf + [c];
    }

    method GobbleWhitespace()
      requires Valid()
      modifies this`rest
      ensures Valid() && State() == Tokens.GobbleWhitespace(old(State()))
    {
      if IsToken() { return; }
      var c := Getc();
      while c.Some? && IsWhitespace(c.value)
        invariant SkipBlank(From(c, rest)) == SkipBlank(old(rest)) && (c.None? ==> rest == "")
        decreases |From(c, rest)|
      {
        FromSteps(c.value, rest);
        c := Getc();
      }
      if c.Some? { FromSteps(c.value, rest); }
      Ungetc(c);
    }

    method NextChar() returns (r: Option<char>)
      requires Valid()
      modifies this
      ensures Valid() && Does(Tokens.NextChar(old(State())), r, State())
      ensures !old(IsToken()) ==> old(rest) == if r.Some? then [r.value] + rest else ""
    {
      if IsToken() {
        r, tokenbuf := Some(tokenbuf[0]), tokenbuf[1..];
        assert tokenbuf != "" ==> tokenbuf[..|tokenbuf|-1] == old(tokenbuf[..|tokenbuf|-1])[1..];
        return;
      }
      FlushToken();
      r := Getc();
    }

    /** Appends the token the file goes on with. */
    method StoreWord()
      requires tokenbuf == ""
      modifies this`rest, this`tokenbuf
      ensures tokenbuf == Word(old(rest)) && rest == old(rest)[|tokenbuf|..]
    {
      hide Word, WordPart;
      PartsBegin(rest);
      var c := Getc();
      while c.Some? && !IsWhitespace(c.value) && c.value != '\n'
        invariant WordPart(tokenbuf, From(c, rest), old(rest)) && (c.None? ==> rest == "")
        decreases |From(c, rest)|
      {
        WordPartStep(tokenbuf, c.value, rest, old(rest));
        Store(c.value);
        c := Getc();
      }
      if c.Some? { WordPartStep(tokenbuf, c.value, rest, old(rest)); } else { PartsEnd(tokenbuf, old(rest)); }
      Ungetc(c);
    }

    method AdvanceToken()
      requires Valid()
      modifies this
      ensures Valid() && State() == Tokens.AdvanceToken(old(State()))
    {
      if IsToken() { Error(); }
      FlushToken();
      GobbleWhitespace();
      StoreWord();
      if tokenbuf != "" { Store('\0'); }
    }

    /** Appends the rest of the line, up to its end or that of the file. */
    method StoreLine() returns (ended: bool)
      requires tokenbuf == ""
      modifies this`rest, this`tokenbuf
      ensures tokenbuf == Line(old(rest)) && ended == (|tokenbuf| < |old(rest)|) && rest == old(rest)[|tokenbuf|..]
    {
      hide Line, LinePart;
      PartsBegin(rest);
      var c := Getc();
      while c.Some? && c.value != '\n'
        invariant LinePart(tokenbuf, From(c, rest), old(rest)) && (c.None? ==> rest == "")
        decreases |From(c, rest)|
      {
        LinePartStep(tokenbuf, c.value, rest, old(rest));
        Store(c.value);
        c := Getc();
      }
      if c.Some? { LinePartStep(tokenbuf, c.value, rest, old(rest)); } else { PartsEnd(tokenbuf, old(rest)); }
      Ungetc(c);
      ended := c.Some?;
    }

    method AdvanceEol() returns (r: Option<()>)
      requires Valid()
      modifies this
      ensures Valid() && Does(Tokens.AdvanceEol(old(State())), r, State())
    {
      if IsToken() { Error(); }
      FlushToken();
      GobbleWhitespace();
      var ended := StoreLine();
      Store('\0');
      return if ended then Some(()) else None;
    }

    /** Scans ahead for a newline. */
    method SkipLine() returns (r: Option<()>)
      requires Valid() && !IsToken()
      modifies this
      ensures Valid() && Does(Tokens.SkipLine(old(State())), r, State())
    {
      hide Line, LinePart, SkipBlank;
      ghost var s, read := rest, "";
      PartsBegin(s);
      var c := NextChar();
      while c.Some? && c.value != '\n'
        invariant Valid() && (c.None? ==> LinePart(read, "", s))
        invariant c.Some? ==> State() == In(rest, None, old(errors)) && LinePart(read, [c.value] + rest, s)
        decreases c.Some?, |rest|
      {
        LinePartStep(read, c.value, rest, s);
        read := read + [c.value];
        c := NextChar();
      }
      if c.Some? { LinePartStep(read, c.value, rest, s); } else { PartsEnd(read, s); }
      return if c.Some? then Some(()) else None;
    }

    /** Skips a comment, of which the # has been read. */
    method SkipComment() returns (r: Option<()>)
      modifies this`rest
      ensures r.Some? <==> |Line(old(rest))| < |old(rest)|
      ensures r.Some? ==> rest == old(rest)[|Line(old(rest))|+1..]
    {
      hide Line, LinePart;
      ghost var s, read := rest, "";
      PartsBegin(s);
      var c := Getc();
      while c != Some('\n')
        invariant LinePart(read, From(c, rest), s) && (c.None? ==> rest == "")
        decreases |From(c, rest)|
      {
        if c.None? { PartsEnd(read, s); return None; }
        LinePartStep(read, c.value, rest, s);
        read := read + [c.value];
        c := Getc();
      }
      LinePartStep(read, c.value, rest, s);
      return Some(());
    }

    method GobbleBlankLines() returns (r: Option<()>)
      requires Valid()
      modifies this`rest
      ensures Valid() && Does(Tokens.GobbleBlankLines(old(State())), r, State())
    {
      if IsToken() { return Some(()); }
      while true
        invariant Tokens.GobbleBlankLines(State()) == Tokens.GobbleBlankLines(old(State()))
        decreases |rest|
      {
        ghost var s := rest;
        var c := Getc();
        if c == Some('#') {
          FromSteps('#', rest);
          var _ :- SkipComment();
          continue;
        }
        Ungetc(c);
        c := Getc();
        if c == Some('\n') {
          GobbleWhitespace();
          continue;
        }
        Ungetc(c);
        return Some(());
      }
    }

    method ExpectNewline() returns (r: Option<()>)
      requires Valid()
      modifies this
      ensures Valid() && Does(Tokens.ExpectNewline(old(State())), r, State())
    {
      hide Tokens.GobbleBlankLines, Tokens.SkipLine, Tokens.GobbleWhitespace;
      GobbleWhitespace();
      var c :- NextChar();
      if c == '\n' {
        r := GobbleBlankLines();
      } else {
        Error();
        FlushToken();
        r := SkipLine();
      }
    }

    method ExpectToken(key: string)
      requires Valid()
      modifies this
      ensures Valid() && State() == Tokens.ExpectToken(old(State()), key)
    {
      if !IsToken() { AdvanceToken(); }
      if IsToken() && Token() == key { FlushToken(); } else { Error(); }
    }

    method CheckToken(key: string) returns (found: bool)
      requires Valid()
      modifies this
      ensures Valid() && (found, State()) == Tokens.CheckToken(old(State()), key)
    {
      if !IsToken() { AdvanceToken(); }
      if IsToken() && Token() == key { FlushToken(); return true; } else { return false; }
    }
  }
}
