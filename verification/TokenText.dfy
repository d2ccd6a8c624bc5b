/** What the tokenizer makes of the pieces that the printed text is put together from. */
module TokenText {
  import opened Options
  import opened Numbers
  import opened Tokens

  predicate IsBlank(b: string)
  {
    forall c | c in b :: IsWhitespace(c)
  }

  /** A string that is read back as one token. */
  predicate IsWord(w: string)
  {
    w != "" && forall c | c in w :: !IsWhitespace(c) && c != '\n'
  }

  /** A string that is read back as the rest of a line. */
  predicate IsLine(l: string)
  {
    (forall c | c in l :: c != '\n') && (l != "" ==> !IsWhitespace(l[0]))
  }

  predicate EndsWord(x: string)
  {
    x == "" || IsWhitespace(x[0]) || x[0] == '\n'
  }

  /** Text that no blank-line skipping touches. */
  predicate IsClean(k: string)
  {
    k == "" || k[0] == ' '
  }

  lemma {:induction false} SkipBlankOver(b: string, s: string)
    requires IsBlank(b) && (s == "" || !IsWhitespace(s[0]))
    ensures SkipBlank(b + s) == s
  {
    if b == "" { assert b + s == s; } else {
      assert (b + s)[1..] == b[1..] + s;
      SkipBlankOver(b[1..], s);
    }
  }

  lemma {:induction false} WordOf(w: string, x: string)
    requires (forall c | c in w :: !IsWhitespace(c) && c != '\n') && EndsWord(x)
    ensures Word(w + x) == w
  {
    if w == "" { assert w + x == x; } else {
      assert (w + x)[1..] == w[1..] + x;
      WordOf(w[1..], x);
    }
  }

  lemma {:induction false} LineOf(l: string, k: string)
    requires forall c | c in l :: c != '\n'
    ensures Line(l + ("\n" + k)) == l
  {
    if l == "" {
      var s := "\n" + k;
      assert s[0] == '\n' && l + s == s;
      assert Line(s) == "";
    } else {
      assert l[0] in l && forall c | c in l[1..] :: c in l;
      assert (l + ("\n" + k))[1..] == l[1..] + ("\n" + k);
      LineOf(l[1..], k);
    }
  }

  /** The state after looking for a token at the start of k. */
  function Ahead(k: string, e: nat): In
  {
    Look(In(k, None, e))
  }

  function NextWord(k: string): string
  {
    Word(SkipBlank(k))
  }

  lemma WordAhead(b: string, w: string, x: string, e: nat)
    requires IsBlank(b) && IsWord(w) && EndsWord(x)
    ensures Ahead(b + (w + x), e) == In(x, Some(w), e) && NextWord(b + (w + x)) == w
  {
    assert (w + x)[0] == w[0] && w[0] in w;
    SkipBlankOver(b, w + x);
    WordOf(w, x);
    assert (w + x)[|w|..] == x;
  }

  lemma {:induction false} SkipBlankTwice(s: string)
    ensures SkipBlank(SkipBlank(s)) == SkipBlank(s)
  {
    if s != "" && IsWhitespace(s[0]) { SkipBlankTwice(s[1..]); }
  }

  /** Looking again changes nothing. */
  lemma LookTwice(st: In)
    ensures Look(Look(st)) == Look(st)
  {
    SkipBlankTwice(st.rest);
    var s := SkipBlank(st.rest);
    assert Word(s) == "" ==> s[|Word(s)|..] == s;
  }

  lemma CheckHit(b: string, key: string, x: string, e: nat)
    requires IsBlank(b) && IsWord(key) && EndsWord(x)
    ensures CheckToken(In(b + (key + x), None, e), key) == (true, In(x, None, e))
  {
    WordAhead(b, key, x, e);
  }

  lemma CheckMiss(k: string, key: string, e: nat)
    requires NextWord(k) != key && key != ""
    ensures CheckToken(In(k, None, e), key) == (false, Ahead(k, e))
    ensures CheckToken(Ahead(k, e), key) == (false, Ahead(k, e))
  {
    LookTwice(In(k, None, e));
  }

  lemma WordHit(b: string, w: string, x: string, e: nat)
    requires IsBlank(b) && IsWord(w) && EndsWord(x)
    ensures ReadWord(In(b + (w + x), None, e)) == (w, In(x, None, e))
  {
    WordAhead(b, w, x, e);
  }

  lemma NewlineHit(k: string, e: nat)
    requires IsClean(k)
    ensures ExpectNewline(In("\n" + k, None, e)) == Got((), In(k, None, e))
  {
    assert ("\n" + k)[1..] == k;
  }

  lemma EolHit(b: string, l: string, k: string, e: nat)
    requires IsBlank(b) && IsLine(l)
    ensures AdvanceEol(In(b + (l + ("\n" + k)), None, e)) == Got((), In("\n" + k, Some(l), e))
  {
    assert l != "" ==> (l + ("\n" + k))[0] == l[0];
    assert l == "" ==> l + ("\n" + k) == "\n" + k;
    SkipBlankOver(b, l + ("\n" + k));
    LineOf(l, k);
    assert (l + ("\n" + k))[|l|..] == "\n" + k;
  }

  lemma NameHit(b: string, l: string, k: string, e: nat)
    requires IsBlank(b) && IsLine(l) && IsClean(k)
    ensures ReadName(In(b + (l + ("\n" + k)), None, e)) == Got(l, In(k, None, e))
  {
    EolHit(b, l, k, e);
    NewlineHit(k, e);
  }

  lemma FormatIsWord(n: int)
    ensures IsWord(Format(n))
  {
    FormatChars(n);
  }

  /** Keywords that can follow the text of a course's parts. */
  predicate NextIn(k: string, words: set<string>)
  {
    IsClean(k) && NextWord(k) in words
  }
}
