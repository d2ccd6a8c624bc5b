/** hw5/src/csapp.c: writing a long in a base from 2 to 36. */
module Ltoa {
  /** The 64-bit range of a long. */
  const LONG_MAX: int := 0x7FFF_FFFF_FFFF_FFFF

  predicate IsLong(v: int)
  {
    -LONG_MAX - 1 <= v <= LONG_MAX
  }

  function DigitChar(d: nat): char
    requires d < 36
  {
    if d < 10 then '0' + d as char else 'a' + (d - 10) as char
  }

  /** The digits of the largest base. */
  lemma DigitsInOrder(d: nat)
    requires d < 36
    ensures DigitChar(d) == "0123456789abcdefghijklmnopqrstuvwxyz"[d]
  {
  }

  /** The value of a digit, 36 for any other character. */
  function DigitOf(c: char): (d: nat)
    ensures d <= 36
  {
    if '0' <= c <= '9' then c as nat - '0' as nat
    else if 'a' <= c <= 'z' then c as nat - 'a' as nat + 10
    else 36
  }

  /** Reads a numeral, most significant digit first. */
  function Numeral(s: string, b: nat): int
  {
    if s == "" then 0 else Numeral(s[..|s|-1], b) * b + DigitOf(s[|s|-1])
  }

  /** Reads an optional minus sign and a numeral. */
  function Parse(s: string, b: nat): int
  {
    if s != "" && s[0] == '-' then -Numeral(s[1..], b) else Numeral(s, b)
  }

  /** A numeral in base b without superfluous zeros. */
  predicate Canonical(s: string, b: nat)
  {
    s != "" && (forall c | c in s :: DigitOf(c) < b) && (|s| > 1 ==> s[0] != '0')
  }

  /** The numeral of v, most significant digit first. */
  function ToBase(v: nat, b: nat): (s: string)
    requires 2 <= b <= 36
    ensures s != ""
  {
    if v < b then [DigitChar(v)] else
      Smaller(v, b);
      ToBase(v / b, b) + [DigitChar(v % b)]
  }

  /** The quotient is smaller; the named parts keep the product out of the way. */
  lemma Smaller(v: nat, b: nat)
    requires 2 <= b <= v
    ensures 0 < v / b < v
  {
    var q := v / b;
    assert v == b * q + v % b && v % b < b;
    Doubled(b, q);
  }

  lemma Doubled(b: nat, q: int)
    requires 2 <= b && 0 <= q
    ensures 2 * q <= b * q
  {
  }

  lemma NumeralAppend(s: string, c: char, b: nat)
    ensures Numeral(s + [c], b) == Numeral(s, b) * b + DigitOf(c)
  {
    assert (s + [c])[..|s|] == s;
  }

  lemma DigitBack(d: nat)
    requires d < 36
    ensures DigitOf(DigitChar(d)) == d && (DigitChar(d) == '0' <==> d == 0)
  {
  }

  lemma Divided(v: nat, b: nat)
    requires 2 <= b
    ensures (v / b) * b + v % b == v && 0 <= v % b < b && 0 <= v / b
  {
  }

  /** The same, least significant digit first: the order in which sio_ltoa produces the digits. */
  function LowFirst(v: nat, b: nat): (s: string)
    requires 2 <= b <= 36
    ensures s != ""
  {
    if v < b then [DigitChar(v)] else
      Smaller(v, b);
      [DigitChar(v % b)] + LowFirst(v / b, b)
  }

  function Reversed(s: string): (r: string)
    ensures |r| == |s| && forall i | 0 <= i < |s| :: r[i] == s[|s| - 1 - i]
  {
    if s == "" then "" else Reversed(s[1..]) + [s[0]]
  }

  lemma {:induction false} LowFirstReversed(v: nat, b: nat)
    requires 2 <= b <= 36
    ensures Reversed(LowFirst(v, b)) == ToBase(v, b)
  {
    if v >= b {
      Smaller(v, b);
      LowFirstReversed(v / b, b);
      assert LowFirst(v, b)[1..] == LowFirst(v / b, b);
    }
  }

  /** The numeral reads as v, and has no superfluous zeros. */
  lemma {:induction false} ToBaseValue(v: nat, b: nat)
    requires 2 <= b <= 36
    ensures Numeral(ToBase(v, b), b) == v && Canonical(ToBase(v, b), b)
    ensures v > 0 ==> ToBase(v, b)[0] != '0'
  {
    hide Numeral, DigitOf, DigitChar;
    if v < b {
      DigitBack(v);
      OneDigit(DigitChar(v), b);
    } else {
      Smaller(v, b);
      Divided(v, b);
      DigitBack(v % b);
      ToBaseValue(v / b, b);
      NumeralAppend(ToBase(v / b, b), DigitChar(v % b), b);
    }
  }

  lemma OneDigit(c: char, b: nat)
    ensures Numeral([c], b) == DigitOf(c)
  {
    assert [c][..0] == "";
  }

  function Pow2(n: nat): nat
  {
    if n == 0 then 1 else 2 * Pow2(n - 1)
  }

  lemma {:induction false} ToBaseShort(v: nat, b: nat, n: nat)
    requires 2 <= b <= 36 && v < Pow2(n) && 1 <= n
    ensures |ToBase(v, b)| <= n
  {
    if v >= b {
      Smaller(v, b);
      Halved(v, b, Pow2(n - 1));
      ToBaseShort(v / b, b, n - 1);
    }
  }

  lemma Halved(v: nat, b: nat, p: nat)
    requires 2 <= b <= v < 2 * p
    ensures v / b < p && p > 1
  {
    Divided(v, b);
    Doubled(b, v / b);
  }

  lemma {:induction false} Pow2Sum(m: nat, n: nat)
    ensures Pow2(m + n) == Pow2(m) * Pow2(n)
  {
    if m > 0 {
      Pow2Sum(m - 1, n);
      ProductDoubled(Pow2(m - 1), Pow2(n), Pow2(m - 1 + n));
    }
  }

  lemma ProductDoubled(a: int, b: int, c: int)
    requires c == a * b
    ensures 2 * c == 2 * a * b
  {
  }

  lemma PowersOf2()
    ensures Pow2(21) == 0x20_0000
  {
    assert Pow2(1) == 2;
    Pow2Sum(1, 2);
    Pow2Sum(3, 4);
    Pow2Sum(7, 7);
    Pow2Sum(14, 7);
  }

  lemma Pow2Of63()
    ensures Pow2(63) == LONG_MAX + 1
  {
    hide Pow2;
    PowersOf2();
    Pow2Sum(21, 21);
    Pow2Sum(42, 21);
  }

  lemma LongShort(v: nat, b: nat)
    requires 2 <= b <= 36 && v <= LONG_MAX
    ensures |ToBase(v, b)| <= 63
  {
    Pow2Of63();
    ToBaseShort(v, b, 63);
  }

  /** strlen */
  method Strlen(s: array<char>) returns (n: nat)
    requires exists i :: 0 <= i < s.Length && s[i] == '\0'
    ensures n < s.Length && s[n] == '\0' && '\0' !in s[..n]
  {
    n := 0;
    while s[n] != '\0'
      invariant n < s.Length && '\0' !in s[..n] && exists i :: n <= i < s.Length && s[i] == '\0'
      decreases s.Length - n
    {
      n := n + 1;
    }
  }

  lemma FirstNul(s: string, n: nat, m: nat)
    requires n < |s| && m < |s| && s[n] == '\0' && '\0' !in s[..m]
    ensures m <= n
  {
    forall k | 0 <= k < m ensures s[k] != '\0' { assert s[..m][k] == s[k]; }
  }

  /** sio_reverse: the string in s, reversed in place. */
  method Reverse(s: array<char>, ghost n: nat)
    requires n < s.Length && s[n] == '\0' && '\0' !in s[..n]
    modifies s
    ensures s[..] == Reversed(old(s[..n])) + old(s[n..])
  {
    var i: int := 0;
    var m: int := Strlen(s);
    FirstNul(s[..], n, m);
    FirstNul(s[..], m, n);
    var j := m - 1;
    while i < j
      invariant 0 <= i <= n && j == n - 1 - i && i <= j + 2
      invariant forall k | 0 <= k < i || j < k < n :: s[k] == old(s[n - 1 - k])
      invariant forall k | i <= k <= j || n <= k < s.Length :: s[k] == old(s[k])
    {
      s[i], s[j] := s[j], s[i];
      i, j := i + 1, j - 1;
    }
    ghost var r := Reversed(old(s[..n])) + old(s[n..]);
    assert forall k | 0 <= k < s.Length :: s[k] == r[k];
  }

  /** The digits of u into s, least significant first. */
  method WriteDigits(u: nat, s: array<char>, b: nat) returns (i: nat)
    requires 2 <= b <= 36 && |LowFirst(u, b)| <= s.Length
    modifies s
    ensures i == |LowFirst(u, b)| && s[..i] == LowFirst(u, b)
  {
    i := 0;
    var v: nat, more := u, true;
    while more
      invariant i <= s.Length && s[..i] + (if more then LowFirst(v, b) else "") == LowFirst(u, b)
      decreases more, v
    {
      DigitStep(v, b);
      ghost var before, rest := s[..i], if v / b > 0 then LowFirst(v / b, b) else "";
      s[i] := DigitChar(v % b);
      i := i + 1;
      assert s[..i] == before + [DigitChar(v % b)];
      Reassociated(before, DigitChar(v % b), rest);
      v := v / b;
      more := v > 0;
    }
    assert s[..i] + "" == s[..i];
  }

  lemma Reassociated(x: string, c: char, y: string)
    ensures x + ([c] + y) == (x + [c]) + y
  {
  }

  lemma DigitStep(v: nat, b: nat)
    requires 2 <= b <= 36
    ensures 0 <= v % b < 36 && 0 <= v / b && (v > 0 ==> v / b < v)
    ensures LowFirst(v, b) == [DigitChar(v % b)] + if v / b > 0 then LowFirst(v / b, b) else ""
  {
    Divided(v, b);
    if v < b { NoQuotient(v, b); } else { Smaller(v, b); }
  }

  lemma NoQuotient(v: nat, b: nat)
    requires v < b
    ensures v / b == 0 && v % b == v
  {
  }

  lemma {:induction false} ReversedAppend(x: string, c: char)
    ensures Reversed(x + [c]) == [c] + Reversed(x)
  {
    if x != "" {
      assert (x + [c])[1..] == x[1..] + [c];
      ReversedAppend(x[1..], c);
    }
  }

  /** What is in s is the written form of v. */
  predicate Written(t: string, v: int, b: nat)
  {
    && '\0' !in t && Parse(t, b) == v
    && (if v < 0 then |t| > 1 && t[0] == '-' && Canonical(t[1..], b) else Canonical(t, b))
  }

  lemma {:induction false} DigitsNotNul(v: nat, b: nat)
    requires 2 <= b <= 36
    ensures '\0' !in LowFirst(v, b)
  {
    if v >= b { Smaller(v, b); DigitsNotNul(v / b, b); }
  }

  lemma ReversedWritten(v: int, u: nat, b: nat)
    requires 2 <= b <= 36 && u == if v < 0 then -v else v
    ensures Written(Reversed(LowFirst(u, b) + if v < 0 then "-" else ""), v, b)
  {
    hide LowFirst, ToBase, Numeral, Reversed;
    var x, t := LowFirst(u, b), ToBase(u, b);
    LowFirstReversed(u, b);
    ToBaseValue(u, b);
    NoSigns(t, b);
    if v < 0 {
      ReversedAppend(x, '-');
      assert (['-'] + t)[1..] == t;
    } else {
      assert x + "" == x;
    }
  }

  lemma NoSigns(t: string, b: nat)
    requires b <= 36 && Canonical(t, b)
    ensures '\0' !in t && '-' !in t && t[0] in t
  {
    forall c | c in t ensures c != '\0' && c != '-' { assert DigitOf(c) < b; }
  }

  /** sio_ltoa, for every long but the least: what it leaves in a buffer of 128 bytes. */
  method SioLtoa(v: int, s: array<char>, b: nat) returns (ghost n: nat)
    requires IsLong(v) && v > -LONG_MAX - 1 && 2 <= b <= 36 && s.Length == 128
    modifies s
    ensures 0 < n <= 64 && s[n] == '\0' && Written(s[..n], v, b)
  {
    hide LowFirst, Reversed, Written, ToBase;
    var neg := v < 0;
    var u: nat := if neg then -v else v;
    LongShort(u, b);
    LowFirstReversed(u, b);
    DigitsNotNul(u, b);
    ReversedWritten(v, u, b);
    var i := WriteDigits(u, s, b);
    assert LowFirst(u, b) + "" == LowFirst(u, b);
    if neg {
      s[i] := '-';
      i := i + 1;
    }
    assert s[..i] == LowFirst(u, b) + if v < 0 then "-" else "";
    s[i] := '\0';
    n := i;
    Reverse(s, i);
    assert s[..n] == Reversed(LowFirst(u, b) + if v < 0 then "-" else "");
  }
}
