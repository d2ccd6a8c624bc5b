/** Decimal numbers as the database prints them ("%f") and scans them, in millionths. */
module Numbers {
  import opened Options

  predicate IsDigit(c: char)
  {
    '0' <= c <= '9'
  }

  function DigitChar(d: nat): char
    requires d < 10
  {
    '0' + d as char
  }

  function DigitValue(c: char): nat
    requires IsDigit(c)
  {
    c as nat - '0' as nat
  }

  /** The decimal digits of n, without leading zeros. */
  function Digits(n: nat): (s: string)
  {
    if n < 10 then [DigitChar(n)] else Digits(n / 10) + [DigitChar(n % 10)]
  }

  /** Exactly k digits of n, with leading zeros. */
  function Padded(n: nat, k: nat): (s: string)
    ensures |s| == k
  {
    if k == 0 then "" else Padded(n / 10, k - 1) + [DigitChar(n % 10)]
  }

  const MILLION: nat := 1000000
  const DECIMALS: nat := 6

  function Magnitude(n: int): nat
  {
    if n < 0 then -n else n
  }

  /** "%f": n millionths with six decimals. */
  function Format(n: int): string
  {
    (if n < 0 then "-" else "") + FormatUnsigned(Magnitude(n))
  }

  /** The digits s starts with. */
  function DigitPrefix(s: string): (p: string)
    ensures p <= s && forall c | c in p :: IsDigit(c)
  {
    if s != "" && IsDigit(s[0]) then [s[0]] + DigitPrefix(s[1..]) else ""
  }

  function ValueOf(ds: string): nat
    requires forall c | c in ds :: IsDigit(c)
  {
    if ds == "" then 0 else 10 * ValueOf(ds[..|ds|-1]) + DigitValue(ds[|ds|-1])
  }

  /** The first six decimals as millionths; further ones are dropped. */
  function Fraction(ds: string): nat
    requires forall c | c in ds :: IsDigit(c)
  {
    if |ds| >= 6 then ValueOf(ds[..6]) else ValueOf(ds + seq(6 - |ds|, _ => '0'))
  }

  /** The digits and decimals of an unsigned number; at least one digit. */
  function ScanUnsigned(u: string): Option<nat>
  {
    var whole := DigitPrefix(u);
    var v := u[|whole|..];
    var decimals := if v != "" && v[0] == '.' then DigitPrefix(v[1..]) else "";
    if whole == "" && decimals == "" then None else Some(ValueOf(whole) * MILLION + Fraction(decimals))
  }

  function Negated(m: nat): Option<int>
  {
    var n := 0 - m;
    Some(n)
  }

  const SPACES: string := " \t\n\U{0B}\U{0C}\r"

  /** The characters that scanning a number skips first: isspace. */
  predicate IsSpace(c: char)
  {
    c == ' ' || '\t' <= c <= '\r'
  }

  function DropSpace(s: string): (r: string)
    ensures r != "" ==> !IsSpace(r[0])
  {
    if s != "" && IsSpace(s[0]) then DropSpace(s[1..]) else s
  }

  /** sscanf with "%f" on a token. */
  function Scan(s: string): Option<int>
  {
    var t := DropSpace(s);
    if t != "" && t[0] == '-' then
      match ScanUnsigned(t[1..]) { case None => None case Some(m) => Negated(m) }
    else
      ScanUnsigned(if t != "" && t[0] == '+' then t[1..] else t)
  }

  lemma {:induction false} DigitsValue(n: nat)
    ensures Digits(n) != "" && (forall c | c in Digits(n) :: IsDigit(c)) && ValueOf(Digits(n)) == n
  {
    if n >= 10 { DigitsValue(n / 10); }
  }

  lemma {:induction false} PaddedValue(n: nat, k: nat, bound: nat)
    requires n < bound && bound == Pow10(k)
    ensures (forall c | c in Padded(n, k) :: IsDigit(c)) && ValueOf(Padded(n, k)) == n
  {
    if k > 0 { PaddedValue(n / 10, k - 1, Pow10(k - 1)); }
  }

  function Pow10(k: nat): nat
  {
    if k == 0 then 1 else 10 * Pow10(k - 1)
  }

  lemma {:induction false} DigitPrefixOf(p: string, s: string)
    requires (forall c | c in p :: IsDigit(c)) && (s == "" || !IsDigit(s[0]))
    ensures DigitPrefix(p + s) == p
  {
    if p != "" {
      assert (p + s)[1..] == p[1..] + s;
      DigitPrefixOf(p[1..], s);
    } else {
      assert p + s == s;
    }
  }

  function FormatUnsigned(m: nat): string
  {
    Digits(m / MILLION) + ("." + Padded(m % MILLION, DECIMALS))
  }

  lemma ScanUnsignedFormat(m: nat)
    ensures ScanUnsigned(FormatUnsigned(m)) == Some(m)
    ensures FormatUnsigned(m) != "" && IsDigit(FormatUnsigned(m)[0])
  {
    var whole, decimals := Digits(m / MILLION), Padded(m % MILLION, DECIMALS);
    DigitsValue(m / MILLION);
    assert Pow10(DECIMALS) == MILLION;
    PaddedValue(m % MILLION, DECIMALS, MILLION);
    var u, v := FormatUnsigned(m), "." + decimals;
    DigitPrefixOf(whole, v);
    assert u[|whole|..] == v && v[1..] == decimals;
    DigitPrefixOf(decimals, "");
    assert decimals + "" == decimals && decimals[..6] == decimals;
    assert whole[0] in whole && u[0] == whole[0];
  }

  /** Scanning a printed number gives it back. */
  lemma ScanFormat(n: int)
    ensures Scan(Format(n)) == Some(n)
  {
    var u := FormatUnsigned(Magnitude(n));
    ScanUnsignedFormat(Magnitude(n));
    ScanSigned(n, u);
  }

  lemma ScanSigned(n: int, u: string)
    requires u != "" && IsDigit(u[0]) && ScanUnsigned(u) == Some(Magnitude(n))
    ensures Scan((if n < 0 then "-" else "") + u) == Some(n)
  {
    hide ScanUnsigned;
    var t := (if n < 0 then "-" else "") + u;
    assert t[0] == (if n < 0 then '-' else u[0]) && DropSpace(t) == t;
    if n < 0 { assert t[1..] == u; } else { assert t == u; }
  }

  // ----- numbers with any number of decimals -----

  predicate AllDigits(ds: string)
  {
    forall c | c in ds :: IsDigit(c)
  }

  /** The digits d put behind the digits w. */
  lemma {:induction false} ValueJoined(w: string, d: string)
    requires AllDigits(w) && AllDigits(d)
    ensures AllDigits(w + d) && ValueOf(w + d) == ValueOf(w) * Pow10(|d|) + ValueOf(d) && ValueOf(d) < Pow10(|d|)
  {
    if d == "" {
      assert w + d == w;
    } else {
      var n := |d| - 1;
      ValueJoined(w, d[..n]);
      assert (w + d)[..|w + d| - 1] == w + d[..n] && (w + d)[|w + d| - 1] == d[n];
      assert d[n] in d && (forall c | c in w + d :: IsDigit(c));
      Shifted(ValueOf(w), Pow10(n), ValueOf(d[..n]), DigitValue(d[n]));
    }
  }

  lemma Shifted(a: nat, p: nat, b: nat, c: nat)
    requires b < p && c < 10
    ensures 10 * (a * p + b) + c == a * (10 * p) + (10 * b + c) && 10 * b + c < 10 * p
  {
  }

  lemma {:induction false} Zeros(k: nat)
    ensures AllDigits(seq(k, _ => '0')) && ValueOf(seq(k, _ => '0')) == 0
  {
    if k > 0 {
      Zeros(k - 1);
      assert seq(k, _ => '0')[..k-1] == seq(k - 1, _ => '0');
    }
  }

  lemma {:induction false} Pow10Sum(a: nat, b: nat)
    ensures Pow10(a + b) == Pow10(a) * Pow10(b) && Pow10(a) > 0
  {
    if a > 0 {
      Pow10Sum(a - 1, b);
      TenTimes(Pow10(a - 1), Pow10(b));
    } else {
      PowerPositive(b);
    }
  }

  lemma {:induction false} PowerPositive(k: nat)
    ensures Pow10(k) > 0
  {
    if k > 0 { PowerPositive(k - 1); }
  }

  lemma TenTimes(a: nat, b: nat)
    ensures 10 * (a * b) == (10 * a) * b
  {
  }

  /** p is a quotient: the remainder r of the product is less than the divisor. */
  lemma QuotientIs(n: nat, d: nat, q: nat, r: nat)
    requires n == q * d + r && r < d
    ensures n / d == q
  {
    var q', r' := n / d, n % d;
    assert n == q' * d + r' && r' < d;
    if q' < q { Gap(q', q, d); }
    if q < q' { Gap(q, q', d); }
  }

  lemma Gap(a: nat, b: nat, d: nat)
    requires a < b
    ensures a * d + d <= b * d
  {
    assert (a + 1) * d <= b * d by { var k := b - (a + 1); assert b * d == (a + 1) * d + k * d; }
  }

  /** The value of whole.dec in millionths, rounded down. */
  function Millionths(whole: string, dec: string): int
    requires AllDigits(whole) && AllDigits(dec)
  {
    ValueJoined(whole, dec);
    PowerPositive(|dec|);
    ValueOf(whole + dec) * MILLION / Pow10(|dec|)
  }

  /** Keeping six decimals, padded with zeros, does that. */
  lemma FractionScaled(whole: string, dec: string)
    requires AllDigits(whole) && AllDigits(dec)
    ensures ValueOf(whole) * MILLION + Fraction(dec) == Millionths(whole, dec)
  {
    hide ValueOf, Pow10;
    var w, v, d := ValueOf(whole), ValueOf(dec), |dec|;
    ValueJoined(whole, dec);
    PowerPositive(d);
    SixPlaces();
    if d >= 6 {
      var high, low := dec[..6], dec[6..];
      assert dec == high + low;
      assert AllDigits(high) && AllDigits(low) by { assert forall c | c in high || c in low :: c in dec; }
      ValueJoined(high, low);
      Pow10Sum(6, d - 6);
      LongFraction(w, ValueOf(high), ValueOf(low), Pow10(d - 6), v, Pow10(d));
    } else {
      var pad := seq(6 - d, _ => '0');
      Zeros(6 - d);
      ValueJoined(dec, pad);
      Pow10Sum(d, 6 - d);
      ShortFraction(w, v, Pow10(d), Pow10(6 - d));
    }
  }

  lemma SixPlaces()
    ensures Pow10(6) == MILLION
  {
  }

  lemma LongFraction(w: nat, high: nat, low: nat, p: nat, v: nat, d: nat)
    requires p > 0 && low < p && v == high * p + low && d == MILLION * p
    ensures w * MILLION + high == (w * d + v) * MILLION / d
  {
    var q := w * MILLION + high;
    assert w * d == (w * MILLION) * p;
    assert w * d + v == q * p + low;
    var n := (w * d + v) * MILLION;
    assert n == (q * p) * MILLION + low * MILLION;
    assert (q * p) * MILLION == q * d;
    QuotientIs(n, d, q, low * MILLION);
  }

  lemma ShortFraction(w: nat, v: nat, d: nat, p: nat)
    requires d > 0 && d * p == MILLION
    ensures w * MILLION + v * p == (w * d + v) * MILLION / d
  {
    var q := w * MILLION + v * p;
    assert (w * d + v) * MILLION == (w * MILLION) * d + v * MILLION;
    assert v * MILLION == (v * p) * d;
    QuotientIs((w * d + v) * MILLION, d, q, 0);
  }

  function Signed(sign: string, m: int): int
  {
    if sign == "-" then -m else m
  }

  /**
   * A number with any decimals, behind blanks and a sign and in front of text that is no part of it, is scanned to the
   * millionths below it.
   */
  lemma ScanText(blank: string, sign: string, whole: string, dec: string, x: string)
    requires (forall c | c in blank :: c in SPACES) && sign in ["", "+", "-"]
    requires AllDigits(whole) && AllDigits(dec) && (whole != "" || dec != "") && (x == "" || !IsDigit(x[0]))
    ensures var n := Signed(sign, Millionths(whole, dec));
      && Scan(blank + (sign + (whole + ("." + (dec + x))))) == Some(n)
      && (dec == "" && (x == "" || x[0] != '.') ==> Scan(blank + (sign + (whole + x))) == Some(n))
  {
    hide ValueOf, ScanUnsigned, Scan, Millionths, Fraction;
    FractionScaled(whole, dec);
    assert forall c | c in blank :: IsSpace(c);
    var m := Millionths(whole, dec);
    ScanPlain(whole, dec, x);
    SignedText(blank, sign, whole + ("." + (dec + x)), m);
    if dec == "" && (x == "" || x[0] != '.') { SignedText(blank, sign, whole + x, m); }
  }

  lemma SignedText(blank: string, sign: string, u: string, m: nat)
    requires (forall c | c in blank :: IsSpace(c)) && sign in ["", "+", "-"]
    requires u != "" && (IsDigit(u[0]) || u[0] == '.') && ScanUnsigned(u) == Some(m)
    ensures Scan(blank + (sign + u)) == Some(Signed(sign, m))
  {
    hide ScanUnsigned;
    var t := sign + u;
    assert t[0] == if sign == "" then u[0] else sign[0];
    DropSpaceOver(blank, t);
    if sign == "" { assert t == u; } else { assert t[1..] == u; }
  }

  lemma {:induction false} DropSpaceOver(blank: string, t: string)
    requires (forall c | c in blank :: IsSpace(c)) && t != "" && !IsSpace(t[0])
    ensures DropSpace(blank + t) == t
  {
    if blank == "" { assert blank + t == t; } else {
      assert (blank + t)[1..] == blank[1..] + t;
      DropSpaceOver(blank[1..], t);
    }
  }

  lemma ScanPlain(whole: string, dec: string, x: string)
    requires AllDigits(whole) && AllDigits(dec) && (whole != "" || dec != "") && (x == "" || !IsDigit(x[0]))
    ensures var m, u := ValueOf(whole) * MILLION + Fraction(dec), whole + ("." + (dec + x));
      ScanUnsigned(u) == Some(m) && u != "" && (IsDigit(u[0]) || u[0] == '.')
    ensures var u := whole + x;
      dec == "" && (x == "" || x[0] != '.') ==>
        ScanUnsigned(u) == Some(ValueOf(whole) * MILLION + Fraction(dec)) && u != "" && IsDigit(u[0])
  {
    hide ValueOf, Fraction;
    var v := "." + (dec + x);
    var u := whole + v;
    DigitPrefixOf(whole, v);
    DigitPrefixOf(dec, x);
    assert u[|whole|..] == v && v[1..] == dec + x;
    assert whole != "" ==> u[0] == whole[0] && whole[0] in whole;
    if dec == "" && (x == "" || x[0] != '.') {
      DigitPrefixOf(whole, x);
      assert (whole + x)[|whole|..] == x && (whole + x)[0] == whole[0];
    }
  }

  /** A number is printed as a sign, its whole part without superfluous zeros, a point, and exactly six decimals. */
  lemma FormatShape(n: int) returns (whole: string, dec: string)
    ensures AllDigits(whole) && AllDigits(dec) && |dec| == 6 && whole != "" && (|whole| > 1 ==> whole[0] != '0')
    ensures Format(n) == (if n < 0 then "-" else "") + (whole + ("." + dec))
    ensures AllDigits(whole + dec) && ValueOf(whole + dec) == if n < 0 then -n else n
  {
    var m := Magnitude(n);
    whole, dec := Digits(m / MILLION), Padded(m % MILLION, DECIMALS);
    DigitsValue(m / MILLION);
    DigitsStart(m / MILLION);
    SixPlaces();
    PaddedValue(m % MILLION, DECIMALS, MILLION);
    ValueJoined(whole, dec);
  }

  lemma {:induction false} DigitsStart(n: nat)
    ensures Digits(n) != "" && (n > 0 ==> Digits(n)[0] != '0') && (n == 0 ==> |Digits(n)| == 1)
  {
    if n >= 10 { DigitsStart(n / 10); }
  }

  /** Nothing is scanned exactly if no digit follows the blanks, the sign and the point. */
  lemma ScanNothing(s: string)
    ensures Scan(s) == None <==>
      var t := DropSpace(s);
      var u := if t != "" && (t[0] == '-' || t[0] == '+') then t[1..] else t;
      var v := if u != "" && u[0] == '.' then u[1..] else u;
      v == "" || !IsDigit(v[0])
  {
  }

  /** A printed number is made of a sign, digits and a point. */
  lemma FormatChars(n: int)
    ensures Format(n) != "" && forall c | c in Format(n) :: IsDigit(c) || c == '-' || c == '.'
  {
    var m := Magnitude(n);
    DigitsValue(m / MILLION);
    assert Pow10(DECIMALS) == MILLION;
    PaddedValue(m % MILLION, DECIMALS, MILLION);
  }
}
