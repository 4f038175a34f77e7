/**
 * Text helpers the bot's messages are made of: the decimal text Python's
 * str() and f"{x:.2f}" write for numbers (integers, and amounts held as whole
 * cents), and splitting a string at the first occurrence of a separator.
 * Every writer has a reader beside it and a lemma that reading undoes writing.
 */
module Text {
  import opened Wrappers

  predicate IsDigit(c: char) {
    '0' <= c <= '9'
  }

  /** Every character of s is a decimal digit (checked from the last one back). */
  predicate AllDigits(s: string) {
    s == [] || (AllDigits(s[..|s| - 1]) && IsDigit(s[|s| - 1]))
  }

  function DigitValue(c: char): (d: nat)
    requires IsDigit(c)
    ensures d < 10
  {
    c as int - '0' as int
  }

  function DigitChar(d: nat): (c: char)
    requires d < 10
    ensures IsDigit(c) && DigitValue(c) == d
  {
    (d + '0' as int) as char
  }

  /** The decimal digits of n, most significant first, without leading zeros. */
  function NatText(n: nat): (s: string)
    ensures |s| > 0 && AllDigits(s) && IsDigit(s[0])
    ensures |s| > 1 ==> s[0] != '0'
    ensures '-' !in s && '.' !in s && '\n' !in s && ':' !in s
  {
    if n < 10 then [DigitChar(n)] else NatText(n / 10) + [DigitChar(n % 10)]
  }

  /** The number a string of decimal digits denotes (0 for the empty string). */
  function DigitsValue(s: string): nat
    requires AllDigits(s)
  {
    if s == [] then 0 else DigitsValue(s[..|s| - 1]) * 10 + DigitValue(s[|s| - 1])
  }

  lemma {:induction false} DigitsValueOfNatText(n: nat)
    ensures DigitsValue(NatText(n)) == n
  {
    var s := NatText(n);
    if n >= 10 {
      DigitsValueOfNatText(n / 10);
      assert s[..|s| - 1] == NatText(n / 10);
    }
  }

  /** Python's str(i) for an integer i: a minus sign for negatives, then the digits. */
  function IntText(i: int): (s: string)
    ensures |s| > 0 && '.' !in s && '\n' !in s && ':' !in s
  {
    if i < 0 then "-" + NatText(-i) else NatText(i)
  }

  /** Reads an optional minus sign followed by at least one decimal digit. */
  function ParseInt(s: string): (r: Option<int>)
    ensures r.Some? ==> |s| > 0
  {
    if |s| > 1 && s[0] == '-' && AllDigits(s[1..]) then Some(-(DigitsValue(s[1..]) as int))
    else if |s| > 0 && AllDigits(s) then Some(DigitsValue(s))
    else None
  }

  lemma ParseIntText(i: int)
    ensures ParseInt(IntText(i)) == Some(i)
  {
    var s := IntText(i);
    if i < 0 {
      assert s[1..] == NatText(-i);
      DigitsValueOfNatText(-i);
    } else {
      DigitsValueOfNatText(i);
    }
  }

  function Abs(i: int): nat {
    if i < 0 then -i else i
  }

  /** The whole part, a point and exactly two digits of m cents. */
  function UnsignedCentsText(m: nat): (s: string)
    ensures |s| >= 4 && IsDigit(s[0]) && s[|s| - 3] == '.' && IsDigit(s[|s| - 2]) && IsDigit(s[|s| - 1])
    ensures '.' !in s[..|s| - 3] && '-' !in s[..|s| - 3]
  {
    var whole := NatText(m / 100);
    var s := whole + ['.', DigitChar(m % 100 / 10), DigitChar(m % 10)];
    assert s[..|s| - 3] == whole;
    s
  }

  /**
   * The text f"{x:.2f}" gives for an amount x held exactly as whole cents:
   * an optional minus sign, the whole part, a point and exactly two digits.
   */
  function CentsText(cents: int): (s: string)
    ensures |s| >= 4 && s[|s| - 3] == '.' && IsDigit(s[|s| - 2]) && IsDigit(s[|s| - 1])
    ensures '.' !in s[..|s| - 3]
  {
    if cents < 0 then
      var u := UnsignedCentsText(-cents);
      assert ("-" + u)[..|u| + 1 - 3] == "-" + u[..|u| - 3];
      "-" + u
    else UnsignedCentsText(cents)
  }

  /** Reads at least one digit, a point and exactly two digits, as a number of cents. */
  function ParseUnsignedCents(body: string): (r: Option<nat>)
  {
    var n := |body|;
    if n >= 4 && body[n - 3] == '.' && AllDigits(body[..n - 3])
       && IsDigit(body[n - 2]) && IsDigit(body[n - 1])
    then Some(DigitsValue(body[..n - 3]) * 100 + DigitValue(body[n - 2]) * 10 + DigitValue(body[n - 1]))
    else None
  }

  /** Reads an optional minus sign followed by what ParseUnsignedCents reads. */
  function ParseCents(s: string): (r: Option<int>)
  {
    if |s| > 0 && s[0] == '-' then
      match ParseUnsignedCents(s[1..])
      case None => None
      case Some(m) => Some(-(m as int))
    else
      match ParseUnsignedCents(s)
      case None => None
      case Some(m) => Some(m as int)
  }

  lemma ParseUnsignedCentsParts(whole: string, d1: char, d2: char)
    requires |whole| > 0 && AllDigits(whole) && IsDigit(d1) && IsDigit(d2)
    ensures ParseUnsignedCents(whole + ['.', d1, d2])
         == Some(DigitsValue(whole) * 100 + DigitValue(d1) * 10 + DigitValue(d2))
  {
    var body := whole + ['.', d1, d2];
    var n := |body|;
    assert body[..n - 3] == whole;
    assert body[n - 3] == '.' && body[n - 2] == d1 && body[n - 1] == d2;
  }

  lemma CentsDigits(m: nat)
    ensures m == (m / 100) * 100 + (m % 100 / 10) * 10 + m % 10
  {
    var r := m % 100;
    assert r == r / 10 * 10 + r % 10;
    assert r % 10 == m % 10;
  }

  lemma ParseUnsignedCentsText(m: nat)
    ensures ParseUnsignedCents(UnsignedCentsText(m)) == Some(m)
  {
    ParseUnsignedCentsParts(NatText(m / 100), DigitChar(m % 100 / 10), DigitChar(m % 10));
    DigitsValueOfNatText(m / 100);
    CentsDigits(m);
  }

  lemma ParseCentsText(cents: int)
    ensures ParseCents(CentsText(cents)) == Some(cents)
  {
    var u := UnsignedCentsText(Abs(cents));
    ParseUnsignedCentsText(Abs(cents));
    if cents < 0 {
      assert ("-" + u)[1..] == u;
    }
  }

  /**
   * Splits s at the first occurrence of sep: Some((x, y)) with s == x + [sep] + y,
   * or None when sep does not occur in s.
   */
  function SplitAt(s: string, sep: char): (r: Option<(string, string)>)
    ensures r.Some? ==> s == r.value.0 + [sep] + r.value.1 && sep !in r.value.0
    ensures r.None? <==> sep !in s
  {
    if s == [] then None
    else if s[0] == sep then Some(([], s[1..]))
    else match SplitAt(s[1..], sep)
      case None => None
      case Some(p) => Some(([s[0]] + p.0, p.1))
  }

  lemma {:induction false} SplitAtJoin(x: string, sep: char, y: string)
    requires sep !in x
    ensures SplitAt(x + [sep] + y, sep) == Some((x, y))
  {
    if x != [] {
      SplitAtJoin(x[1..], sep, y);
      assert x[0] in x;
      assert (x + [sep] + y)[1..] == x[1..] + [sep] + y;
      assert [x[0]] + x[1..] == x;
    } else {
      assert (x + [sep] + y)[1..] == y;
    }
  }

  lemma AppendAssoc<T>(a: seq<T>, b: seq<T>, c: seq<T>)
    ensures a + (b + c) == (a + b) + c
  {
  }

  /** The three parts of a + b + c can be sliced back out of it. */
  lemma Framed<T>(a: seq<T>, b: seq<T>, c: seq<T>)
    ensures var s := a + b + c;
      |s| == |a| + |b| + |c| && s[..|a|] == a && s[|s| - |c|..] == c && s[|a|..|s| - |c|] == b
  {
  }

  /** Taking one more element of s appends that element. */
  lemma TakeSnoc<T>(s: seq<T>, i: nat)
    requires i < |s|
    ensures s[..i + 1] == s[..i] + [s[i]]
  {
  }
}
