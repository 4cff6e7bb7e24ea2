/**
 * Base-10 integers as JavaScript reads and writes them: `parseInt(s, 10)`
 * and the decimal text of an integral number (`${n}`).
 */
module Decimal {
  import opened Wrappers

  /** The characters JavaScript skips before a number: WhiteSpace (TAB, VT, FF,
      SPACE, NBSP, ZWNBSP and the Zs category) and LineTerminator (LF, CR, LS, PS). */
  predicate IsWhitespace(c: char) {
    c == '\t' || c == '\n' || c == '\U{000B}' || c == '\U{000C}' || c == '\r' || c == ' '
    || c == '\U{00A0}' || c == '\U{1680}' || ('\U{2000}' <= c <= '\U{200A}')
    || c == '\U{2028}' || c == '\U{2029}' || c == '\U{202F}' || c == '\U{205F}'
    || c == '\U{3000}' || c == '\U{FEFF}'
  }

  predicate IsDigit(c: char) {
    '0' <= c <= '9'
  }

  predicate AllDigits(s: string) {
    forall j :: 0 <= j < |s| ==> IsDigit(s[j])
  }

  predicate AllWhitespace(s: string) {
    forall j :: 0 <= j < |s| ==> IsWhitespace(s[j])
  }

  function DigitValue(c: char): (d: nat)
    requires IsDigit(c)
    ensures d < 10
  {
    (c as int) - ('0' as int)
  }

  function DigitChar(d: nat): (c: char)
    requires d < 10
    ensures IsDigit(c) && DigitValue(c) == d
  {
    (('0' as int) + d) as char
  }

  /** Drops the leading whitespace of `s`. */
  function TrimStart(s: string): (r: string)
    ensures |r| <= |s|
    ensures r == [] || !IsWhitespace(r[0])
    ensures AllWhitespace(s) ==> r == []
  {
    if s != [] && IsWhitespace(s[0]) then TrimStart(s[1..]) else s
  }

  /** The length of the longest prefix of `s` made of digits. */
  function DigitRun(s: string): (n: nat)
    ensures n <= |s| && AllDigits(s[..n])
    ensures n < |s| ==> !IsDigit(s[n])
  {
    if s != [] && IsDigit(s[0]) then 1 + DigitRun(s[1..]) else 0
  }

  /** The value of a string of digits, most significant digit first. */
  function DigitsValue(s: string): nat
    requires AllDigits(s)
  {
    if s == [] then 0 else DigitsValue(s[..|s| - 1]) * 10 + DigitValue(s[|s| - 1])
  }

  function Signed(negative: bool, v: nat): int {
    if negative then -(v as int) else v
  }

  /** Reads an optional sign and the longest run of digits after it. */
  function ParseSigned(t: string): Option<int>
  {
    var negative := t != [] && t[0] == '-';
    var u := if t != [] && (t[0] == '-' || t[0] == '+') then t[1..] else t;
    var n := DigitRun(u);
    if n == 0 then None else Some(Signed(negative, DigitsValue(u[..n])))
  }

  /** `parseInt(s, 10)`: leading whitespace, an optional sign, then the longest
      run of digits; `None` stands for NaN (no digit where one is needed). */
  function ParseInt(s: string): (r: Option<int>)
    ensures AllWhitespace(s) ==> r.None?
    ensures s != [] && IsDigit(s[0]) ==> r == Some(DigitsValue(s[..DigitRun(s)]))
  {
    ParseSigned(TrimStart(s))
  }

  /** The decimal digits of a natural number, without leading zeros. */
  function FormatNat(n: nat): (s: string)
    ensures |s| >= 1 && AllDigits(s)
    ensures DigitsValue(s) == n
    ensures |s| > 1 ==> s[0] != '0'
  {
    if n < 10 then [DigitChar(n)]
    else
      var s := FormatNat(n / 10) + [DigitChar(n % 10)];
      assert s[..|s| - 1] == FormatNat(n / 10);
      s
  }

  /** The text of an integral number, as `${n}` writes it. */
  function Format(n: int): (s: string)
    ensures s != [] && (s[0] == '-' <==> n < 0)
  {
    if n < 0 then "-" + FormatNat(-n) else FormatNat(n)
  }

  /** The digit run of `u` is exactly its first `k` characters. */
  lemma {:induction false} DigitRunIs(u: string, k: nat)
    requires k <= |u| && AllDigits(u[..k])
    requires k < |u| ==> !IsDigit(u[k])
    ensures DigitRun(u) == k
  {
    if k > 0 {
      assert IsDigit(u[..k][0]);
      assert u[1..][..k - 1] == u[..k][1..];
      DigitRunIs(u[1..], k - 1);
    } else if u != [] {
      assert !IsDigit(u[0]);
    }
  }

  /** `parseInt` of a text that starts with a run of `k` digits. */
  lemma ParseUnsignedOf(u: string, k: nat)
    requires 0 < k <= |u| && AllDigits(u[..k])
    requires k < |u| ==> !IsDigit(u[k])
    ensures ParseInt(u) == Some(DigitsValue(u[..k]))
  {
    assert IsDigit(u[..k][0]);
    assert u[0] == u[..k][0];
    assert !IsWhitespace(u[0]);
    assert TrimStart(u) == u;
    DigitRunIs(u, k);
    assert u[0] != '-' && u[0] != '+';
    assert ParseSigned(u) == Some(DigitsValue(u[..k]));
  }

  /** `parseInt` of a text that starts with a sign and then a run of `k` digits. */
  lemma ParseSignOf(t: string, k: nat)
    requires t != [] && (t[0] == '-' || t[0] == '+')
    requires 0 < k <= |t| - 1 && AllDigits(t[1..][..k])
    requires k < |t| - 1 ==> !IsDigit(t[1..][k])
    ensures ParseInt(t) == Some(Signed(t[0] == '-', DigitsValue(t[1..][..k])))
  {
    assert !IsWhitespace(t[0]);
    assert TrimStart(t) == t;
    DigitRunIs(t[1..], k);
    assert ParseSigned(t) == Some(Signed(t[0] == '-', DigitsValue(t[1..][..k])));
  }

  lemma {:induction false} TrimStartOf(ws: string, t: string)
    requires AllWhitespace(ws)
    requires t == [] || !IsWhitespace(t[0])
    ensures TrimStart(ws + t) == t
  {
    if ws != [] {
      assert (ws + t)[1..] == ws[1..] + t;
      TrimStartOf(ws[1..], t);
    } else {
      assert ws + t == t;
    }
  }

  /** Leading whitespace does not change what `parseInt` reads. */
  lemma SkipWhitespace(ws: string, t: string)
    requires AllWhitespace(ws)
    requires t == [] || !IsWhitespace(t[0])
    ensures ParseInt(ws + t) == ParseInt(t)
  {
    TrimStartOf(ws, t);
    assert TrimStart(t) == t;
  }

  /** What `parseInt` reads: whitespace, an optional sign and a non-empty run of
      digits that the rest does not continue give that signed value. */
  lemma ParseIntReads(ws: string, sign: string, digits: string, rest: string)
    requires AllWhitespace(ws)
    requires sign == "" || sign == "+" || sign == "-"
    requires digits != [] && AllDigits(digits)
    requires rest == [] || !IsDigit(rest[0])
    ensures ParseInt(ws + sign + digits + rest) == Some(Signed(sign == "-", DigitsValue(digits)))
  {
    var u := digits + rest;
    var t := sign + u;
    assert ws + sign + digits + rest == ws + t;
    assert u[..|digits|] == digits;
    if sign == "" {
      assert t == u;
      assert t[0] == digits[0] && IsDigit(t[0]) && !IsWhitespace(t[0]);
      ParseUnsignedOf(u, |digits|);
    } else {
      assert t[0] == sign[0] && t[1..] == u && !IsWhitespace(t[0]);
      ParseSignOf(t, |digits|);
    }
    SkipWhitespace(ws, t);
  }

  /** NaN: after the whitespace and an optional sign, no digit follows. */
  lemma ParseIntNaN(ws: string, sign: string, rest: string)
    requires AllWhitespace(ws)
    requires sign == "" || sign == "+" || sign == "-"
    requires rest == [] || !IsDigit(rest[0])
    requires sign == "" ==> rest == [] || (!IsWhitespace(rest[0]) && rest[0] != '+' && rest[0] != '-')
    ensures ParseInt(ws + sign + rest) == None
  {
    var t := sign + rest;
    assert ws + sign + rest == ws + t;
    TrimStartOf(ws, t);
    if sign == "" {
      assert t == rest;
    } else {
      assert t[0] == sign[0];
      assert t[1..] == rest;
    }
  }

  /** Reading back the text of an integer gives that integer. */
  lemma ParseFormat(n: int)
    ensures ParseInt(Format(n)) == Some(n)
  {
    if n < 0 {
      var d := FormatNat(-n);
      var t := "-" + d;
      assert Format(n) == t;
      assert t[1..] == d;
      assert t[1..][..|d|] == d;
      ParseSignOf(t, |d|);
    } else {
      var d := FormatNat(n);
      assert Format(n) == d;
      assert d[..|d|] == d;
      ParseUnsignedOf(d, |d|);
    }
  }

  /** Reading the text of an integer followed by anything that does not start
      with a digit gives that integer. */
  lemma ParseFormatThen(n: int, rest: string)
    requires rest == [] || !IsDigit(rest[0])
    ensures ParseInt(Format(n) + rest) == Some(n)
  {
    if n < 0 {
      var d := FormatNat(-n);
      var t := "-" + d + rest;
      assert Format(n) + rest == t;
      assert t[1..] == d + rest;
      assert (d + rest)[..|d|] == d;
      ParseSignOf(t, |d|);
    } else {
      var d := FormatNat(n);
      var t := d + rest;
      assert Format(n) + rest == t;
      assert t[..|d|] == d;
      ParseUnsignedOf(t, |d|);
    }
  }

  /** A fractional part is cut off: the integer prefix of `"<n>.<frac>"` is `n`. */
  lemma ParseTruncates(n: int, frac: string)
    ensures ParseInt(Format(n) + "." + frac) == Some(n)
  {
    if n < 0 {
      var d := FormatNat(-n);
      var t := "-" + d + "." + frac;
      assert Format(n) + "." + frac == t;
      assert t[1..] == d + "." + frac;
      assert t[1..][..|d|] == d && t[1..][|d|] == '.';
      ParseSignOf(t, |d|);
    } else {
      var d := FormatNat(n);
      var t := d + "." + frac;
      assert Format(n) + "." + frac == t;
      assert t[..|d|] == d && t[|d|] == '.';
      ParseUnsignedOf(t, |d|);
    }
  }
}
