/** Decimal text of integers: how Python prints a count and how `int()` reads a string. */
module Decimal {
  import opened Wrappers

  const Digits := "0123456789"

  predicate IsDigit(c: char) {
    '0' <= c <= '9'
  }

  predicate AllDigits(s: string) {
    forall i :: 0 <= i < |s| ==> IsDigit(s[i])
  }

  /** The decimal text of a natural number, as `str(n)` or an f-string prints it. */
  function NatText(n: nat): (r: string)
    ensures |r| > 0 && AllDigits(r)
  {
    if n < 10 then [Digits[n]] else NatText(n / 10) + [Digits[n % 10]]
  }

  function DigitValue(c: char): nat {
    if '0' <= c <= '9' then c as int - '0' as int else 0
  }

  /** The number a string of digits denotes. */
  function DecimalValue(s: string): nat {
    if s == [] then 0 else DecimalValue(s[..|s| - 1]) * 10 + DigitValue(s[|s| - 1])
  }

  /** The printed number reads back as the number, and has no leading zero. */
  lemma {:induction false} NatTextReadsBack(n: nat)
    ensures DecimalValue(NatText(n)) == n
    ensures |NatText(n)| > 1 ==> NatText(n)[0] != '0'
  {
    if n >= 10 {
      NatTextReadsBack(n / 10);
      var s := NatText(n / 10) + [Digits[n % 10]];
      assert s[..|s| - 1] == NatText(n / 10);
    }
  }

  /** The ASCII characters Python counts as whitespace: space, tab, line feed, vertical
      tab, form feed, carriage return and the four separators 0x1C-0x1F. */
  predicate IsSpace(c: char) {
    c == ' ' || 9 <= c as int <= 13 || 28 <= c as int <= 31
  }

  predicate AllSpaces(s: string) {
    forall i :: 0 <= i < |s| ==> IsSpace(s[i])
  }

  /** The number of whitespace characters `s.lstrip()` drops. */
  function LeadingSpaces(s: string): (n: nat)
    ensures n <= |s| && (forall i :: 0 <= i < n ==> IsSpace(s[i]))
    ensures n < |s| ==> !IsSpace(s[n])
  {
    if s != [] && IsSpace(s[0]) then
      var m := LeadingSpaces(s[1..]);
      assert forall i :: 1 <= i <= m ==> s[i] == s[1..][i - 1];
      1 + m
    else 0
  }

  /** The number of whitespace characters `s.rstrip()` drops. */
  function TrailingSpaces(s: string): (n: nat)
    ensures n <= |s| && (forall i :: |s| - n <= i < |s| ==> IsSpace(s[i]))
    ensures n < |s| ==> !IsSpace(s[|s| - n - 1])
  {
    if s != [] && IsSpace(s[|s| - 1]) then
      var m := TrailingSpaces(s[..|s| - 1]);
      assert forall i :: 0 <= i < |s| - 1 ==> s[i] == s[..|s| - 1][i];
      1 + m
    else 0
  }

  /** `s.strip()`. */
  function Strip(s: string): string {
    var t := s[LeadingSpaces(s)..];
    t[..|t| - TrailingSpaces(t)]
  }

  /** What remains of `int()`'s argument once stripped: an optional sign followed by
      at least one digit. */
  predicate IsIntLiteral(t: string) {
    (|t| > 0 && AllDigits(t)) || (|t| > 1 && (t[0] == '+' || t[0] == '-') && AllDigits(t[1..]))
  }

  /** `int(s)` on a string: the integer it spells, or `None` where Python raises
      `ValueError`. */
  function ParseInt(s: string): (r: Option<int>)
    ensures r.Some? <==> IsIntLiteral(Strip(s))
    ensures r.Some? && AllDigits(Strip(s)) ==> r.value == DecimalValue(Strip(s))
    ensures r.Some? && Strip(s)[0] == '-' ==> r.value == -(DecimalValue(Strip(s)[1..]) as int)
    ensures r.Some? && Strip(s)[0] == '+' ==> r.value == DecimalValue(Strip(s)[1..])
  {
    var t := Strip(s);
    if |t| > 0 && AllDigits(t) then Some(DecimalValue(t))
    else if IsIntLiteral(t) then
      Some(if t[0] == '-' then -(DecimalValue(t[1..]) as int) else DecimalValue(t[1..]))
    else None
  }

  lemma {:induction false} LeadingPadded(pre: string, x: string)
    requires AllSpaces(pre) && x != [] && !IsSpace(x[0])
    ensures LeadingSpaces(pre + x) == |pre|
  {
    var s := pre + x;
    var n := LeadingSpaces(s);
    assert s[|pre|] == x[0];
  }

  lemma {:induction false} TrailingPadded(x: string, post: string)
    requires AllSpaces(post) && x != [] && !IsSpace(x[|x| - 1])
    ensures TrailingSpaces(x + post) == |post|
  {
    var s := x + post;
    var n := TrailingSpaces(s);
    assert s[|x| - 1] == x[|x| - 1];
  }

  /** Whitespace around a text that neither starts nor ends with whitespace is stripped
      exactly. */
  lemma {:induction false} StripPadded(pre: string, x: string, post: string)
    requires AllSpaces(pre) && AllSpaces(post) && x != [] && !IsSpace(x[0]) && !IsSpace(x[|x| - 1])
    ensures Strip(pre + x + post) == x
  {
    assert pre + x + post == pre + (x + post);
    assert (x + post)[0] == x[0];
    LeadingPadded(pre, x + post);
    assert (pre + x + post)[|pre|..] == x + post;
    TrailingPadded(x, post);
    assert (x + post)[..|x|] == x;
  }

  /** A stripped text of digits, possibly signed, is read as the number it spells. */
  lemma {:induction false} ParseSigned(s: string, sign: string, d: string)
    requires sign == "" || sign == "-" || sign == "+"
    requires |d| > 0 && AllDigits(d) && Strip(s) == sign + d
    ensures ParseInt(s) == Some(if sign == "-" then -(DecimalValue(d) as int) else DecimalValue(d))
  {
    var t := sign + d;
    if sign == "" {
      assert t == d;
    } else {
      assert t[1..] == d;
      assert !IsDigit(t[0]);
    }
  }

  /** A printed number, signed or not, neither starts nor ends with whitespace. */
  lemma {:induction false} SignedTextEnds(sign: string, d: string)
    requires sign == "" || sign == "-" || sign == "+"
    requires |d| > 0 && AllDigits(d)
    ensures var x := sign + d; x != [] && !IsSpace(x[0]) && !IsSpace(x[|x| - 1])
  {
    var x := sign + d;
    assert x[|x| - 1] == d[|d| - 1];
    if sign == "" {
      assert x[0] == d[0];
    } else {
      assert x[0] == sign[0];
    }
  }

  /** `int()` reads back what `str()` prints, with or without a sign and surrounding
      whitespace. */
  lemma {:induction false} ParseIntReadsBack(n: nat, sign: string, pre: string, post: string)
    requires sign == "" || sign == "-" || sign == "+"
    requires AllSpaces(pre) && AllSpaces(post)
    ensures ParseInt(pre + (sign + NatText(n)) + post) == Some(if sign == "-" then -(n as int) else n)
  {
    var d := NatText(n);
    NatTextReadsBack(n);
    SignedTextEnds(sign, d);
    StripPadded(pre, sign + d, post);
    ParseSigned(pre + (sign + d) + post, sign, d);
  }

  /** A text with a character that is neither a digit nor a leading sign is not an
      integer literal. */
  lemma {:induction false} NotIntLiteral(t: string, i: nat)
    requires i < |t| && !IsDigit(t[i])
    requires i > 0 || |t| == 1 || (t[0] != '+' && t[0] != '-')
    ensures !IsIntLiteral(t)
  {
    assert !AllDigits(t) by {
      assert !IsDigit(t[i]);
    }
    if i > 0 && |t| > 1 {
      assert !AllDigits(t[1..]) by {
        assert t[1..][i - 1] == t[i];
      }
    }
  }

  /** `int()` reads a single digit as its value. */
  lemma {:induction false} ParseIntDigit(c: char)
    requires IsDigit(c)
    ensures ParseInt([c]) == Some(DigitValue(c))
  {
    var d := [c];
    assert LeadingSpaces(d) == 0 && TrailingSpaces(d) == 0;
    assert Strip(d) == d;
    assert AllDigits(d);
    assert d[..0] == "";
    assert DecimalValue(d) == DecimalValue(d[..0]) * 10 + DigitValue(d[0]);
    assert DecimalValue(d) == DigitValue(c);
  }

  /** Blank text and a bare sign are refused. */
  lemma {:induction false} ParseIntRefusesEmpty()
    ensures ParseInt("  ") == None && ParseInt("+") == None
  {
    assert Strip("  ") == "";
    StripPadded("", "+", "");
    assert "" + "+" + "" == "+";
    NotIntLiteral("+", 0);
  }

  /** A decimal fraction and a word are refused. */
  lemma {:induction false} ParseIntRefusesText()
    ensures ParseInt("1.5") == None && ParseInt("yes") == None
  {
    StripPadded("", "1.5", "");
    assert "" + "1.5" + "" == "1.5";
    NotIntLiteral("1.5", 1);
    StripPadded("", "yes", "");
    assert "" + "yes" + "" == "yes";
    NotIntLiteral("yes", 0);
  }
}
