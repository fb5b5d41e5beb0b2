/**
 * Decimal rendering and parsing of integers: str(n) / f-strings in Python and
 * Number.prototype.toString() in JavaScript render with ShowInt; Python's
 * int(text) parses with ParsePyInt.
 */
module Decimal {
  import opened Wrappers
  import Text

  predicate IsDigit(c: char) {
    '0' <= c <= '9'
  }

  predicate AllDigits(s: string) {
    forall i :: 0 <= i < |s| ==> IsDigit(s[i])
  }

  function DigitChar(d: nat): (c: char)
    requires d < 10
    ensures IsDigit(c) && c as int - '0' as int == d
  {
    ('0' as int + d) as char
  }

  function DigitValue(c: char): nat
    requires IsDigit(c)
  {
    c as int - '0' as int
  }

  /** The number a string of decimal digits denotes (the empty string denotes 0). */
  function Value(s: string): nat
    requires AllDigits(s)
  {
    if s == [] then 0 else Value(s[..|s| - 1]) * 10 + DigitValue(s[|s| - 1])
  }

  /** The decimal digits of n, without leading zeros. */
  function ShowNat(n: nat): (r: string)
    ensures r != [] && AllDigits(r)
    ensures r[0] == '0' ==> r == "0"
  {
    if n < 10 then [DigitChar(n)] else ShowNat(n / 10) + [DigitChar(n % 10)]
  }

  /** Python's str(n) and JavaScript's String(n) for an integer n. */
  function ShowInt(n: int): (r: string)
    ensures r != [] && !Text.IsSpace(r[0]) && IsDigit(r[|r| - 1])
    ensures n >= 0 <==> IsDigit(r[0])
  {
    if n < 0 then "-" + ShowNat(-n) else ShowNat(n)
  }

  /** Reading back the digits of n gives n. */
  lemma {:induction false} ValueOfShowNat(n: nat)
    ensures Value(ShowNat(n)) == n
  {
    if n >= 10 {
      var p := ShowNat(n / 10);
      var r := p + [DigitChar(n % 10)];
      assert r[..|r| - 1] == p;
      ValueOfShowNat(n / 10);
    }
  }

  /** Zeros in front of a digit string do not change its value (padStart with '0'). */
  lemma {:induction false} ValueOfZeroPadded(k: nat, s: string)
    requires AllDigits(s)
    ensures AllDigits(seq(k, _ => '0') + s)
    ensures Value(seq(k, _ => '0') + s) == Value(s)
  {
    var z := seq(k, _ => '0');
    assert AllDigits(z + s);
    if s == [] {
      assert z + s == z;
      ZerosValue(k);
    } else {
      var t := z + s;
      assert t[..|t| - 1] == z + s[..|s| - 1];
      ValueOfZeroPadded(k, s[..|s| - 1]);
    }
  }

  lemma {:induction false} ZerosValue(k: nat)
    ensures AllDigits(seq(k, _ => '0')) && Value(seq(k, _ => '0')) == 0
  {
    var z := seq(k, _ => '0');
    assert AllDigits(z);
    if k > 0 {
      assert z[..k - 1] == seq(k - 1, _ => '0');
      ZerosValue(k - 1);
    }
  }

  /**
   * Digits with single underscores between them, the body of a base-10 literal
   * accepted by Python's int(): it starts and ends with a digit, holds only
   * digits and underscores, and no two underscores are adjacent.
   */
  predicate Grouped(s: string) {
    && s != []
    && IsDigit(s[0])
    && IsDigit(s[|s| - 1])
    && DigitsOrUnderscores(s)
    && NoDoubleUnderscore(s)
  }

  /** No two adjacent characters of s are both underscores. */
  predicate NoDoubleUnderscore(s: string) {
    |s| < 2 || (!(s[0] == '_' && s[1] == '_') && NoDoubleUnderscore(s[1..]))
  }

  predicate DigitsOrUnderscores(s: string) {
    forall i :: 0 <= i < |s| ==> IsDigit(s[i]) || s[i] == '_'
  }

  /** The digits of s in order, underscores removed. */
  function DropUnderscores(s: string): (r: string)
    requires DigitsOrUnderscores(s)
    ensures AllDigits(r) && |r| <= |s|
    ensures AllDigits(s) ==> r == s
  {
    if s == [] then []
    else if s[0] == '_' then DropUnderscores(s[1..])
    else [s[0]] + DropUnderscores(s[1..])
  }

  /**
   * Python's int(text) for a string: surrounding whitespace is ignored, one
   * optional sign, then grouped decimal digits; anything else raises
   * ValueError, modelled as None.
   */
  function ParsePyInt(text: string): (r: Option<int>)
    ensures r.Some? ==> !Text.AllSpace(text)
  {
    ParseSigned(Text.Trim(text))
  }

  /** int() of already trimmed text: one optional sign, then a grouped literal. */
  function ParseSigned(t: string): (r: Option<int>)
    ensures r.Some? ==> t != []
  {
    if t != [] && (t[0] == '-' || t[0] == '+') then
      match GroupedValue(t[1..])
      case None => None
      case Some(v) => Some(if t[0] == '-' then -(v as int) else v as int)
    else
      match GroupedValue(t)
      case None => None
      case Some(v) => Some(v as int)
  }

  /** The value of a grouped literal, or None when s is not one. */
  function GroupedValue(s: string): (r: Option<nat>)
    ensures r.Some? ==> s != [] && IsDigit(s[0])
  {
    if Grouped(s) then Some(Value(DropUnderscores(s))) else None
  }

  /** Parsing what ShowInt renders gives the number back. */
  lemma RenderThenParse(n: int)
    ensures ParsePyInt(ShowInt(n)) == Some(n)
  {
    var m: nat := if n < 0 then -n else n;
    var d := ShowNat(m);
    ValueOfShowNat(m);
    if n < 0 {
      var s := "-" + d;
      assert s[1..] == d;
      PyIntOfNegated(s);
    } else {
      PyIntOfDigits(d);
    }
  }

  /** int() of a non-empty digit string is its value. */
  lemma PyIntOfDigits(d: string)
    requires d != [] && AllDigits(d)
    ensures ParsePyInt(d) == Some(Value(d) as int)
  {
    Text.TrimKeeps(d);
    GroupedValueOfDigits(d);
  }

  /** int() of a minus sign followed by a non-empty digit string is the negated value. */
  lemma PyIntOfNegated(s: string)
    requires |s| > 1 && s[0] == '-' && AllDigits(s[1..])
    ensures ParsePyInt(s) == Some(-(Value(s[1..]) as int))
  {
    Text.TrimKeeps(s);
    GroupedValueOfDigits(s[1..]);
  }

  /** A non-empty digit string is a grouped literal with nothing to drop. */
  lemma GroupedValueOfDigits(d: string)
    requires d != [] && AllDigits(d)
    ensures GroupedValue(d) == Some(Value(d))
  {
    DigitsHaveNoDoubleUnderscore(d);
  }

  lemma {:induction false} DigitsHaveNoDoubleUnderscore(d: string)
    requires AllDigits(d)
    ensures NoDoubleUnderscore(d)
  {
    if |d| >= 2 {
      DigitsHaveNoDoubleUnderscore(d[1..]);
    }
  }

  /** The length of the run of decimal digits at the start of s. */
  function DigitRun(s: string): (k: nat)
    ensures k <= |s|
    ensures forall i :: 0 <= i < k ==> IsDigit(s[i])
    ensures k < |s| ==> !IsDigit(s[k])
  {
    if s == [] || !IsDigit(s[0]) then 0
    else
      var k := 1 + DigitRun(s[1..]);
      assert forall i :: 1 <= i < k ==> s[i] == s[1..][i - 1];
      k
  }

  /** The digit run of a digit string followed by anything that does not start with a digit is that string. */
  lemma {:induction false} DigitRunOfDigits(d: string, rest: string)
    requires AllDigits(d) && (rest == [] || !IsDigit(rest[0]))
    ensures DigitRun(d + rest) == |d|
  {
    if d != [] {
      assert (d + rest)[1..] == d[1..] + rest;
      DigitRunOfDigits(d[1..], rest);
    }
  }

  /**
   * JavaScript's parseInt(text, 10): leading whitespace is skipped, one
   * optional sign is read, then the longest run of decimal digits; whatever
   * follows is ignored.  No digits gives NaN, modelled as None.
   */
  function ParseJsInt(text: string): Option<int> {
    SignedLeadingValue(Text.TrimStart(text))
  }

  /** parseInt of text that starts with no whitespace: one optional sign, then the leading digits. */
  function SignedLeadingValue(t: string): Option<int> {
    if t != [] && (t[0] == '-' || t[0] == '+') then
      match LeadingValue(t[1..])
      case None => None
      case Some(v) => Some(if t[0] == '-' then -(v as int) else v as int)
    else
      match LeadingValue(t)
      case None => None
      case Some(v) => Some(v as int)
  }

  /** The value of the digits at the start of s, or None when s does not start with a digit. */
  function LeadingValue(s: string): (r: Option<nat>)
    ensures r.None? <==> s == [] || !IsDigit(s[0])
  {
    var k := DigitRun(s);
    if k == 0 then None else Some(Value(s[..k]))
  }

  /** The leading value of a digit string followed by text that does not start with a digit is the value of that string. */
  lemma LeadingValueOfDigits(d: string, rest: string)
    requires d != [] && AllDigits(d) && (rest == [] || !IsDigit(rest[0]))
    ensures LeadingValue(d + rest) == Some(Value(d))
  {
    DigitRunOfDigits(d, rest);
    assert (d + rest)[..|d|] == d;
  }

  /** parseInt of a digit string followed by text that does not start with a digit. */
  lemma JsIntOfDigits(d: string, rest: string)
    requires d != [] && AllDigits(d) && (rest == [] || !IsDigit(rest[0]))
    ensures ParseJsInt(d + rest) == Some(Value(d))
  {
    var s := d + rest;
    assert s[0] == d[0];
    Text.TrimStartOfNonSpace(s);
    LeadingValueOfDigits(d, rest);
    assert SignedLeadingValue(s) == Some(Value(d) as int);
  }

  /** parseInt of a minus sign, a digit string and text that does not start with a digit. */
  lemma JsIntOfNegated(d: string, rest: string)
    requires d != [] && AllDigits(d) && (rest == [] || !IsDigit(rest[0]))
    ensures ParseJsInt("-" + (d + rest)) == Some(-(Value(d) as int))
  {
    LeadingValueOfDigits(d, rest);
    JsIntOfMinus(d + rest, Value(d));
  }

  /** parseInt of a minus sign and then text with a leading value is that value negated. */
  lemma JsIntOfMinus(body: string, v: nat)
    requires LeadingValue(body) == Some(v)
    ensures ParseJsInt("-" + body) == Some(-(v as int))
  {
    var s := "-" + body;
    Text.TrimStartOfNonSpace(s);
    assert s[1..] == body;
  }

  /** parseInt reads back what String(n) renders, whatever non-digit text follows it. */
  lemma JsIntReadsRendered(n: int, rest: string)
    requires rest == [] || !IsDigit(rest[0])
    ensures ParseJsInt(ShowInt(n) + rest) == Some(n)
  {
    if n < 0 {
      JsIntReadsNegative(-n, rest);
    } else {
      JsIntReadsNatural(n, rest);
    }
  }

  /** parseInt reads back String(m) for m >= 0. */
  lemma JsIntReadsNatural(m: nat, rest: string)
    requires rest == [] || !IsDigit(rest[0])
    ensures ParseJsInt(ShowNat(m) + rest) == Some(m as int)
  {
    ValueOfShowNat(m);
    JsIntOfDigits(ShowNat(m), rest);
  }

  /** parseInt reads back String(-m) for m > 0. */
  lemma JsIntReadsNegative(m: nat, rest: string)
    requires m > 0 && (rest == [] || !IsDigit(rest[0]))
    ensures ParseJsInt("-" + ShowNat(m) + rest) == Some(-(m as int))
  {
    var d := ShowNat(m);
    ValueOfShowNat(m);
    assert "-" + d + rest == "-" + (d + rest);
    JsIntOfNegated(d, rest);
  }
}
