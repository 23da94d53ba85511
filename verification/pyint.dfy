/**
  Python's base-10 conversions between text and integers: `int(s)` for a
  `str` argument and `str(n)` for an `int`. The bot passes a chat id through
  a deep link as `str(chat_id)` and reads it back with `int(...)`.
 */
module PyInt {
  import opened Wrappers

  predicate IsDigit(c: char) {
    '0' <= c <= '9'
  }

  /**
    The white space `int()` ignores at both ends: the ASCII characters tab,
    line feed, vertical tab, form feed, carriage return and space, and the
    non-ASCII characters Python's `str.isspace` accepts. The ASCII
    separators U+001C to U+001F are not among them.
   */
  predicate IsSpace(c: char) {
    || '\t' <= c <= '\r'
    || c == ' '
    || c == '\U{85}'
    || c == '\U{a0}'
    || c == '\U{1680}'
    || '\U{2000}' <= c <= '\U{200a}'
    || c == '\U{2028}'
    || c == '\U{2029}'
    || c == '\U{202f}'
    || c == '\U{205f}'
    || c == '\U{3000}'
  }

  function StripLeading(s: string): (t: string)
    ensures |t| <= |s| && t == s[|s| - |t|..]
    ensures |t| > 0 ==> !IsSpace(t[0])
  {
    if |s| > 0 && IsSpace(s[0]) then StripLeading(s[1..]) else s
  }

  function StripTrailing(s: string): (t: string)
    ensures |t| <= |s| && t == s[..|t|]
    ensures |t| > 0 ==> !IsSpace(t[|t| - 1])
  {
    if |s| > 0 && IsSpace(s[|s| - 1]) then StripTrailing(s[..|s| - 1]) else s
  }

  function Strip(s: string): string {
    StripTrailing(StripLeading(s))
  }

  /** Python's grammar for the digits of a decimal literal: digits, with single underscores only between two digits. */
  predicate IsDigitGroup(d: string) {
    && |d| > 0
    && IsDigit(d[0])
    && IsDigit(d[|d| - 1])
    && (forall i :: 0 <= i < |d| ==> IsDigit(d[i]) || d[i] == '_')
    && (forall i :: 0 <= i < |d| - 1 ==> d[i] != '_' || d[i + 1] != '_')
  }

  function DropUnderscores(d: string): (r: string)
    ensures |r| <= |d|
    ensures (forall i :: 0 <= i < |d| ==> IsDigit(d[i]) || d[i] == '_') ==> forall i :: 0 <= i < |r| ==> IsDigit(r[i])
  {
    if |d| == 0 then []
    else if d[0] == '_' then DropUnderscores(d[1..])
    else [d[0]] + DropUnderscores(d[1..])
  }

  /** The value of a string of decimal digits, most significant first; leading zeros are allowed. */
  function DigitsValue(d: string): (n: int)
    requires forall i :: 0 <= i < |d| ==> IsDigit(d[i])
    ensures n >= 0
  {
    if |d| == 0 then 0
    else assert IsDigit(d[|d| - 1]); DigitsValue(d[..|d| - 1]) * 10 + (d[|d| - 1] as int - '0' as int)
  }

  function ParseDigits(d: string): (r: Option<int>)
    ensures r.Some? ==> r.value >= 0
  {
    if IsDigitGroup(d) then Some(DigitsValue(DropUnderscores(d))) else None
  }

  /**
    `int(s)`: surrounding white space is ignored, an optional `+` or `-`
    sign comes first, then the digits. `None` is the `ValueError` case.
   */
  function ParseInt(s: string): (r: Option<int>)
    ensures r.Some? ==> |Strip(s)| > 0 && IsDigit(Strip(s)[|Strip(s)| - 1])
    ensures r.Some? && r.value < 0 ==> Strip(s)[0] == '-'
  {
    var t := Strip(s);
    if |t| > 0 && (t[0] == '+' || t[0] == '-') then
      match ParseDigits(t[1..])
      case None => None
      case Some(m) => if t[0] == '-' then Some(-m) else Some(m)
    else
      ParseDigits(t)
  }

  function DigitChar(d: nat): char
    requires d < 10
  {
    ('0' as int + d) as char
  }

  /** `str(n)` for a non-negative `n`: its decimal digits without leading zeros. */
  function NatToString(n: nat): (s: string)
    ensures |s| > 0
    ensures forall i :: 0 <= i < |s| ==> IsDigit(s[i])
    ensures s[0] == '0' <==> n == 0
  {
    if n < 10 then [DigitChar(n)] else NatToString(n / 10) + [DigitChar(n % 10)]
  }

  /** `str(n)`: a minus sign exactly for negative numbers, then the digits of the magnitude. */
  function IntToString(n: int): (s: string)
    ensures |s| > 0
    ensures s[0] == '-' <==> n < 0
    ensures forall i :: 0 < i < |s| ==> IsDigit(s[i])
    ensures n >= 0 ==> forall i :: 0 <= i < |s| ==> IsDigit(s[i])
    ensures n < 0 ==> |s| >= 2
    ensures s[if n < 0 then 1 else 0] == '0' ==> s == "0"
    ensures IsDigit(s[|s| - 1])
  {
    if n < 0 then "-" + NatToString(-n) else NatToString(n)
  }

  lemma {:induction false} DigitsValueOfNatToString(n: nat)
    ensures DigitsValue(NatToString(n)) == n
  {
    if n >= 10 {
      var s := NatToString(n);
      assert s[..|s| - 1] == NatToString(n / 10);
      DigitsValueOfNatToString(n / 10);
    }
  }

  lemma {:induction false} DropUnderscoresOfDigits(d: string)
    requires forall i :: 0 <= i < |d| ==> IsDigit(d[i])
    ensures DropUnderscores(d) == d
  {
    if |d| > 0 {
      DropUnderscoresOfDigits(d[1..]);
    }
  }

  lemma ParseDigitsOfNatToString(n: nat)
    ensures ParseDigits(NatToString(n)) == Some(n)
  {
    var s := NatToString(n);
    DropUnderscoresOfDigits(s);
    DigitsValueOfNatToString(n);
  }

  /** Text without white space at either end is its own strip. */
  lemma StripOfUnpadded(s: string)
    requires |s| > 0 && !IsSpace(s[0]) && !IsSpace(s[|s| - 1])
    ensures Strip(s) == s
  {
    assert StripLeading(s) == s;
  }

  lemma ParseIntOfNegative(d: string, m: int)
    requires |d| > 0 && !IsSpace(d[|d| - 1])
    requires ParseDigits(d) == Some(m)
    ensures ParseInt("-" + d) == Some(-m)
  {
    var s := "-" + d;
    assert s[1..] == d;
    StripOfUnpadded(s);
  }

  lemma ParseIntOfUnsigned(s: string)
    requires |s| > 0 && !IsSpace(s[0]) && !IsSpace(s[|s| - 1])
    requires s[0] != '-' && s[0] != '+'
    ensures ParseInt(s) == ParseDigits(s)
  {
    StripOfUnpadded(s);
  }

  /** `int(str(n)) == n` for every integer `n`. */
  lemma ParseIntOfIntToString(n: int)
    ensures ParseInt(IntToString(n)) == Some(n)
  {
    var s := IntToString(n);
    if n < 0 {
      ParseDigitsOfNatToString(-n);
      ParseIntOfNegative(NatToString(-n), -n);
    } else {
      ParseDigitsOfNatToString(n);
      ParseIntOfUnsigned(s);
    }
  }

  /** Stripping twice strips nothing more. */
  lemma StripIdempotent(s: string)
    ensures Strip(Strip(s)) == Strip(s)
  {
    var l := StripLeading(s);
    var t := StripTrailing(l);
    if |t| > 0 {
      assert t[0] == l[0];
      assert StripLeading(t) == t;
      assert StripTrailing(t) == t;
    } else {
      assert StripLeading(t) == t;
    }
  }

  /** `int()` depends on its argument only up to surrounding white space. */
  lemma ParseIntIgnoresSurroundingSpace(s: string)
    ensures ParseInt(s) == ParseInt(Strip(s))
  {
    StripIdempotent(s);
  }

  /** The text `str()` produces: an optional minus sign, then digits with no leading zero, and never `-0`. */
  predicate IsCanonicalInt(s: string) {
    if |s| > 0 && s[0] == '-' then IsCanonicalNat(s[1..]) && s[1..] != "0"
    else IsCanonicalNat(s)
  }

  predicate IsCanonicalNat(d: string) {
    && |d| > 0
    && (forall i :: 0 <= i < |d| ==> IsDigit(d[i]))
    && (d[0] == '0' ==> d == "0")
  }

  lemma {:induction false} DigitsValuePositive(d: string)
    requires |d| > 0 && forall i :: 0 <= i < |d| ==> IsDigit(d[i])
    requires d[0] != '0'
    ensures DigitsValue(d) >= 1
  {
    if |d| > 1 {
      var d' := d[..|d| - 1];
      assert d'[0] == d[0];
      DigitsValuePositive(d');
    }
  }

  /** Digits without a leading zero are exactly what `str()` prints for their value. */
  lemma {:induction false} NatToStringOfDigitsValue(d: string)
    requires IsCanonicalNat(d)
    ensures NatToString(DigitsValue(d)) == d
  {
    var d' := d[..|d| - 1];
    var c := d[|d| - 1];
    var v := c as int - '0' as int;
    assert IsDigit(c);
    if |d| == 1 {
      assert d' == "";
      assert DigitsValue(d) == v;
      assert DigitChar(v) == c;
    } else {
      assert d'[0] == d[0];
      assert d[0] != '0';
      DigitsValuePositive(d');
      NatToStringOfDigitsValue(d');
      var n := DigitsValue(d);
      assert n == DigitsValue(d') * 10 + v;
      assert n / 10 == DigitsValue(d') && n % 10 == v;
      assert DigitChar(v) == c;
      assert d == d' + [c];
    }
  }

  lemma ParseDigitsOfCanonicalNat(d: string)
    requires IsCanonicalNat(d)
    ensures ParseDigits(d) == Some(DigitsValue(d))
    ensures NatToString(DigitsValue(d)) == d
  {
    assert IsDigitGroup(d);
    DropUnderscoresOfDigits(d);
    NatToStringOfDigitsValue(d);
  }

  lemma ParseIntOfCanonicalNegative(d: string)
    requires IsCanonicalNat(d) && d != "0"
    ensures ParseInt("-" + d).Some? && IntToString(ParseInt("-" + d).value) == "-" + d
  {
    ParseDigitsOfCanonicalNat(d);
    var n := DigitsValue(d);
    assert n != 0;
    ParseIntOfNegative(d, n);
  }

  lemma ParseIntOfCanonicalNat(s: string)
    requires IsCanonicalNat(s)
    ensures ParseInt(s).Some? && IntToString(ParseInt(s).value) == s
  {
    ParseDigitsOfCanonicalNat(s);
    ParseIntOfUnsigned(s);
  }

  /** `str(int(s)) == s` for every text `s` in the form `str()` produces. */
  lemma ParseIntOfCanonical(s: string)
    requires IsCanonicalInt(s)
    ensures ParseInt(s).Some? && IntToString(ParseInt(s).value) == s
  {
    if |s| > 0 && s[0] == '-' {
      assert s == "-" + s[1..];
      ParseIntOfCanonicalNegative(s[1..]);
    } else {
      ParseIntOfCanonicalNat(s);
    }
  }
}
