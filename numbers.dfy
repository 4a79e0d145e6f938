/** The two conversions between `long long` and decimal text that the
    repository uses: `std::to_string(long long)` renders an id into the
    SELECT statement, and `std::stoll` reads it back from a row cell. */
module Numbers {
  import opened Wrappers

  /** The values of a 64-bit `long long`. */
  type Int64 = x: int | -0x8000_0000_0000_0000 <= x <= 0x7FFF_FFFF_FFFF_FFFF

  predicate IsInt64(x: int)
  {
    -0x8000_0000_0000_0000 <= x <= 0x7FFF_FFFF_FFFF_FFFF
  }

  predicate IsDigit(c: char)
  {
    '0' <= c <= '9'
  }

  predicate AllDigits(s: string)
  {
    forall k :: 0 <= k < |s| ==> IsDigit(s[k])
  }

  function DigitChar(d: nat): (c: char)
    requires d < 10
    ensures IsDigit(c)
  {
    (48 + d) as char
  }

  function DigitValue(c: char): (d: nat)
    requires IsDigit(c)
    ensures d < 10
  {
    c as int - 48
  }

  /** The decimal digits of `n`, most significant first. */
  function NatToDecimal(n: nat): (s: string)
    ensures |s| > 0 && AllDigits(s)
    ensures s[0] == '0' ==> n == 0
    decreases n
  {
    if n < 10 then [DigitChar(n)] else NatToDecimal(n / 10) + [DigitChar(n % 10)]
  }

  /** `std::to_string(long long)`: a minus sign before the digits of a
      negative value. */
  function IntToDecimal(n: int): (s: string)
    ensures |s| > 0 && (n < 0 <==> s[0] == '-')
  {
    if n < 0 then "-" + NatToDecimal(-n) else NatToDecimal(n)
  }

  /** The number a string of digits denotes. */
  function DigitsValue(d: string): nat
    requires AllDigits(d)
  {
    if |d| == 0 then 0 else DigitsValue(d[..|d| - 1]) * 10 + DigitValue(d[|d| - 1])
  }

  /** Reading back the digits of `n` gives `n`. */
  lemma {:induction false} DigitsOfDecimal(n: nat)
    ensures DigitsValue(NatToDecimal(n)) == n
    decreases n
  {
    if n >= 10 {
      DigitsOfDecimal(n / 10);
      var s := NatToDecimal(n);
      assert s[..|s| - 1] == NatToDecimal(n / 10);
    }
  }

  /** `isspace` in the C locale, which `std::stoll` skips before the number. */
  predicate IsSpace(c: char)
  {
    c == ' ' || c == '\t' || c == '\n' || c == '\U{B}' || c == '\U{C}' || c == '\r'
  }

  predicate AllSpace(s: string)
  {
    forall k :: 0 <= k < |s| ==> IsSpace(s[k])
  }

  /** `s` without its leading white space. */
  function SkipSpace(s: string): (r: string)
    ensures |r| <= |s| && r == s[|s| - |r|..] && AllSpace(s[..|s| - |r|])
    ensures r == [] || !IsSpace(r[0])
  {
    if |s| > 0 && IsSpace(s[0]) then
      var r := SkipSpace(s[1..]);
      assert s[1..][..|s| - 1 - |r|] == s[1..|s| - |r|];
      r
    else
      assert s[..0] == [];
      s
  }

  /** The longest prefix of `s` made of digits. */
  function DigitPrefix(s: string): (d: string)
    ensures |d| <= |s| && d == s[..|d|] && AllDigits(d)
    ensures |d| < |s| ==> !IsDigit(s[|d|])
  {
    if |s| > 0 && IsDigit(s[0]) then [s[0]] + DigitPrefix(s[1..]) else []
  }

  /** `std::stoll(s)` in base 10: white space is skipped, one optional sign
      is read, then as many digits as follow; the rest of the string is
      ignored. It throws (None) when no digit follows, and when the value
      does not fit a `long long`. */
  function ParseLongLong(s: string): (r: Option<Int64>)
    ensures var d := DigitPrefix(Unsigned(SkipSpace(s)));
      && (d == [] ==> r.None?)
      && (r.Some? ==> && (r.value == DigitsValue(d) || r.value == -(DigitsValue(d) as int))
                      && (r.value < 0 ==> SkipSpace(s)[0] == '-'))
  {
    ParseSigned(SkipSpace(s))
  }

  /** The text after an optional leading sign. */
  function Unsigned(t: string): (u: string)
    ensures if |t| > 0 && (t[0] == '-' || t[0] == '+') then u == t[1..] else u == t
  {
    if |t| > 0 && (t[0] == '-' || t[0] == '+') then t[1..] else t
  }

  /** What `std::stoll` reads once the white space is skipped. */
  function ParseSigned(t: string): (r: Option<Int64>)
  {
    var digits := DigitPrefix(Unsigned(t));
    if digits == [] then None
    else
      var magnitude: int := DigitsValue(digits);
      var v := if |t| > 0 && t[0] == '-' then -magnitude else magnitude;
      if IsInt64(v) then Some(v) else None
  }

  /** The digit prefix of digits followed by a non-digit is those digits. */
  lemma {:induction false} DigitPrefixStopsAtNonDigit(d: string, rest: string)
    requires AllDigits(d)
    requires rest == [] || !IsDigit(rest[0])
    ensures DigitPrefix(d + rest) == d
  {
    if d != [] {
      assert (d + rest)[1..] == d[1..] + rest;
      DigitPrefixStopsAtNonDigit(d[1..], rest);
    } else {
      assert d + rest == rest;
    }
  }

  /** The digits of `m` followed by a non-digit read as `m`, however the
      sign has already been dealt with. */
  lemma DigitsBeforeNonDigit(m: nat, rest: string)
    requires rest == [] || !IsDigit(rest[0])
    ensures var d := DigitPrefix(NatToDecimal(m) + rest); d != [] && AllDigits(d) && DigitsValue(d) == m
  {
    DigitsOfDecimal(m);
    DigitPrefixStopsAtNonDigit(NatToDecimal(m), rest);
  }

  lemma ParseNegative(m: nat, rest: string)
    requires rest == [] || !IsDigit(rest[0])
    ensures var n := -(m as int); ParseSigned("-" + (NatToDecimal(m) + rest)) == if IsInt64(n) then Some(n) else None
  {
    var t := "-" + (NatToDecimal(m) + rest);
    DigitsBeforeNonDigit(m, rest);
    assert Unsigned(t) == NatToDecimal(m) + rest;
  }

  lemma ParseNonNegative(m: nat, rest: string)
    requires rest == [] || !IsDigit(rest[0])
    ensures ParseSigned(NatToDecimal(m) + rest) == if IsInt64(m) then Some(m) else None
  {
    var t := NatToDecimal(m) + rest;
    DigitsBeforeNonDigit(m, rest);
    assert t[0] == NatToDecimal(m)[0];
    assert Unsigned(t) == t;
  }

  /** A rendering starts with a sign or a digit, so no space is skipped. */
  lemma DecimalStartsWithoutSpace(n: int, rest: string)
    ensures SkipSpace(IntToDecimal(n) + rest) == IntToDecimal(n) + rest
  {
    var s := IntToDecimal(n) + rest;
    assert s[0] == IntToDecimal(n)[0];
  }

  /** `std::stoll` reads back what `std::to_string` wrote, also when
      non-digit text follows, and rejects a rendering that does not fit a
      `long long`. */
  lemma ParseDecimalPrefix(n: int, rest: string)
    requires rest == [] || !IsDigit(rest[0])
    ensures ParseLongLong(IntToDecimal(n) + rest) == if IsInt64(n) then Some(n) else None
  {
    DecimalStartsWithoutSpace(n, rest);
    if n < 0 {
      assert IntToDecimal(n) + rest == "-" + (NatToDecimal(-n) + rest);
      ParseNegative(-n, rest);
    } else {
      ParseNonNegative(n, rest);
    }
  }

  /** The round trip of the rendered id alone. */
  lemma ParseDecimal(n: Int64)
    ensures ParseLongLong(IntToDecimal(n)) == Some(n)
  {
    ParseDecimalPrefix(n, []);
    assert IntToDecimal(n) + [] == IntToDecimal(n);
  }

  /** Leading white space does not change what `std::stoll` reads. */
  lemma {:induction false} ParseSkipsLeadingSpace(w: string, s: string)
    requires AllSpace(w)
    ensures ParseLongLong(w + s) == ParseLongLong(s)
  {
    SkipSpaceAfterSpace(w, s);
  }

  lemma {:induction false} SkipSpaceAfterSpace(w: string, s: string)
    requires AllSpace(w)
    ensures SkipSpace(w + s) == SkipSpace(s)
  {
    if w != [] {
      assert (w + s)[1..] == w[1..] + s;
      SkipSpaceAfterSpace(w[1..], s);
    } else {
      assert w + s == s;
    }
  }

  /** A cell whose first non-space character after an optional sign is not
      a digit is rejected. */
  lemma ParseNeedsDigit(s: string)
    requires var u := Unsigned(SkipSpace(s)); u == [] || !IsDigit(u[0])
    ensures ParseLongLong(s) == None
  {
  }
}
