/**
 * Integer text as the page script reads and writes it: `Number.prototype.toString`
 * for whole numbers and the global `parseInt`, with its radix argument and its
 * `0x` prefix rule.
 */
module Decimal {
  import opened Wrappers
  import Text

  /** Digit value of `c` in any radix up to 36 ('0'-'9', then 'a'/'A' = 10 up to 'z'/'Z' = 35); 36 for every other character. */
  function CharValue(c: char): (v: nat)
    ensures v <= 36
  {
    if '0' <= c <= '9' then c as int - '0' as int
    else if 'a' <= c <= 'z' then c as int - 'a' as int + 10
    else if 'A' <= c <= 'Z' then c as int - 'A' as int + 10
    else 36
  }

  predicate IsDigitIn(c: char, base: nat)
  {
    CharValue(c) < base
  }

  /** The class `[0-9]`. */
  predicate IsDecimalDigit(c: char)
  {
    IsDigitIn(c, 10)
  }

  predicate AllDigitsIn(s: string, base: nat)
  {
    forall i :: 0 <= i < |s| ==> IsDigitIn(s[i], base)
  }

  function DigitChar(d: nat): (c: char)
    requires d < 10
    ensures IsDecimalDigit(c) && CharValue(c) == d
  {
    (d + '0' as int) as char
  }

  /** Decimal text of `n` without leading zeros. */
  function NatToString(n: nat): (s: string)
    ensures |s| > 0 && AllDigitsIn(s, 10)
  {
    if n < 10 then [DigitChar(n)] else NatToString(n / 10) + [DigitChar(n % 10)]
  }

  /** `i.toString()` for a whole number. */
  function IntToString(i: int): (s: string)
    ensures |s| > 0
  {
    if i < 0 then "-" + NatToString(-i) else NatToString(i)
  }

  /** Value of a digit run in radix `base`, most significant digit first. */
  function DigitsValue(s: string, base: nat): nat
    requires AllDigitsIn(s, base)
  {
    if s == [] then 0 else DigitsValue(s[..|s| - 1], base) * base + CharValue(s[|s| - 1])
  }

  /** The longest prefix of `s` made of radix-`base` digits. */
  function LeadingDigits(s: string, base: nat): (d: string)
    ensures d <= s && AllDigitsIn(d, base)
    ensures |d| < |s| ==> !IsDigitIn(s[|d|], base)
  {
    if |s| > 0 && IsDigitIn(s[0], base) then [s[0]] + LeadingDigits(s[1..], base) else []
  }

  /**
   * The global `parseInt(s, radix)`, with `radix == 0` standing for an absent radix:
   * leading whitespace is skipped, one sign is read, a `0x`/`0X` prefix selects
   * radix 16 when the radix is absent or 16, and the longest run of digits is read.
   * None stands for NaN.
   */
  function ParseInt(s: string, radix: nat): (r: Option<int>)
    ensures radix != 0 && (radix < 2 || 36 < radix) ==> r.None?
    ensures Text.TrimStart(s) == [] ==> r.None?
  {
    if radix != 0 && (radix < 2 || 36 < radix) then None
    else ParseSigned(Text.TrimStart(s), radix)
  }

  function ParseSigned(t: string, radix: nat): Option<int>
  {
    if |t| > 0 && t[0] == '-' then
      match ParseUnsigned(t[1..], radix)
      case None => None
      case Some(n) => Some(-(n as int))
    else if |t| > 0 && t[0] == '+' then ParseUnsigned(t[1..], radix)
    else ParseUnsigned(t, radix)
  }

  function ParseUnsigned(u: string, radix: nat): Option<nat>
  {
    if (radix == 0 || radix == 16) && |u| >= 2 && u[0] == '0' && (u[1] == 'x' || u[1] == 'X') then
      ParseDigits(u[2..], 16)
    else
      ParseDigits(u, if radix == 0 then 10 else radix)
  }

  /** The value of the longest digit run at the start of `u`; None when there is none. */
  function ParseDigits(u: string, base: nat): Option<nat>
  {
    var d := LeadingDigits(u, base);
    if d == [] then None else Some(DigitsValue(d, base))
  }

  lemma {:induction false} DigitsValueOfNatToString(n: nat)
    ensures DigitsValue(NatToString(n), 10) == n
  {
    if n >= 10 {
      var s := NatToString(n);
      assert s[..|s| - 1] == NatToString(n / 10);
      DigitsValueOfNatToString(n / 10);
    }
  }

  /** Different numbers have different decimal texts. */
  lemma NatToStringInjective(m: nat, n: nat)
    requires NatToString(m) == NatToString(n)
    ensures m == n
  {
    DigitsValueOfNatToString(m);
    DigitsValueOfNatToString(n);
  }

  /** A digit run followed by a non-digit is read back exactly. */
  lemma {:induction false} LeadingDigitsOfRun(d: string, rest: string, base: nat)
    requires AllDigitsIn(d, base)
    requires rest == [] || !IsDigitIn(rest[0], base)
    ensures LeadingDigits(d + rest, base) == d
  {
    if d != [] {
      assert (d + rest)[1..] == d[1..] + rest;
      LeadingDigitsOfRun(d[1..], rest, base);
    } else {
      assert d + rest == rest;
    }
  }

  /** A run of decimal digits is read back as its value. */
  lemma ParseDigitsOfRun(d: string)
    requires d != [] && AllDigitsIn(d, 10)
    ensures ParseUnsigned(d, 0) == Some(DigitsValue(d, 10))
    ensures ParseUnsigned(d, 10) == Some(DigitsValue(d, 10))
  {
    LeadingDigitsOfRun(d, [], 10);
    assert d + [] == d;
    assert ParseDigits(d, 10) == Some(DigitsValue(d, 10));
    assert !(|d| >= 2 && (d[1] == 'x' || d[1] == 'X')) by {
      if |d| >= 2 {
        assert IsDigitIn(d[1], 10);
      }
    }
  }

  /** `parseInt` of a run of decimal digits in radix 10 gives its value. */
  lemma ParseDecimalRun(d: string)
    requires d != [] && AllDigitsIn(d, 10)
    ensures ParseInt(d, 10) == Some(DigitsValue(d, 10))
  {
    assert IsDigitIn(d[0], 10);
    assert Text.TrimStart(d) == d;
    ParseDigitsOfRun(d);
  }

  /** `i.toString()` is a minus sign exactly for a negative number, followed by decimal digits. */
  lemma IntToStringShape(i: int)
    ensures var s := IntToString(i);
      && (s[0] == '-' <==> i < 0)
      && AllDigitsIn(if i < 0 then s[1..] else s, 10)
  {
    var n: nat := if i < 0 then -i else i;
    assert IsDigitIn(NatToString(n)[0], 10);
    if i < 0 {
      assert IntToString(i)[1..] == NatToString(n);
    }
  }

  /** `parseInt(text, 10)` reads the leading run of digits and ignores whatever follows it. */
  lemma ParseIntReadsLeadingRun(d: string, rest: string)
    requires d != [] && AllDigitsIn(d, 10)
    requires rest == [] || !IsDecimalDigit(rest[0])
    ensures ParseInt(d + rest, 10) == Some(DigitsValue(d, 10))
  {
    var s := d + rest;
    assert s[0] == d[0] && IsDigitIn(d[0], 10);
    assert Text.TrimStart(s) == s;
    LeadingDigitsOfRun(d, rest, 10);
  }

  /** `toString` writes no leading zero: a text of two or more digits starts with 1 to 9. */
  lemma {:induction false} NatToStringNoLeadingZero(n: nat)
    ensures |NatToString(n)| > 1 ==> NatToString(n)[0] != '0'
    ensures n > 0 ==> NatToString(n)[0] != '0'
  {
    if n >= 10 {
      NatToStringNoLeadingZero(n / 10);
      assert NatToString(n)[0] == NatToString(n / 10)[0];
    }
  }

  /** Reading back what `toString` wrote: `parseInt(i.toString())` is `i`, with or without radix 10. */
  lemma ParseIntOfIntToString(i: int, radix: nat)
    requires radix == 0 || radix == 10
    ensures ParseInt(IntToString(i), radix) == Some(i)
  {
    var s := IntToString(i);
    assert s[0] == '-' || IsDigitIn(s[0], 10);
    assert Text.TrimStart(s) == s;
    ParseSignedOfIntToString(i, radix);
  }

  lemma ParseSignedOfIntToString(i: int, radix: nat)
    requires radix == 0 || radix == 10
    ensures ParseSigned(IntToString(i), radix) == Some(i)
  {
    var n: nat := if i < 0 then -i else i;
    var d := NatToString(n);
    ParseDigitsOfRun(d);
    DigitsValueOfNatToString(n);
    if i < 0 {
      assert IntToString(i)[1..] == d;
    } else {
      assert IsDigitIn(d[0], 10);
    }
  }
}
