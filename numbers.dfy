/**
 * JavaScript's number-text conversions as the source uses them on integer
 * settings: `String(n)` / `n.toString()` for an integer, and `parseInt(text)`
 * with no radix argument. `None` stands for `NaN`.
 */
module Numbers {
  import opened Wrappers

  /** Characters `parseInt` skips before the number (StrWhiteSpaceChar of ECMAScript). */
  predicate IsWhiteSpace(c: char) {
    c == ' ' || c == '\t' || c == '\n' || c == '\r' || c == '\U{B}' || c == '\U{C}'
    || c == '\U{A0}' || c == '\U{FEFF}' || c == '\U{1680}' || ('\U{2000}' <= c <= '\U{200A}')
    || c == '\U{2028}' || c == '\U{2029}' || c == '\U{202F}' || c == '\U{205F}' || c == '\U{3000}'
  }

  function TrimStart(s: string): (r: string)
    ensures |r| <= |s| && r == s[|s| - |r|..]
    ensures r != [] ==> !IsWhiteSpace(r[0])
  {
    if s != [] && IsWhiteSpace(s[0]) then TrimStart(s[1..]) else s
  }

  /** The value of `c` as a digit in `radix` (up to 36), if it is one. */
  function DigitValue(c: char, radix: nat): (r: Option<nat>)
    ensures r.Some? ==> r.value < radix
  {
    var v :=
      if '0' <= c <= '9' then c as int - '0' as int
      else if 'a' <= c <= 'z' then 10 + (c as int - 'a' as int)
      else if 'A' <= c <= 'Z' then 10 + (c as int - 'A' as int)
      else 36;
    if v < radix then Some(v) else None
  }

  /** The longest prefix of `s` made of digits of `radix`. */
  function DigitPrefix(s: string, radix: nat): (r: string)
    ensures |r| <= |s| && r == s[..|r|]
    ensures AllDigits(r, radix)
    ensures |r| < |s| ==> DigitValue(s[|r|], radix).None?
  {
    if s == [] || DigitValue(s[0], radix).None? then []
    else [s[0]] + DigitPrefix(s[1..], radix)
  }

  /** Every character of `d` is a digit of `radix`. */
  predicate AllDigits(d: string, radix: nat) {
    forall i :: 0 <= i < |d| ==> DigitValue(d[i], radix).Some?
  }

  /** The number a digit string denotes, most significant digit first. */
  function DigitsValue(d: string, radix: nat): nat
    requires AllDigits(d, radix)
  {
    if d == [] then 0
    else
      var front := d[..|d| - 1];
      var high: nat := DigitsValue(front, radix);
      var low: nat := DigitValue(d[|d| - 1], radix).value;
      high * radix + low
  }

  /**
   * `parseInt(s)`: leading white space is skipped, then one optional sign, then
   * a `0x`/`0X` prefix selects radix 16; the longest run of digits that follows
   * is the value, and no digit at all gives `NaN`.
   */
  function ParseInt(s: string): Option<int> {
    ParseSigned(TrimStart(s))
  }

  function ParseSigned(t: string): Option<int> {
    if t != [] && t[0] == '-' then
      Negated(ParseUnsigned(t[1..]))
    else if t != [] && t[0] == '+' then ParseUnsigned(t[1..])
    else ParseUnsigned(t)
  }

  function Negated(v: Option<nat>): Option<int> {
    if v.None? then None else Some(0 - v.value)
  }

  function ParseUnsigned(u: string): Option<nat> {
    if |u| >= 2 && u[0] == '0' && (u[1] == 'x' || u[1] == 'X') then ParseDigits(u[2..], 16)
    else ParseDigits(u, 10)
  }

  function ParseDigits(v: string, radix: nat): Option<nat> {
    var d := DigitPrefix(v, radix);
    if d == [] then None else Some(DigitsValue(d, radix))
  }

  function DigitChar(d: nat): (c: char)
    requires d < 10
    ensures DigitValue(c, 10) == Some(d)
  {
    ('0' as int + d) as char
  }

  /** Decimal text of a natural number, without leading zeros. */
  function NatToString(n: nat): (s: string)
    ensures s != []
    decreases n
  {
    if n < 10 then [DigitChar(n)] else NatToString(n / 10) + [DigitChar(n % 10)]
  }

  /** `String(n)` for an integer `n`. */
  function IntToString(n: int): string {
    if n < 0 then "-" + NatToString(-n) else NatToString(n)
  }

  lemma {:induction false} NatToStringDigits(n: nat)
    ensures AllDigits(NatToString(n), 10)
    ensures DigitsValue(NatToString(n), 10) == n
    decreases n
  {
    if n >= 10 {
      NatToStringDigits(n / 10);
      var s := NatToString(n);
      assert s[..|s| - 1] == NatToString(n / 10);
    }
  }

  /** Only zero is written with a leading `0`. */
  lemma {:induction false} NatToStringLead(n: nat)
    ensures n > 0 ==> NatToString(n)[0] != '0'
    ensures '0' <= NatToString(n)[0] <= '9'
    decreases n
  {
    if n >= 10 {
      NatToStringLead(n / 10);
    }
  }

  lemma {:induction false} DigitPrefixOfDigits(s: string, radix: nat)
    requires AllDigits(s, radix)
    ensures DigitPrefix(s, radix) == s
  {
    if s != [] {
      DigitPrefixOfDigits(s[1..], radix);
    }
  }

  lemma ParseNatText(n: nat)
    ensures ParseUnsigned(NatToString(n)) == Some(n)
    ensures TrimStart(NatToString(n)) == NatToString(n)
    ensures NatToString(n)[0] != '-' && NatToString(n)[0] != '+'
  {
    var s := NatToString(n);
    NatToStringLead(n);
    assert !IsWhiteSpace(s[0]);
    assert !(|s| >= 2 && s[0] == '0') by {
      if |s| >= 2 { assert n >= 10; }
    }
    NatToStringDigits(n);
    DigitPrefixOfDigits(s, 10);
    assert ParseDigits(s, 10) == Some(n);
  }

  /** Text written by `String(n)` is read back as `n` by `parseInt`. */
  lemma ParseIntOfIntToString(n: int)
    ensures ParseInt(IntToString(n)) == Some(n)
  {
    if n >= 0 {
      ParseIntOfNat(n);
    } else {
      ParseIntOfNegative(-n);
      assert IntToString(n) == "-" + NatToString(-n);
    }
  }

  lemma ParseIntOfNat(n: nat)
    ensures ParseInt(NatToString(n)) == Some(n)
  {
    ParseNatText(n);
  }

  lemma ParseIntOfNegative(m: nat)
    ensures ParseInt("-" + NatToString(m)) == Some(-(m as int))
  {
    var digits := NatToString(m);
    var t := "-" + digits;
    ParseNatText(m);
    assert t[0] == '-' && t[1..] == digits;
    assert TrimStart(t) == t by {
      assert !IsWhiteSpace(t[0]);
    }
    assert ParseSigned(t) == Negated(ParseUnsigned(digits));
  }
}
