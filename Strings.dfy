/**
 * The pieces of JavaScript string handling the core relies on: rendering an
 * integer in a template literal, `parseInt` of a leading run of digits
 * (hexadecimal after `0x`), `split(c)[0]` / `split(c)[1]` and `includes`.
 */
module Strings {
  import opened Types

  predicate IsDigit(c: char)
  {
    '0' <= c <= '9'
  }

  predicate AllDigits(s: string)
  {
    forall i :: 0 <= i < |s| ==> IsDigit(s[i])
  }

  function DigitChar(d: nat): (c: char)
    requires d < 10
    ensures IsDigit(c)
  {
    (48 + d) as char
  }

  function DigitValue(c: char): (d: nat)
    requires IsDigit(c)
    ensures d < 10 && DigitChar(d) == c
  {
    c as int - 48
  }

  /** Decimal rendering without leading zeros, as `${n}` prints a non-negative integer. */
  function NatToString(n: nat): (s: string)
    ensures 1 <= |s| && AllDigits(s)
    ensures (|s| == 1) == (n < 10)
    decreases n
  {
    if n < 10 then [DigitChar(n)] else NatToString(n / 10) + [DigitChar(n % 10)]
  }

  /** `${i}` for any integer: a minus sign before the digits of a negative one. */
  function IntToString(i: int): (s: string)
    ensures 1 <= |s|
    ensures i >= 0 ==> AllDigits(s)
    ensures i < 0 ==> s[0] == '-' && AllDigits(s[1..])
  {
    if i < 0 then "-" + NatToString(-i) else NatToString(i)
  }

  lemma {:induction false} NatToStringInjective(a: nat, b: nat)
    requires NatToString(a) == NatToString(b)
    ensures a == b
    decreases a
  {
    var s := NatToString(a);
    if a < 10 || b < 10 {
      assert a < 10 && b < 10;
      assert DigitValue(s[0]) == a && DigitValue(s[0]) == b;
    } else {
      var p := NatToString(a / 10);
      var q := NatToString(b / 10);
      assert s == p + [DigitChar(a % 10)] == q + [DigitChar(b % 10)];
      assert |p| == |q|;
      assert p == s[..|s| - 1] == q;
      NatToStringInjective(a / 10, b / 10);
      assert DigitValue(s[|s| - 1]) == a % 10 == b % 10;
    }
  }

  lemma IntToStringInjective(a: int, b: int)
    requires IntToString(a) == IntToString(b)
    ensures a == b
  {
    var s := IntToString(a);
    if a < 0 && b < 0 {
      assert NatToString(-a) == s[1..] == NatToString(-b);
      NatToStringInjective(-a, -b);
    } else if a >= 0 && b >= 0 {
      NatToStringInjective(a, b);
    }
  }

  /** Value of a run of decimal digits. */
  function DigitsValue(s: string): nat
    requires AllDigits(s)
    decreases |s|
  {
    if s == [] then 0 else DigitsValue(s[..|s| - 1]) * 10 + DigitValue(s[|s| - 1])
  }

  lemma {:induction false} DigitsValueOfNatToString(n: nat)
    ensures DigitsValue(NatToString(n)) == n
    decreases n
  {
    if n >= 10 {
      var s := NatToString(n);
      assert s[..|s| - 1] == NatToString(n / 10);
      DigitsValueOfNatToString(n / 10);
    }
  }

  /** Length of the run of digits that starts `s`. */
  function DigitRun(s: string): (k: nat)
    ensures k <= |s| && AllDigits(s[..k])
    ensures k < |s| ==> !IsDigit(s[k])
    decreases |s|
  {
    if s != [] && IsDigit(s[0]) then 1 + DigitRun(s[1..]) else 0
  }

  predicate IsHexDigit(c: char)
  {
    IsDigit(c) || 'a' <= c <= 'f' || 'A' <= c <= 'F'
  }

  predicate AllHexDigits(s: string)
  {
    forall i :: 0 <= i < |s| ==> IsHexDigit(s[i])
  }

  function HexDigitValue(c: char): (d: nat)
    requires IsHexDigit(c)
    ensures d < 16
  {
    if IsDigit(c) then DigitValue(c)
    else if 'a' <= c <= 'f' then c as int - 87
    else c as int - 55
  }

  /** Value of a run of hexadecimal digits. */
  function HexValue(s: string): nat
    requires AllHexDigits(s)
    decreases |s|
  {
    if s == [] then 0 else HexValue(s[..|s| - 1]) * 16 + HexDigitValue(s[|s| - 1])
  }

  /** Length of the run of hexadecimal digits that starts `s`. */
  function HexRun(s: string): (k: nat)
    ensures k <= |s| && AllHexDigits(s[..k])
    ensures k < |s| ==> !IsHexDigit(s[k])
    decreases |s|
  {
    if s != [] && IsHexDigit(s[0]) then 1 + HexRun(s[1..]) else 0
  }

  /** `parseInt` without a radix reads text that opens with `0x` or `0X` as hexadecimal. */
  predicate HasHexPrefix(s: string)
  {
    |s| >= 2 && s[0] == '0' && (s[1] == 'x' || s[1] == 'X')
  }

  /**
   * `parseInt` without a radix, on text that holds no sign and no leading blanks:
   * after a `0x`/`0X` prefix the value of the hexadecimal digits that follow it,
   * otherwise the value of the leading decimal digits; None (JavaScript's NaN)
   * when there are no such digits.
   */
  function ParseLeadingInt(s: string): (r: Option<nat>)
    ensures r.None? <==> (s == [] || !IsDigit(s[0]) || (HasHexPrefix(s) && (|s| == 2 || !IsHexDigit(s[2]))))
    ensures !HasHexPrefix(s) && r.Some? ==> r == Some(DigitsValue(s[..DigitRun(s)]))
  {
    if HasHexPrefix(s) then
      var k := HexRun(s[2..]);
      if k == 0 then None else Some(HexValue(s[2..][..k]))
    else
      var k := DigitRun(s);
      if k == 0 then None else Some(DigitsValue(s[..k]))
  }

  /** `parseInt` on the hexadecimal prefix: "0x1A" is 26, "0x" and "0xg" are NaN,
      while "0" and "0y" are 0. */
  lemma HexadecimalPrefix()
    ensures ParseLeadingInt("0x1A") == Some(26) && ParseLeadingInt("0X1a") == Some(26)
    ensures ParseLeadingInt("0x") == None && ParseLeadingInt("0xg") == None
    ensures ParseLeadingInt("0") == Some(0) && ParseLeadingInt("0y") == Some(0)
  {
    HexTwentySix("1A");
    HexTwentySix("1a");
    assert "0x1A"[2..] == "1A" && "0X1a"[2..] == "1a";
    assert "0y"[..1] == "0";
  }

  lemma HexTwentySix(s: string)
    requires s == "1A" || s == "1a"
    ensures HexRun(s) == 2 && s[..2] == s && HexValue(s) == 26
  {
    assert s[1..][1..] == [];
    assert s[..|s| - 1] == "1" && "1"[..0] == [];
  }

  lemma ParseLeadingIntOfNatToString(n: nat, rest: string)
    requires rest == [] || !IsDigit(rest[0])
    requires n == 0 && rest != [] ==> rest[0] != 'x' && rest[0] != 'X'
    ensures ParseLeadingInt(NatToString(n) + rest) == Some(n)
  {
    var s := NatToString(n);
    DigitRunStops(s, rest);
    assert (s + rest)[..|s|] == s;
    DigitsValueOfNatToString(n);
  }

  lemma {:induction false} DigitRunStops(s: string, rest: string)
    requires AllDigits(s)
    requires rest == [] || !IsDigit(rest[0])
    ensures DigitRun(s + rest) == |s|
    decreases |s|
  {
    if s != [] {
      assert (s + rest)[1..] == s[1..] + rest;
      DigitRunStops(s[1..], rest);
    }
  }

  /** `s.split(c)[0]`: the text before the first `c`, or all of `s` when there is none. */
  function Before(s: string, c: char): (r: string)
    ensures |r| <= |s| && r == s[..|r|] && c !in r
    ensures |r| < |s| ==> s[|r|] == c
    decreases |s|
  {
    if s == [] then [] else if s[0] == c then [] else [s[0]] + Before(s[1..], c)
  }

  /** The text after the first `c`, or None when `c` does not occur (where
      `s.split(c)[1]` is undefined). `split(c)[1]` stops at a second `c`; the
      wizard only reads a leading run of digits from it, which a `c` ends anyway. */
  function AfterFirst(s: string, c: char): (r: Option<string>)
    ensures r.None? <==> c !in s
    ensures r.Some? ==> s == Before(s, c) + [c] + r.value
  {
    var b := Before(s, c);
    if |b| == |s| then None else Some(s[|b| + 1..])
  }

  /** `s.includes(t)`. */
  predicate Includes(s: string, t: string)
    decreases |s|
  {
    (|t| <= |s| && s[..|t|] == t) || (s != [] && Includes(s[1..], t))
  }

  /** Text ending in `t` includes it. */
  lemma {:induction false} IncludesSuffix(x: string, t: string)
    ensures Includes(x + t, t)
    decreases |x|
  {
    if x == [] {
      assert (x + t)[..|t|] == t;
    } else {
      assert (x + t)[1..] == x[1..] + t;
      IncludesSuffix(x[1..], t);
    }
  }

  /** Text without the first character of `t` does not include `t`. */
  lemma {:induction false} ExcludesWithoutFirst(s: string, t: string)
    requires t != [] && t[0] !in s
    ensures !Includes(s, t)
    decreases |s|
  {
    if s != [] {
      assert s[0] in s;
      ExcludesWithoutFirst(s[1..], t);
    }
  }

  /** Splitting at the first occurrence of `c` yields the text before it. */
  lemma {:induction false} BeforeFirst(x: string, c: char, rest: string)
    requires c !in x
    ensures Before(x + [c] + rest, c) == x
    ensures AfterFirst(x + [c] + rest, c) == Some(rest)
    decreases |x|
  {
    if x != [] {
      assert (x + [c] + rest)[1..] == x[1..] + [c] + rest;
      BeforeFirst(x[1..], c, rest);
    }
  }

  /** A text state value that JavaScript treats as true: set and not empty. */
  predicate Truthy(o: Option<string>)
  {
    o.Some? && o.value != ""
  }

  /** The code units a character takes in UTF-16: two beyond U+FFFF, else one. */
  function Utf16Units(c: char): (n: nat)
    ensures 1 <= n <= 2
  {
    if c as int > 0xFFFF then 2 else 1
  }

  /** `s.length`: the number of UTF-16 code units, which exceeds the number of
      characters by one for each character beyond U+FFFF. */
  function Utf16Length(s: string): (n: nat)
    ensures |s| <= n <= 2 * |s|
    ensures n == |s| <==> forall i :: 0 <= i < |s| ==> s[i] as int <= 0xFFFF
    decreases |s|
  {
    if s == [] then 0
    else
      assert forall i :: 1 <= i < |s| ==> s[i] == s[1..][i - 1];
      Utf16Units(s[0]) + Utf16Length(s[1..])
  }
}
