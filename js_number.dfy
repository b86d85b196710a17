/**
 * ECMAScript numbers as the core uses them: integers or NaN, the `%`
 * operator, `parseInt` with no radix, and integer-to-string conversion.
 */
module JsNumber {

  /** An ECMAScript number that is an integer, or NaN. */
  datatype Number = NaN | Num(n: int)

  /** ECMAScript `a % b`: the remainder takes the sign of the dividend. */
  function JsRem(a: int, b: int): (r: int)
    requires b != 0
    ensures a >= 0 ==> 0 <= r < (if b > 0 then b else -b)
    ensures a < 0 ==> -(if b > 0 then b else -b) < r <= 0
    ensures a >= 0 && b > 0 ==> r == a % b
  {
    var m := if b > 0 then b else -b;
    if a >= 0 then a % m else -((-a) % m)
  }

  /** For a non-negative dividend, the remainder by 10 repeats every 10. */
  lemma RemShiftTen(a: nat)
    ensures JsRem(a + 10, 10) == JsRem(a, 10)
  {
    var q, r := a / 10, a % 10;
    assert a == 10 * q + r;
    assert a + 10 == 10 * (q + 1) + r;
  }

  /** The remainder of a + 1 by 12 steps by one from that of a, wrapping to 0. */
  lemma RemNextTwelve(a: nat)
    ensures (a + 1) % 12 == if a % 12 == 11 then 0 else a % 12 + 1
  {
    var q, r := a / 12, a % 12;
    assert a == 12 * q + r;
    if r == 11 {
      assert a + 1 == 12 * (q + 1);
    } else {
      assert a + 1 == 12 * q + (r + 1);
    }
  }

  /** StrWhiteSpaceChar: WhiteSpace (TAB, VT, FF, ZWNBSP, the Zs category) or a LineTerminator. */
  predicate IsStrWhiteSpace(c: char)
  {
    c == '\t' || c == '\n' || c == '\U{000B}' || c == '\U{000C}' || c == '\r' || c == ' '
    || c == '\U{00A0}' || c == '\U{1680}' || ('\U{2000}' <= c <= '\U{200A}')
    || c == '\U{2028}' || c == '\U{2029}' || c == '\U{202F}' || c == '\U{205F}'
    || c == '\U{3000}' || c == '\U{FEFF}'
  }

  function TrimStart(s: string): (t: string)
    ensures |t| <= |s| && t == s[|s| - |t|..]
    ensures t != [] ==> !IsStrWhiteSpace(t[0])
    ensures (forall i :: 0 <= i < |s| ==> !IsStrWhiteSpace(s[i])) ==> t == s
  {
    if s != [] && IsStrWhiteSpace(s[0]) then TrimStart(s[1..]) else s
  }

  /** The value of c as a digit in radix 36 (0-9, then a-z or A-Z), 36 for anything else. */
  function DigitValue(c: char): (v: int)
    ensures 0 <= v <= 36
  {
    if '0' <= c <= '9' then c as int - '0' as int
    else if 'a' <= c <= 'z' then c as int - 'a' as int + 10
    else if 'A' <= c <= 'Z' then c as int - 'A' as int + 10
    else 36
  }

  predicate IsDigitIn(c: char, radix: int)
  {
    DigitValue(c) < radix
  }

  /** The longest prefix of s made of radix digits. */
  function DigitPrefix(s: string, radix: int): (z: string)
    ensures |z| <= |s| && z == s[..|z|]
    ensures forall i :: 0 <= i < |z| ==> IsDigitIn(z[i], radix)
    ensures |z| < |s| ==> !IsDigitIn(s[|z|], radix)
  {
    if s != [] && IsDigitIn(s[0], radix) then [s[0]] + DigitPrefix(s[1..], radix) else []
  }

  /** The value of a string of digits, most significant first. */
  function DigitsValue(z: string, radix: nat): nat
  {
    if z == [] then 0
    else DigitsValue(z[..|z| - 1], radix) * radix
         + (var d := DigitValue(z[|z| - 1]); if d < radix then d else 0)
  }

  /**
   * `parseInt(s)` with the radix left undefined: leading white space, a sign,
   * then the digits. Nothing but white space is NaN, and only a minus sign
   * makes the result negative.
   */
  function ParseInt(s: string): (r: Number)
    ensures TrimStart(s) == [] ==> r.NaN?
    ensures r.Num? && r.n < 0 ==> TrimStart(s)[0] == '-'
  {
    var t := TrimStart(s);
    var negative := t != [] && t[0] == '-';
    var u := if t != [] && (t[0] == '-' || t[0] == '+') then t[1..] else t;
    match ParseMagnitude(u)
    case NaN => NaN
    case Num(value) => Num(if negative then -value else value)
  }

  /** The unsigned part: decimal, or hexadecimal after `0x`; NaN when no digit comes first. */
  function ParseMagnitude(u: string): (r: Number)
    ensures r.Num? ==> r.n >= 0
  {
    var hex := |u| >= 2 && u[0] == '0' && (u[1] == 'x' || u[1] == 'X');
    var radix := if hex then 16 else 10;
    var v := if hex then u[2..] else u;
    var z := DigitPrefix(v, radix);
    if z == [] then NaN else Num(DigitsValue(z, radix))
  }

  function Pow10(k: nat): nat
  {
    if k == 0 then 1 else 10 * Pow10(k - 1)
  }

  /** A string of k characters read in radix 10 is below 10^k. */
  lemma {:induction false} DigitsValueBelow(z: string)
    ensures DigitsValue(z, 10) < Pow10(|z|)
  {
    if z != [] {
      DigitsValueBelow(z[..|z| - 1]);
    }
  }

  function DigitChar(d: int): (c: char)
    requires 0 <= d < 10
    ensures '0' <= c <= '9' && DigitValue(c) == d
  {
    ('0' as int + d) as char
  }

  /** The decimal digits of n, without leading zeros. */
  function NatToString(n: nat): (s: string)
    ensures s != []
    ensures forall i :: 0 <= i < |s| ==> '0' <= s[i] <= '9'
    ensures s[0] == '0' ==> n == 0 && |s| == 1
  {
    if n < 10 then [DigitChar(n)] else NatToString(n / 10) + [DigitChar(n % 10)]
  }

  /** `String(n)` for an integer n (exact for every magnitude; see README). */
  function IntToString(n: int): string
  {
    if n < 0 then "-" + NatToString(-n) else NatToString(n)
  }

  /** `String(x)` for a Number: "NaN", or the integer's numeral. */
  function NumberText(x: Number): string
  {
    match x
    case NaN => "NaN"
    case Num(n) => IntToString(n)
  }

  lemma {:induction false} DigitsValueOfNat(n: nat)
    ensures DigitsValue(NatToString(n), 10) == n
  {
    var s := NatToString(n);
    if n >= 10 {
      DigitsValueOfNat(n / 10);
      assert s[..|s| - 1] == NatToString(n / 10);
    }
  }

  lemma DigitPrefixOfDigits(s: string)
    requires forall i :: 0 <= i < |s| ==> '0' <= s[i] <= '9'
    ensures DigitPrefix(s, 10) == s
  {
    var z := DigitPrefix(s, 10);
    assert |z| < |s| ==> IsDigitIn(s[|z|], 10);
  }

  lemma MagnitudeOfNatToString(n: nat)
    ensures ParseMagnitude(NatToString(n)) == Num(n)
  {
    var s := NatToString(n);
    assert !(|s| >= 2 && s[0] == '0');
    DigitPrefixOfDigits(s);
    DigitsValueOfNat(n);
  }

  /** `parseInt` reads back every decimal numeral `String(n)` produces for n >= 0. */
  lemma ParseIntOfNatToString(n: nat)
    ensures ParseInt(NatToString(n)) == Num(n)
  {
    var s := NatToString(n);
    assert forall i :: 0 <= i < |s| ==> !IsStrWhiteSpace(s[i]);
    assert TrimStart(s) == s;
    assert s[0] != '-' && s[0] != '+';
    MagnitudeOfNatToString(n);
  }

  /** Distinct naturals have distinct numerals. */
  lemma NatToStringInjective(a: nat, b: nat)
    requires NatToString(a) == NatToString(b)
    ensures a == b
  {
    ParseIntOfNatToString(a);
    ParseIntOfNatToString(b);
  }
}
