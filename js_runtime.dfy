/** The few JavaScript built-ins the billing code leans on: `parseInt`,
    `String(n)` for integers, ASCII `toUpperCase`, `padStart` and `slice(-k)`,
    and the truthiness of strings. A JavaScript number that can reach these
    places is an integer or NaN, which is what `Num` represents. */
module JsRuntime {

  /** A number produced by `parseInt`: NaN or an integer. */
  datatype Num = NaN | Int(value: int)

  /** `if (s)` on a string: only the empty string is falsy. */
  predicate Truthy(s: string) {
    |s| > 0
  }

  /** The characters `String.prototype.trim` and `parseInt` skip as white space
      (WhiteSpace and LineTerminator of ECMA-262, section 12.2 and 12.3). */
  predicate IsJsSpace(c: char) {
    c in {'\t', '\n', '\U{000B}', '\U{000C}', '\r', ' ', '\U{00A0}', '\U{1680}',
          '\U{2000}', '\U{2001}', '\U{2002}', '\U{2003}', '\U{2004}', '\U{2005}', '\U{2006}',
          '\U{2007}', '\U{2008}', '\U{2009}', '\U{200A}', '\U{2028}', '\U{2029}', '\U{202F}',
          '\U{205F}', '\U{3000}', '\U{FEFF}'}
  }

  predicate IsDecDigit(c: char) {
    '0' <= c <= '9'
  }

  predicate IsHexDigit(c: char) {
    IsDecDigit(c) || 'a' <= c <= 'f' || 'A' <= c <= 'F'
  }

  function DigitValue(c: char): (d: nat)
    requires IsHexDigit(c)
    ensures d < 16
    ensures IsDecDigit(c) ==> d < 10
  {
    if IsDecDigit(c) then c as int - '0' as int
    else if 'a' <= c <= 'f' then c as int - 'a' as int + 10
    else c as int - 'A' as int + 10
  }

  /** `s` with its leading white space removed. */
  function TrimStart(s: string): (r: string)
    ensures |r| <= |s| && r == s[|s| - |r|..]
    ensures r == [] || !IsJsSpace(r[0])
  {
    if |s| > 0 && IsJsSpace(s[0]) then TrimStart(s[1..]) else s
  }

  /** The longest prefix of `s` made of digits of the given radix (10 or 16). */
  function DigitPrefix(s: string, hex: bool): (r: string)
    ensures |r| <= |s| && r == s[..|r|]
    ensures forall i :: 0 <= i < |r| ==> IsHexDigit(r[i]) && (!hex ==> IsDecDigit(r[i]))
  {
    if |s| > 0 && (if hex then IsHexDigit(s[0]) else IsDecDigit(s[0]))
    then [s[0]] + DigitPrefix(s[1..], hex)
    else []
  }

  /** The value of a digit string in the given radix, most significant digit first. */
  function DigitsValue(z: string, radix: nat): nat
    requires forall i :: 0 <= i < |z| ==> IsHexDigit(z[i])
  {
    if z == [] then 0
    else DigitsValue(z[..|z| - 1], radix) * radix + DigitValue(z[|z| - 1])
  }

  /** `parseInt(s)` with no radix argument: skip leading white space, take an
      optional sign, a `0x`/`0X` prefix switches to radix 16, then read the
      longest run of digits; no digits at all gives NaN. */
  function ParseInt(s: string): Num {
    var t := TrimStart(s);
    var negative := |t| > 0 && t[0] == '-';
    var u := if |t| > 0 && (t[0] == '-' || t[0] == '+') then t[1..] else t;
    var hex := |u| >= 2 && u[0] == '0' && (u[1] == 'x' || u[1] == 'X');
    var digits := if hex then DigitPrefix(u[2..], true) else DigitPrefix(u, false);
    if digits == [] then NaN
    else
      var magnitude: int := DigitsValue(digits, if hex then 16 else 10);
      Int(if negative then -magnitude else magnitude)
  }

  function DecDigitChar(d: nat): (c: char)
    requires d < 10
    ensures IsDecDigit(c) && DigitValue(c) == d
  {
    ('0' as int + d) as char
  }

  /** The decimal digits of `n`, without leading zeros. */
  function NatToString(n: nat): (r: string)
    ensures |r| >= 1
    ensures forall i :: 0 <= i < |r| ==> IsDecDigit(r[i])
    decreases n
  {
    if n < 10 then [DecDigitChar(n)] else NatToString(n / 10) + [DecDigitChar(n % 10)]
  }

  /** `String(n)` for an integer `n` (below 10^21, where JavaScript would switch
      to exponent notation). */
  function IntToString(n: int): string {
    if n < 0 then "-" + NatToString(-n) else NatToString(n)
  }

  lemma {:induction false} NatToStringValue(n: nat)
    ensures DigitsValue(NatToString(n), 10) == n
    decreases n
  {
    var r := NatToString(n);
    if n >= 10 {
      NatToStringValue(n / 10);
      assert r[..|r| - 1] == NatToString(n / 10);
    }
  }

  lemma {:induction false} DecPrefixOfDigits(s: string)
    requires forall i :: 0 <= i < |s| ==> IsDecDigit(s[i])
    ensures DigitPrefix(s, false) == s
  {
    if |s| > 0 {
      DecPrefixOfDigits(s[1..]);
    }
  }

  /** Only the number 0 is written with a leading zero. */
  lemma {:induction false} LeadingZero(n: nat)
    ensures NatToString(n)[0] == '0' ==> n == 0
    decreases n
  {
    if n >= 10 {
      LeadingZero(n / 10);
    }
  }

  /** The digits of a natural number read back as that number, in radix 10. */
  lemma ReadNatDigits(m: nat)
    ensures var u := NatToString(m);
      && !(|u| >= 2 && u[0] == '0' && (u[1] == 'x' || u[1] == 'X'))
      && DigitPrefix(u, false) == u
      && DigitsValue(u, 10) == m
      && !IsJsSpace(u[0]) && u[0] != '-' && u[0] != '+'
  {
    NatToStringValue(m);
    DecPrefixOfDigits(NatToString(m));
    LeadingZero(m);
    if m >= 10 {
      assert |NatToString(m / 10)| >= 1;
    }
  }

  /** The digits of a natural number, read by `parseInt`, give that number. */
  lemma ParseIntOfNat(m: nat)
    ensures ParseInt(NatToString(m)) == Int(m)
  {
    ReadNatDigits(m);
    var d := NatToString(m);
    assert TrimStart(d) == d;
  }

  /** A minus sign followed by the digits of m, read by `parseInt`, gives -m. */
  lemma ParseIntOfNegative(m: nat)
    ensures ParseInt("-" + NatToString(m)) == Int(-(m as int))
  {
    ReadNatDigits(m);
    var d := NatToString(m);
    var s := "-" + d;
    assert !IsJsSpace(s[0]);
    assert TrimStart(s) == s;
    assert s[1..] == d;
  }

  /** What `String(n)` writes, `parseInt` reads back. */
  lemma ParseIntOfIntToString(n: int)
    ensures ParseInt(IntToString(n)) == Int(n)
  {
    if n < 0 {
      ParseIntOfNegative(-n);
    } else {
      ParseIntOfNat(n);
    }
  }

  /** `String(n)` is one-to-one. */
  lemma IntToStringInjective(a: int, b: int)
    requires IntToString(a) == IntToString(b)
    ensures a == b
  {
    ParseIntOfIntToString(a);
    ParseIntOfIntToString(b);
  }

  /** `toUpperCase` on the ASCII letters; every other character is kept. */
  function ToUpperAscii(s: string): (r: string)
    ensures |r| == |s|
    ensures forall i :: 0 <= i < |s| ==>
      r[i] == if 'a' <= s[i] <= 'z' then (s[i] as int - 32) as char else s[i]
  {
    seq(|s|, i requires 0 <= i < |s| => if 'a' <= s[i] <= 'z' then (s[i] as int - 32) as char else s[i])
  }

  /** Upper-casing twice is upper-casing once. */
  lemma ToUpperAsciiIdempotent(s: string)
    ensures ToUpperAscii(ToUpperAscii(s)) == ToUpperAscii(s)
  {
    var u := ToUpperAscii(s);
    forall i | 0 <= i < |u| ensures !('a' <= u[i] <= 'z') {
      if 'a' <= s[i] <= 'z' {
        assert u[i] == (s[i] as int - 32) as char;
      }
    }
  }

  /** `s.padStart(2, "0")`. */
  function PadStart2(s: string): (r: string)
    ensures |s| >= 2 ==> r == s
    ensures |s| < 2 ==> |r| == 2 && r[2 - |s|..] == s && forall i :: 0 <= i < 2 - |s| ==> r[i] == '0'
  {
    if |s| >= 2 then s else if |s| == 1 then "0" + s else "00"
  }

  /** `s.slice(-k)`: the last `k` characters, or all of `s` when it is shorter. */
  function SliceLast(s: string, k: nat): (r: string)
    ensures |r| == if |s| < k then |s| else k
    ensures r == s[|s| - |r|..]
  {
    if |s| <= k then s else s[|s| - k..]
  }

  /** The number of decimal digits of `n`. */
  lemma {:induction false} NatToStringLength(n: nat, k: nat)
    requires Pow10(k) <= n < Pow10(k + 1)
    ensures |NatToString(n)| == k + 1
    decreases n
  {
    if k > 0 {
      assert n >= 10;
      NatToStringLength(n / 10, k - 1);
    }
  }

  function Pow10(k: nat): (p: nat)
    ensures p >= 1
  {
    if k == 0 then 1 else 10 * Pow10(k - 1)
  }
}
