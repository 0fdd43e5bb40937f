/**
  C library string and integer primitives the binding leans on: the
  NUL-terminated view of a Python string, `strcmp`, `strcasecmp` (C locale),
  `atoi` and the wrap-around of a C `long` stored into a 32-bit `int`.

  A character stands for one byte; the functions read a string the way C
  reads the buffer Python hands out, so an embedded NUL ends it.
 */
module CStrings {

  /** The character code at position `i` of the C string backed by `s` (one byte per character); 0 past the end. */
  function ByteAt(s: string, i: nat): int
  {
    if i < |s| then s[i] as int else 0
  }

  /** The part of `s` that C code sees: everything before the first NUL. */
  function CStr(s: string): (r: string)
    ensures |r| <= |s| && r == s[..|r|]
    ensures forall i :: 0 <= i < |r| ==> r[i] != '\0'
    ensures |r| < |s| ==> s[|r|] == '\0'
  {
    if |s| == 0 || s[0] == '\0' then [] else [s[0]] + CStr(s[1..])
  }

  /** `tolower` in the C locale: only ASCII upper-case letters move. */
  function Lower(c: int): int
  {
    if 'A' as int <= c <= 'Z' as int then c + 32 else c
  }

  /** `Lower` on one character of a string. */
  function LowerChar(c: char): char
  {
    Lower(c as int) as char
  }

  function LowerString(s: string): (r: string)
    ensures |r| == |s|
    ensures forall i :: 0 <= i < |s| ==> r[i] == LowerChar(s[i])
  {
    if |s| == 0 then [] else [LowerChar(s[0])] + LowerString(s[1..])
  }

  /** `strcmp`: the difference of the first differing bytes, 0 when the C strings agree. */
  function StrCmp(a: string, b: string): int
    decreases |a|
  {
    var c1 := ByteAt(a, 0);
    var c2 := ByteAt(b, 0);
    if c1 != c2 then c1 - c2
    else if c1 == 0 then 0
    else StrCmp(a[1..], b[1..])
  }

  /** `strcasecmp`: as `strcmp`, on bytes folded to lower case first. */
  function StrCaseCmp(a: string, b: string): int
    decreases |a|
  {
    var c1 := Lower(ByteAt(a, 0));
    var c2 := Lower(ByteAt(b, 0));
    if c1 != c2 then c1 - c2
    else if c1 == 0 then 0
    else StrCaseCmp(a[1..], b[1..])
  }

  /** `strcmp` reports equality exactly when the two C strings are the same. */
  lemma {:induction false} StrCmpZeroIff(a: string, b: string)
    ensures StrCmp(a, b) == 0 <==> CStr(a) == CStr(b)
    decreases |a|
  {
    if ByteAt(a, 0) == ByteAt(b, 0) && ByteAt(a, 0) != 0 {
      StrCmpZeroIff(a[1..], b[1..]);
      assert CStr(a) == [a[0]] + CStr(a[1..]);
      assert CStr(b) == [b[0]] + CStr(b[1..]);
    } else if ByteAt(a, 0) != ByteAt(b, 0) {
      if |CStr(a)| > 0 && |CStr(b)| > 0 {
        assert CStr(a)[0] == a[0] && CStr(b)[0] == b[0];
      }
    }
  }

  /** `strcasecmp` reports equality exactly when the C strings agree once lower-cased. */
  lemma {:induction false} StrCaseCmpZeroIff(a: string, b: string)
    ensures StrCaseCmp(a, b) == 0 <==> LowerString(CStr(a)) == LowerString(CStr(b))
    decreases |a|
  {
    var c1 := Lower(ByteAt(a, 0));
    var c2 := Lower(ByteAt(b, 0));
    if c1 == c2 && c1 != 0 {
      StrCaseCmpZeroIff(a[1..], b[1..]);
      assert CStr(a) == [a[0]] + CStr(a[1..]);
      assert CStr(b) == [b[0]] + CStr(b[1..]);
      assert LowerString(CStr(a)) == [LowerChar(a[0])] + LowerString(CStr(a[1..]));
      assert LowerString(CStr(b)) == [LowerChar(b[0])] + LowerString(CStr(b[1..]));
      assert LowerChar(a[0]) == LowerChar(b[0]);
    } else if c1 != c2 {
      var la := LowerString(CStr(a));
      var lb := LowerString(CStr(b));
      if |la| > 0 && |lb| > 0 {
        assert la[0] as int == c1 && lb[0] as int == c2;
      } else if |la| > 0 {
        assert la[0] as int == c1;
      } else if |lb| > 0 {
        assert lb[0] as int == c2;
      }
    } else {
      assert CStr(a) == [] && CStr(b) == [];
    }
  }

  /** `strcasecmp` is antisymmetric: swapping the arguments negates the result. */
  lemma {:induction false} StrCaseCmpAntisymmetric(a: string, b: string)
    ensures StrCaseCmp(a, b) == -StrCaseCmp(b, a)
    decreases |a|
  {
    var c1 := Lower(ByteAt(a, 0));
    var c2 := Lower(ByteAt(b, 0));
    if c1 == c2 && c1 != 0 {
      StrCaseCmpAntisymmetric(a[1..], b[1..]);
    }
  }

  /** Byte-for-byte equal names are equal ignoring case; the converse fails. */
  lemma StrCmpZeroImpliesCaseZero(a: string, b: string)
    ensures StrCmp(a, b) == 0 ==> StrCaseCmp(a, b) == 0
  {
  }

  /** Two C strings may be equal to `strcasecmp` and still differ to `strcmp`. */
  lemma CaseFoldingIsCoarser()
    ensures StrCaseCmp("foo", "FOO") == 0 && StrCmp("foo", "FOO") != 0
  {
  }

  // ---------------------------------------------------------------------
  // Integers

  const INT32_MIN: int := -0x8000_0000
  const INT32_MAX: int := 0x7FFF_FFFF
  const LONG_MIN: int := -0x8000_0000_0000_0000
  const LONG_MAX: int := 0x7FFF_FFFF_FFFF_FFFF

  /** Storing an integer into a 32-bit `int`: two's-complement wrap-around. */
  function Int32(x: int): (r: int)
    ensures INT32_MIN <= r <= INT32_MAX
    ensures (r - x) % 0x1_0000_0000 == 0
    ensures INT32_MIN <= x <= INT32_MAX ==> r == x
  {
    (x - INT32_MIN) % 0x1_0000_0000 + INT32_MIN
  }

  predicate IsSpace(c: char)
  {
    c == ' ' || 9 <= c as int <= 13
  }

  predicate IsDigit(c: char)
  {
    '0' <= c <= '9'
  }

  function SkipSpace(s: string): (r: string)
    ensures |r| <= |s| && r == s[|s| - |r|..]
    ensures |r| > 0 ==> !IsSpace(r[0])
  {
    if |s| > 0 && IsSpace(s[0]) then SkipSpace(s[1..]) else s
  }

  /** The longest prefix of `s` made of decimal digits. */
  function DigitPrefix(s: string): (r: string)
    ensures |r| <= |s| && r == s[..|r|]
    ensures forall i :: 0 <= i < |r| ==> IsDigit(r[i])
    ensures |r| < |s| ==> !IsDigit(s[|r|])
  {
    if |s| > 0 && IsDigit(s[0]) then [s[0]] + DigitPrefix(s[1..]) else []
  }

  /** The value of a string of decimal digits, most significant first. */
  function DigitsValue(d: string): (r: nat)
    requires forall i :: 0 <= i < |d| ==> IsDigit(d[i])
  {
    if |d| == 0 then 0
    else
      assert IsDigit(d[|d| - 1]);
      DigitsValue(d[..|d| - 1]) * 10 + (d[|d| - 1] as int - '0' as int)
  }

  /** A value clamped to the `long` range, as `strtol` reports overflow. */
  function SaturateLong(x: int): (r: int)
    ensures LONG_MIN <= r <= LONG_MAX
    ensures LONG_MIN <= x <= LONG_MAX ==> r == x
  {
    if x > LONG_MAX then LONG_MAX else if x < LONG_MIN then LONG_MIN else x
  }

  /** `strtol(s, NULL, 10)`: optional blanks and sign, then digits, saturating at the `long` range. */
  function StrToL(s: string): (r: int)
    ensures LONG_MIN <= r <= LONG_MAX
  {
    var t := SkipSpace(s);
    var signed := |t| > 0 && (t[0] == '-' || t[0] == '+');
    var v: int := DigitsValue(DigitPrefix(if signed then t[1..] else t));
    SaturateLong(if signed && t[0] == '-' then -v else v)
  }

  /** `atoi` as glibc implements it: `(int) strtol(s, NULL, 10)`. */
  function Atoi(s: string): (r: int)
    ensures INT32_MIN <= r <= INT32_MAX
  {
    Int32(StrToL(s))
  }

  /** The decimal rendering of a natural number, as `"%d"` prints it. */
  function Decimal(n: nat): (r: string)
    ensures |r| > 0
    ensures forall i :: 0 <= i < |r| ==> IsDigit(r[i])
  {
    var d := ['0' + (n % 10) as char];
    if n < 10 then d else Decimal(n / 10) + d
  }

  lemma {:induction false} DecimalValue(n: nat)
    ensures DigitsValue(Decimal(n)) == n
  {
    var r := Decimal(n);
    if n >= 10 {
      DecimalValue(n / 10);
      assert r[..|r| - 1] == Decimal(n / 10);
    }
  }

  lemma DigitPrefixOfDigits(s: string)
    requires forall i :: 0 <= i < |s| ==> IsDigit(s[i])
    ensures DigitPrefix(s) == s
  {
  }

  /** On a plain run of digits `strtol` is the digits' value, capped at `LONG_MAX`. */
  lemma StrToLOfDigits(s: string)
    requires |s| > 0 && forall i :: 0 <= i < |s| ==> IsDigit(s[i])
    ensures StrToL(s) == if DigitsValue(s) > LONG_MAX then LONG_MAX else DigitsValue(s)
  {
    assert IsDigit(s[0]);
    assert SkipSpace(s) == s;
    assert !(s[0] == '-' || s[0] == '+');
    DigitPrefixOfDigits(s);
    assert StrToL(s) == SaturateLong(DigitsValue(s));
  }

  /** `atoi` reads back every non-negative `int` that `"%d"` writes. */
  lemma AtoiDecimal(n: nat)
    requires n <= INT32_MAX
    ensures Atoi(Decimal(n)) == n
  {
    DecimalValue(n);
    StrToLOfDigits(Decimal(n));
  }

  /** A run of '0' digits reads as 0. */
  lemma ZerosValue(s: string)
    requires |s| > 0 && forall i :: 0 <= i < |s| ==> s[i] == '0'
    ensures Atoi(s) == 0
  {
    assert DigitsValue(s) == 0 by {
      ZeroDigits(s);
    }
    StrToLOfDigits(s);
  }

  lemma {:induction false} ZeroDigits(s: string)
    requires forall i :: 0 <= i < |s| ==> s[i] == '0'
    ensures DigitsValue(s) == 0
  {
    if |s| > 0 {
      ZeroDigits(s[..|s| - 1]);
    }
  }
}
