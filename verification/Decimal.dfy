/** Decimal text of integers: `std::to_string` and `std::strtol`. */
module Decimal {
  import opened Common

  predicate IsDigit(c: char) {
    '0' <= c <= '9'
  }

  function DigitChar(d: nat): char
    requires d < 10
  {
    '0' + d as char
  }

  function DigitValue(c: char): nat
    requires IsDigit(c)
  {
    c as nat - '0' as nat
  }

  function Digits(n: nat): (s: string)
    ensures s != [] && forall c | c in s :: IsDigit(c)
  {
    if n < 10 then [DigitChar(n)] else Digits(n / 10) + [DigitChar(n % 10)]
  }

  /** `std::to_string`. */
  function ToString(v: int): (s: string)
    ensures s != [] && forall c | c in s :: IsDigit(c) || c == '-'
  {
    if v < 0 then ['-'] + Digits(-v) else Digits(v)
  }

  function SkipSpaces(s: string): string {
    if s != [] && IsSpace(s[0]) then SkipSpaces(s[1..]) else s
  }

  /** Read digits after the value `acc`; what follows the last digit. */
  function ReadDigits(s: string, acc: nat): (nat, string) {
    if s != [] && IsDigit(s[0]) then ReadDigits(s[1..], 10 * acc + DigitValue(s[0])) else (acc, s)
  }

  const LONG_MAX := 0x7fff_ffff_ffff_ffff
  const LONG_MIN := -0x8000_0000_0000_0000

  function Clamp(v: int): int {
    if v > LONG_MAX then LONG_MAX else if v < LONG_MIN then LONG_MIN else v
  }

  /** `strtol(s, &end, 10)`: the saturated value and the text from `end` on. */
  function Strtol(s: string): (int, string) {
    var t := SkipSpaces(s);
    var signed := t != [] && (t[0] == '-' || t[0] == '+');
    var digits := if signed then t[1..] else t;
    if digits == [] || !IsDigit(digits[0]) then (0, s)
    else
      var (n, rest) := ReadDigits(digits, 0);
      var v: int := n;
      (Clamp(if signed && t[0] == '-' then -v else v), rest)
  }

  /** A C string ends at its first NUL. */
  function CStr(s: string): string {
    if s == [] || s[0] == '\0' then [] else [s[0]] + CStr(s[1..])
  }

  /** The value when `strtol` consumes the whole C string. */
  function ParseLong(s: string): Option<int> {
    var (v, rest) := Strtol(CStr(s));
    if rest == [] then Some(v) else None
  }

  predicate AllDigits(s: string) {
    forall i :: 0 <= i < |s| ==> IsDigit(s[i])
  }

  /** The number that digits stand for. */
  function ValueOf(s: string): nat
    requires AllDigits(s)
  {
    if s == [] then 0 else 10 * ValueOf(s[..|s| - 1]) + DigitValue(s[|s| - 1])
  }

  /** `static_cast<int>` of a 64-bit value. */
  function ToInt32(v: int): int {
    (v + 0x8000_0000) % 0x1_0000_0000 - 0x8000_0000
  }

  predicate IsInt32(v: int) {
    -0x8000_0000 <= v < 0x8000_0000
  }

  /** The conversion is the only `int` that differs by a multiple of 2^32. */
  lemma ToInt32Wraps(v: int)
    ensures IsInt32(ToInt32(v)) && (ToInt32(v) - v) % 0x1_0000_0000 == 0
    ensures forall w | IsInt32(w) && (w - v) % 0x1_0000_0000 == 0 :: w == ToInt32(v)
  {
  }

  // ---- what is printed

  /** Positional notation: one of the ten digits, then one digit more for each factor of ten. */
  lemma PrintedByPosition(n: int, d: int)
    requires n >= 0 && 0 <= d < 10
    ensures ToString(d) == ["0123456789"[d]]
    ensures n > 0 ==> ToString(10 * n + d) == ToString(n) + ToString(d) && ToString(-n) == "-" + ToString(n)
  {
    assert (10 * n + d) / 10 == n && (10 * n + d) % 10 == d;
  }

  lemma {:induction false} ValueOfDigits(n: nat)
    ensures AllDigits(Digits(n)) && ValueOf(Digits(n)) == n
  {
    var s := Digits(n);
    forall i | 0 <= i < |s|
      ensures IsDigit(s[i])
    {
      assert s[i] in s;
    }
    if n < 10 {
      assert s[..|s| - 1] == [];
    } else {
      ValueOfDigits(n / 10);
      assert s[..|s| - 1] == Digits(n / 10) && s[|s| - 1] == DigitChar(n % 10);
    }
  }

  // ---- what is read

  /** Optional spaces, an optional sign, at least one digit, and nothing else. */
  ghost predicate IsNumber(s: string, spaces: string, sign: string, digits: string) {
    && s == spaces + sign + digits
    && (forall i :: 0 <= i < |spaces| ==> IsSpace(spaces[i]))
    && sign in {"", "+", "-"}
    && digits != [] && AllDigits(digits)
  }

  lemma {:induction false} SkipsSpaces(spaces: string, rest: string)
    requires forall i :: 0 <= i < |spaces| ==> IsSpace(spaces[i])
    requires rest != [] ==> !IsSpace(rest[0])
    ensures SkipSpaces(spaces + rest) == rest
  {
    if spaces == [] {
      assert spaces + rest == rest;
    } else {
      assert (spaces + rest)[1..] == spaces[1..] + rest;
      SkipsSpaces(spaces[1..], rest);
    }
  }

  lemma {:induction false} SkippedSpaces(s: string) returns (spaces: string)
    ensures s == spaces + SkipSpaces(s) && forall i :: 0 <= i < |spaces| ==> IsSpace(spaces[i])
  {
    if s != [] && IsSpace(s[0]) {
      spaces := SkippedSpaces(s[1..]);
      spaces := [s[0]] + spaces;
    } else {
      spaces := [];
    }
  }

  /** Reading on after the digits `before`. */
  lemma {:induction false} ReadDigitsValue(before: string, s: string)
    requires AllDigits(before) && AllDigits(s)
    ensures ReadDigits(s, ValueOf(before)) == (ValueOf(before + s), [])
    decreases |s|
  {
    if s == [] {
      assert before + s == before;
    } else {
      var next := before + [s[0]];
      assert next[..|next| - 1] == before;
      ReadDigitsValue(next, s[1..]);
      assert next + s[1..] == before + s;
    }
  }

  lemma {:induction false} ReadDigitsToEnd(s: string, acc: nat)
    ensures ReadDigits(s, acc).1 == [] ==> AllDigits(s)
  {
    if s != [] && IsDigit(s[0]) {
      ReadDigitsToEnd(s[1..], 10 * acc + DigitValue(s[0]));
      assert forall i | 0 < i < |s| :: s[i] == s[1..][i - 1];
    }
  }

  lemma ReadDigitsOnly(digits: string)
    requires AllDigits(digits)
    ensures ReadDigits(digits, 0) == (ValueOf(digits), [])
  {
    assert [] + digits == digits;
    ReadDigitsValue([], digits);
  }

  lemma StrtolOfNumber(s: string, sign: string, digits: string)
    requires SkipSpaces(s) == sign + digits && sign in {"", "+", "-"} && digits != [] && AllDigits(digits)
    ensures Strtol(s) == (Clamp(if sign == "-" then 0 - ValueOf(digits) else ValueOf(digits)), [])
  {
    ReadDigitsOnly(digits);
    assert sign == "" ==> sign + digits == digits;
    assert sign != "" ==> (sign + digits)[0] == sign[0] && (sign + digits)[1..] == digits;
  }

  lemma SpacesBeforeNumber(s: string, spaces: string, sign: string, digits: string)
    requires IsNumber(s, spaces, sign, digits)
    ensures SkipSpaces(s) == sign + digits
  {
    assert s == spaces + (sign + digits);
    SkipsSpaces(spaces, sign + digits);
  }

  /** The value of a number; outside 64 bits it is the nearest one. */
  lemma ParseOfNumber(s: string, spaces: string, sign: string, digits: string)
    requires IsNumber(s, spaces, sign, digits)
    ensures var v := if sign == "-" then 0 - ValueOf(digits) else ValueOf(digits);
            ParseLong(s) == Some(if v > 9223372036854775807 then 9223372036854775807
                                 else if v < -9223372036854775808 then -9223372036854775808 else v)
  {
    SpacesBeforeNumber(s, spaces, sign, digits);
    StrtolOfNumber(s, sign, digits);
    NumberIsPlainText(s, spaces, sign, digits);
    CStrOfPlain(s);
  }

  lemma NumberIsPlainText(s: string, spaces: string, sign: string, digits: string)
    requires IsNumber(s, spaces, sign, digits)
    ensures '\0' !in s
  {
  }

  lemma ParsedDigits(s: string) returns (sign: string, digits: string)
    requires s != "" && Strtol(s).1 == []
    ensures SkipSpaces(s) == sign + digits && sign in {"", "+", "-"} && digits != [] && AllDigits(digits)
  {
    var t := SkipSpaces(s);
    var signed := t != [] && (t[0] == '-' || t[0] == '+');
    digits := if signed then t[1..] else t;
    sign := if !signed then "" else if t[0] == '-' then "-" else "+";
    ReadDigitsToEnd(digits, 0);
    assert t == sign + digits;
  }

  lemma ParsedIsNumber(s: string) returns (spaces: string, sign: string, digits: string)
    requires s != "" && Strtol(s).1 == []
    ensures IsNumber(s, spaces, sign, digits)
  {
    spaces := SkippedSpaces(s);
    sign, digits := ParsedDigits(s);
    assert s == spaces + sign + digits;
  }

  /** Only the empty text and numbers are read to their end. */
  lemma ParsedExactlyWhen(s: string)
    requires '\0' !in s
    ensures ParseLong(s).Some? <==> s == "" || exists spaces, sign, digits :: IsNumber(s, spaces, sign, digits)
    ensures ParseLong("") == Some(0)
  {
    if s != "" && ParseLong(s).Some? {
      ParsedToEnd(s);
      ghost var spaces, sign, digits := ParsedIsNumber(s);
    }
    forall spaces, sign, digits | IsNumber(s, spaces, sign, digits)
      ensures ParseLong(s).Some?
    {
      ParseOfNumber(s, spaces, sign, digits);
    }
  }

  lemma ParsedToEnd(s: string)
    requires '\0' !in s && ParseLong(s).Some?
    ensures Strtol(s).1 == []
  {
    CStrOfPlain(s);
  }

  // ---- printing and reading undo each other

  lemma {:induction false} ReadDigitsOfDigits(n: nat, rest: string)
    ensures ReadDigits(Digits(n) + rest, 0) == ReadDigits(rest, n)
  {
    if n < 10 {
      assert (Digits(n) + rest)[1..] == rest;
    } else {
      var d := [DigitChar(n % 10)] + rest;
      assert Digits(n) + rest == Digits(n / 10) + d;
      ReadDigitsOfDigits(n / 10, d);
      assert d[1..] == rest;
    }
  }

  lemma {:induction false} CStrOfPlain(s: string)
    requires '\0' !in s
    ensures CStr(s) == s
  {
    if s != [] {
      assert s[0] in s;
      CStrOfPlain(s[1..]);
    }
  }

  lemma ParseOfToString(v: int)
    requires LONG_MIN <= v <= LONG_MAX
    ensures ParseLong(ToString(v)) == Some(v)
  {
    var s := ToString(v);
    CStrOfPlain(s);
    var n := if v < 0 then -v else v;
    ReadDigitsOfDigits(n, []);
    assert Digits(n) + [] == Digits(n);
    assert IsDigit(Digits(n)[0]);
    if v < 0 {
      assert s[1..] == Digits(n);
    }
  }

  lemma ToStringIsInjective(a: int, b: int)
    requires LONG_MIN <= a <= LONG_MAX && LONG_MIN <= b <= LONG_MAX && ToString(a) == ToString(b)
    ensures a == b
  {
    ParseOfToString(a);
    ParseOfToString(b);
  }
}
