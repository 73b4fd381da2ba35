/** `std::to_string` and `std::stoi`. */
module Decimals {
  import opened Prelude

  function Digit(d: nat): char
    requires d < 10
  {
    "0123456789"[d]
  }

  predicate IsDigit(c: char) {
    '0' <= c <= '9'
  }

  function DigitValue(c: char): nat
    requires IsDigit(c)
  {
    c as int - '0' as int
  }

  /** `std::to_string` of a number that is not negative. */
  function Decimal(n: nat): string {
    if n < 10 then [Digit(n)] else Decimal(n / 10) + [Digit(n % 10)]
  }

  function Value(s: string): nat
    requires forall c <- s :: IsDigit(c)
  {
    if s == [] then 0
    else
      assert s[|s| - 1] in s;
      assert forall c <- s[..|s| - 1] :: c in s;
      Value(s[..|s| - 1]) * 10 + DigitValue(s[|s| - 1])
  }

  lemma {:induction false} DecimalIsDigits(n: nat)
    ensures |Decimal(n)| >= 1 && forall c <- Decimal(n) :: IsDigit(c)
  {
    if n >= 10 {
      DecimalIsDigits(n / 10);
    }
  }

  lemma {:induction false} ValueOfDecimal(n: nat)
    ensures (forall c <- Decimal(n) :: IsDigit(c)) && Value(Decimal(n)) == n
  {
    DecimalIsDigits(n);
    if n < 10 {
      assert Decimal(n)[..0] == [];
    } else {
      ValueOfDecimal(n / 10);
      assert Decimal(n)[..|Decimal(n)| - 1] == Decimal(n / 10);
    }
  }

  lemma DecimalInjective(a: nat, b: nat)
    requires Decimal(a) == Decimal(b)
    ensures a == b
  {
    ValueOfDecimal(a);
    ValueOfDecimal(b);
  }

  function Pow10(d: nat): nat {
    if d == 0 then 1 else 10 * Pow10(d - 1)
  }

  lemma {:induction false} DecimalLength(n: nat, d: nat)
    requires d >= 1
    ensures |Decimal(n)| <= d <==> n < Pow10(d)
  {
    assert Pow10(d) == 10 * Pow10(d - 1);
    PowGrows(d - 1);
    if n >= 10 {
      if d == 1 {
        DecimalIsDigits(n / 10);
      } else {
        DecimalLength(n / 10, d - 1);
      }
    }
  }

  lemma PowGrows(d: nat)
    ensures Pow10(d) >= 1
  {
  }

  /** The number made of the first `d` digits of `n`. */
  function LeadingDigits(n: nat, d: nat): nat
    requires d >= 1
  {
    if n < 10 || n < Pow10(d) then n else LeadingDigits(n / 10, d)
  }

  lemma {:induction false} DecimalTruncated(n: nat, d: nat)
    requires d >= 1
    ensures (if |Decimal(n)| <= d then Decimal(n) else Decimal(n)[..d]) == Decimal(LeadingDigits(n, d))
  {
    DecimalLength(n, d);
    if n >= 10 && n >= Pow10(d) {
      DecimalTruncated(n / 10, d);
      assert |Decimal(n / 10)| >= d;
      assert Decimal(n)[..d] == Decimal(n / 10)[..d];
    } else if n < 10 {
      assert |Decimal(n)| == 1;
    }
  }

  lemma LeadingDigitsIntactIff(n: nat, d: nat)
    requires d >= 1
    ensures LeadingDigits(n, d) == n <==> n < Pow10(d)
  {
    LeadingDigitsBound(n, d);
    if n < 10 {
      assert Pow10(d) == 10 * Pow10(d - 1);
      PowGrows(d - 1);
    }
  }

  lemma {:induction false} LeadingDigitsBound(n: nat, d: nat)
    requires d >= 1
    ensures LeadingDigits(n, d) < Pow10(d)
  {
    assert Pow10(d) == 10 * Pow10(d - 1);
    PowGrows(d - 1);
    if n >= 10 && n >= Pow10(d) {
      LeadingDigitsBound(n / 10, d);
    }
  }

  // ------------------------------------------------------------------ std::stoi

  predicate IsSpace(c: char) {
    c == ' ' || ('\t' <= c <= '\r')
  }

  function SkipSpace(s: string): string {
    if s != [] && IsSpace(s[0]) then SkipSpace(s[1..]) else s
  }

  /** The digits at the front. */
  function DigitRun(s: string): (r: string)
    ensures forall c <- r :: IsDigit(c)
  {
    if s != [] && IsDigit(s[0]) then [s[0]] + DigitRun(s[1..]) else []
  }

  /** `None` where `std::stoi` throws: no digits, or not an `int`. */
  function StoI(s: string): Option<int> {
    var t := SkipSpace(s);
    var signed := t != [] && (t[0] == '-' || t[0] == '+');
    var digits := DigitRun(if signed then t[1..] else t);
    var n: int := Value(digits);
    var v := if signed && t[0] == '-' then -n else n;
    if digits == [] || !(-0x8000_0000 <= v < 0x8000_0000) then None else Some(v)
  }

  lemma {:induction false} DigitRunOfDigits(s: string)
    requires forall c <- s :: IsDigit(c)
    ensures DigitRun(s) == s
  {
    if s != [] {
      assert forall c <- s[1..] :: c in s;
      DigitRunOfDigits(s[1..]);
    }
  }

  /** Digits alone are read as the number they spell, unless it is no `int`. */
  lemma StoIOfDigits(s: string)
    requires s != [] && forall c <- s :: IsDigit(c)
    ensures StoI(s) == if Value(s) < 0x8000_0000 then Some(Value(s)) else None
  {
    DigitRunOfDigits(s);
    assert s[0] in s;
    assert SkipSpace(s) == s;
  }

  lemma StoIOfMinusDigits(s: string)
    requires s != [] && forall c <- s :: IsDigit(c)
    ensures StoI(['-'] + s) == if Value(s) <= 0x8000_0000 then Some(-(Value(s) as int)) else None
  {
    DigitRunOfDigits(s);
    var t := ['-'] + s;
    assert t[1..] == s && SkipSpace(t) == t;
  }

  lemma {:induction false} SpaceSkipped(spaces: string, s: string)
    requires (forall c <- spaces :: IsSpace(c)) && (s == [] || !IsSpace(s[0]))
    ensures SkipSpace(spaces + s) == s
  {
    if spaces == [] {
      assert spaces + s == s;
    } else {
      assert spaces[0] in spaces && forall c <- spaces[1..] :: c in spaces;
      assert (spaces + s)[1..] == spaces[1..] + s;
      SpaceSkipped(spaces[1..], s);
    }
  }

  lemma {:induction false} DigitRunStops(digits: string, rest: string)
    requires (forall c <- digits :: IsDigit(c)) && (rest == [] || !IsDigit(rest[0]))
    ensures DigitRun(digits + rest) == digits
  {
    if digits == [] {
      assert digits + rest == rest;
    } else {
      assert digits[0] in digits && forall c <- digits[1..] :: c in digits;
      assert (digits + rest)[1..] == digits[1..] + rest;
      DigitRunStops(digits[1..], rest);
    }
  }

  /** What is read behind the spaces, given what its digits are. */
  lemma StoIBehindSpace(s: string, t: string, digits: string)
    requires SkipSpace(s) == t
    requires var signed := t != [] && (t[0] == '-' || t[0] == '+');
      DigitRun(if signed then t[1..] else t) == digits
    ensures forall c <- digits :: IsDigit(c)
    ensures var v: int := if t != [] && t[0] == '-' then -(Value(digits) as int) else Value(digits);
      StoI(s) == if digits != [] && -0x8000_0000 <= v <= 0x7fff_ffff then Some(v) else None
  {
  }

  /** Whatever is read: spaces, a sign or none, digits, and then anything that is no digit. */
  lemma StoIReads(spaces: string, sign: string, digits: string, rest: string)
    requires (forall c <- spaces :: IsSpace(c)) && (forall c <- digits :: IsDigit(c))
    requires (sign == "" && digits != []) || sign == "+" || sign == "-"
    requires rest == [] || !IsDigit(rest[0])
    ensures var v: int := if sign == "-" then -(Value(digits) as int) else Value(digits);
      StoI(spaces + (sign + (digits + rest))) ==
      if digits != [] && -0x8000_0000 <= v <= 0x7fff_ffff then Some(v) else None
  {
    var t := sign + (digits + rest);
    if sign == "" {
      assert digits[0] in digits && t == digits + rest && t[0] == digits[0];
    } else {
      assert t[0] == sign[0] && t[1..] == digits + rest;
    }
    DigitRunStops(digits, rest);
    SpaceSkipped(spaces, t);
    StoIBehindSpace(spaces + t, t, digits);
  }

  /** `std::to_string` of any `int`. */
  function ToString(n: int): string {
    if n < 0 then ['-'] + Decimal(-n) else Decimal(n)
  }

  /** What `to_string` writes, `stoi` reads. */
  lemma StoIOfToString(n: int)
    requires -0x8000_0000 <= n < 0x8000_0000
    ensures StoI(ToString(n)) == Some(n)
  {
    var digits := Decimal(if n < 0 then -n else n);
    ValueOfDecimal(if n < 0 then -n else n);
    assert digits != [] by {
      DecimalIsDigits(if n < 0 then -n else n);
    }
    if n < 0 {
      StoIOfMinusDigits(digits);
    } else {
      StoIOfDigits(digits);
    }
  }
}
