/**
 Numbers as strconv and fmt write and read them: decimal and hexadecimal digits,
 zero padding, an optional sign, and the range check of the target width.
 */
module Numerals {
  import opened Wrappers

  const MIN_INT64: int := -0x8000_0000_0000_0000
  const MAX_INT64: int := 0x7fff_ffff_ffff_ffff

  function Pow(base: nat, exp: nat): nat {
    if exp == 0 then 1 else base * Pow(base, exp - 1)
  }

  function Digit(d: nat): char
    requires d < 16
  {
    "0123456789abcdef"[d]
  }

  /** Upper-case hexadecimal digits are read although they are never written. */
  function DigitValue(c: char, base: nat): Option<nat> {
    var d :=
      if '0' <= c <= '9' then (c - '0') as int
      else if 'a' <= c <= 'f' then 10 + (c - 'a') as int
      else if 'A' <= c <= 'F' then 10 + (c - 'A') as int
      else base;
    if d < base then Some(d) else None
  }

  function Digits(n: nat, base: nat): string
    requires 2 <= base <= 16
  {
    if n < base then [Digit(n)] else Digits(n / base, base) + [Digit(n % base)]
  }

  function Zeros(n: nat): string {
    seq(n, _ => '0')
  }

  /** The verb %0<width>d or %0<width>x of a number that is not negative. */
  function Padded(n: nat, base: nat, width: nat): string
    requires 2 <= base <= 16
  {
    var digits := Digits(n, base);
    if |digits| < width then Zeros(width - |digits|) + digits else digits
  }

  /** The number a run of digits spells, or None at the first character that is not one. */
  function Value(s: string, base: nat): Option<nat> {
    if s == "" then Some(0)
    else
      match (Value(s[..|s| - 1], base), DigitValue(s[|s| - 1], base))
      case (Some(high), Some(low)) => Some(high * base + low)
      case _ => None
  }

  function ParseUint(s: string, base: nat, bits: nat): Option<nat> {
    match Value(s, base)
    case Some(n) => if s != "" && n < Pow(2, bits) then Some(n) else None
    case None => None
  }

  /** strconv.ParseInt of base 10 and 64 bits: one optional sign, then digits. */
  function ParseInt(s: string): Option<int> {
    var negative := s != "" && s[0] == '-';
    var digits := if s != "" && (s[0] == '-' || s[0] == '+') then s[1..] else s;
    match Value(digits, 10)
    case Some(n) =>
      var magnitude: int := n;
      var signed := if negative then -magnitude else magnitude;
      if digits != "" && MIN_INT64 <= signed <= MAX_INT64 then Some(signed) else None
    case None => None
  }

  function FormatInt(n: int): string {
    if n < 0 then "-" + Digits(-n, 10) else Digits(n, 10)
  }

  lemma DigitReadsBack(d: nat, base: nat)
    requires d < base <= 16
    ensures DigitValue(Digit(d), base) == Some(d)
  {
  }

  lemma DivisionParts(n: nat, base: nat)
    requires 0 < base
    ensures n == (n / base) * base + n % base && n % base < base
  {
  }

  lemma QuotientShrinks(n: nat, base: nat)
    requires 2 <= base <= n
    ensures n / base < n
  {
    DivisionBound(n, base, n);
    assert base * n >= 2 * n;
  }

  lemma ValueAppends(s: string, c: char, base: nat)
    requires Value(s, base).Some? && DigitValue(c, base).Some?
    ensures Value(s + [c], base) == Some(Value(s, base).value * base + DigitValue(c, base).value)
  {
    assert (s + [c])[..|s|] == s;
  }

  lemma {:induction false} DigitsReadBack(n: nat, base: nat)
    requires 2 <= base <= 16
    ensures Digits(n, base) != "" && Value(Digits(n, base), base) == Some(n)
  {
    if n < base {
      DigitReadsBack(n, base);
      assert [] + [Digit(n)] == [Digit(n)];
      ValueAppends("", Digit(n), base);
    } else {
      var q, r := n / base, n % base;
      DivisionParts(n, base);
      QuotientShrinks(n, base);
      DigitReadsBack(r, base);
      DigitsReadBack(q, base);
      ValueAppends(Digits(q, base), Digit(r), base);
    }
  }

  lemma {:induction false} ZerosAddNothing(k: nat, s: string, base: nat)
    requires 2 <= base
    ensures Value(Zeros(k) + s, base) == Value(s, base)
    decreases k + |s|
  {
    var t := Zeros(k) + s;
    if s != "" {
      assert t[..|t| - 1] == Zeros(k) + s[..|s| - 1];
      ZerosAddNothing(k, s[..|s| - 1], base);
    } else if k > 0 {
      assert t[..|t| - 1] == Zeros(k - 1) + s;
      ZerosAddNothing(k - 1, s, base);
    }
  }

  lemma DigitsLength(n: nat, base: nat)
    requires 2 <= base <= 16
    ensures |Digits(n, base)| == if n < base then 1 else |Digits(n / base, base)| + 1
    ensures 0 < |Digits(n / base, base)|
  {
  }

  lemma {:induction false} DigitsFit(n: nat, base: nat, width: nat)
    requires 2 <= base <= 16 && 0 < width
    ensures |Digits(n, base)| <= width <==> n < Pow(base, width)
    decreases width
  {
    var p, q := Pow(base, width - 1), n / base;
    PowAtLeast(base, width - 1);
    DivisionBound(n, base, p);
    DivisionBound(n, base, 1);
    DigitsLength(n, base);
    if width > 1 { DigitsFit(q, base, width - 1); }
  }

  lemma PowAtLeast(base: nat, exp: nat)
    requires 1 <= base
    ensures 1 <= Pow(base, exp)
  {
  }

  lemma DivisionBound(n: nat, base: nat, p: nat)
    requires 0 < base
    ensures n / base < p <==> n < base * p
  {
    var q, r := n / base, n % base;
    assert n == base * q + r;
    if q < p {
      assert base * (q + 1) <= base * p;
    } else {
      assert base * p <= base * q;
    }
  }

  /** A padded number fills its width exactly when it fits, and always reads back. */
  lemma PaddedReadsBack(n: nat, base: nat, width: nat)
    requires 2 <= base <= 16 && 0 < width
    ensures Value(Padded(n, base, width), base) == Some(n)
    ensures |Padded(n, base, width)| == width <==> n < Pow(base, width)
    ensures width <= |Padded(n, base, width)|
    ensures forall c :: c in Padded(n, base, width) ==> DigitValue(c, base).Some?
  {
    DigitsReadBack(n, base);
    DigitsFit(n, base, width);
    var digits := Digits(n, base);
    if |digits| < width { ZerosAddNothing(width - |digits|, digits, base); }
    AllDigits(Padded(n, base, width), base);
  }

  lemma {:induction false} AllDigits(s: string, base: nat)
    requires Value(s, base).Some?
    ensures forall c :: c in s ==> DigitValue(c, base).Some?
  {
    if s != "" {
      AllDigits(s[..|s| - 1], base);
      assert s == s[..|s| - 1] + [s[|s| - 1]];
    }
  }

  /** ParseInt undoes FormatInt on the whole range of an int64. */
  lemma FormatIntReadsBack(n: int)
    requires MIN_INT64 <= n <= MAX_INT64
    ensures ParseInt(FormatInt(n)) == Some(n)
  {
    var m := if n < 0 then -n else n;
    NoSign(m);
    if n < 0 { assert FormatInt(n)[1..] == Digits(m, 10); }
  }

  lemma NoSign(m: nat)
    ensures var s := Digits(m, 10); s != "" && s[0] != '-' && s[0] != '+' && Value(s, 10) == Some(m)
  {
    var s := Digits(m, 10);
    DigitsReadBack(m, 10);
    AllDigits(s, 10);
    assert s[0] in s;
  }

  lemma FormatIntInjective(a: int, b: int)
    ensures FormatInt(a) == FormatInt(b) ==> a == b
  {
    var m, k := if a < 0 then -a else a, if b < 0 then -b else b;
    NoSign(m);
    NoSign(k);
    if FormatInt(a) == FormatInt(b) {
      if a < 0 { assert FormatInt(a)[1..] == Digits(m, 10); }
      if b < 0 { assert FormatInt(b)[1..] == Digits(k, 10); }
    }
  }

  /** A decimal holds digits and at most a sign. */
  lemma NoColon(n: int)
    ensures ':' !in FormatInt(n)
  {
    var m: nat := if n < 0 then -n else n;
    DigitsReadBack(m, 10);
    AllDigits(Digits(m, 10), 10);
  }
}
