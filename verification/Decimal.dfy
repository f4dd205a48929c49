/** Decimal numerals as the printer writes them and the parsers read them. */
module Decimal {
  import opened Wrappers

  const MAX_UINT64: int := 0xFFFF_FFFF_FFFF_FFFF
  const MAX_INT64: int := 0x7FFF_FFFF_FFFF_FFFF
  const MIN_INT64: int := -0x8000_0000_0000_0000

  predicate IsDigit(c: char) {
    '0' <= c <= '9'
  }

  function DigitValue(c: char): nat
    requires IsDigit(c)
  {
    c as int - '0' as int
  }

  function Itoa(n: nat): (s: string)
    ensures s != [] && forall c | c in s :: IsDigit(c)
  {
    var d := ('0' as int + n % 10) as char;
    if n < 10 then [d] else Itoa(n / 10) + [d]
  }

  function ItoaInt(i: int): (s: string)
    ensures s != [] && forall c | c in s :: IsDigit(c) || c == '-'
  {
    if i < 0 then "-" + Itoa(-i) else Itoa(i)
  }

  predicate AllDigits(s: string) {
    forall c | c in s :: IsDigit(c)
  }

  function ToNat(s: string): nat
    requires AllDigits(s)
  {
    if s == [] then 0 else ToNat(s[..|s| - 1]) * 10 + DigitValue(s[|s| - 1])
  }

  function ParseUint(s: string): Option<nat> {
    if s != [] && AllDigits(s) && ToNat(s) <= MAX_UINT64 then Some(ToNat(s)) else None
  }

  function ParseInt(s: string): Option<int> {
    if s == [] then None
    else
      var neg := s[0] == '-';
      var digits := if s[0] == '-' || s[0] == '+' then s[1..] else s;
      match ParseUint(digits)
      case None => None
      case Some(n) =>
        if !neg && n > MAX_INT64 then None
        else if neg && n > MAX_INT64 + 1 then None
        else if neg then Some(0 - n) else Some(n)
  }

  lemma {:induction false} NumeralValue(n: nat)
    ensures ToNat(Itoa(n)) == n
  {
    if n >= 10 {
      NumeralValue(n / 10);
      assert Itoa(n)[..|Itoa(n)| - 1] == Itoa(n / 10);
    }
  }

  /** The digits are those of the number in base ten, each the character it is written with,
      and the first is not zero unless the number is. */
  lemma {:induction false} NumeralDigits(n: nat)
    ensures Itoa(n)[|Itoa(n)| - 1] == "0123456789"[n % 10]
    ensures if n < 10 then |Itoa(n)| == 1 else Itoa(n)[..|Itoa(n)| - 1] == Itoa(n / 10)
    ensures Itoa(n)[0] == '0' ==> n == 0
  {
    if n >= 10 {
      NumeralDigits(n / 10);
      assert Itoa(n)[0] == Itoa(n / 10)[0];
    }
  }

  /** Printing then parsing gives the number back, for every uint64 ... */
  lemma UintRoundTrip(n: nat)
    ensures ParseUint(Itoa(n)) == if n <= MAX_UINT64 then Some(n) else None
  {
    NumeralValue(n);
  }

  /** ... and every int64; a larger or smaller number is refused. */
  lemma IntRoundTrip(i: int)
    ensures ParseInt(ItoaInt(i)) == if MIN_INT64 <= i <= MAX_INT64 then Some(i) else None
  {
    NumeralValue(if i < 0 then -i else i);
    if i < 0 {
      assert ItoaInt(i)[1..] == Itoa(-i);
    } else {
      assert IsDigit(Itoa(i)[0]);
    }
  }
}
