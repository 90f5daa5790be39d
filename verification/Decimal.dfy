/** Decimal integers as text, as the standard library prints and parses them. */
module Decimal {
  import opened Types

  const MIN_INT64 := -0x8000_0000_0000_0000
  const MAX_INT64 := 0x7fff_ffff_ffff_ffff

  predicate IsInt64(n: int) {
    MIN_INT64 <= n <= MAX_INT64
  }

  predicate IsDigit(c: char) {
    '0' <= c <= '9'
  }

  function Digit(n: nat): char
    requires n < 10
  {
    '0' + n as char
  }

  function Digits(n: nat): string {
    if n < 10 then [Digit(n)] else Digits(n / 10) + [Digit(n % 10)]
  }

  function Itoa(n: int): string {
    if n < 0 then "-" + Digits(-n) else Digits(n)
  }

  predicate AllDigits(s: string) {
    forall i :: 0 <= i < |s| ==> IsDigit(s[i])
  }

  function Value(s: string): nat
    requires AllDigits(s)
  {
    if s == [] then 0 else 10 * Value(s[..|s| - 1]) + (s[|s| - 1] - '0') as nat
  }

  function Magnitude(s: string): Option<nat> {
    if s != [] && AllDigits(s) then Some(Value(s)) else None
  }

  /** The number a text denotes: an optional sign, then digits. */
  function Number(s: string): Option<int> {
    if s == [] then None
    else
      match Magnitude(if s[0] == '-' || s[0] == '+' then s[1..] else s)
      case None => None
      case Some(m) => Some(if s[0] == '-' then -(m as int) else m)
  }

  /** Numbers that do not fit are errors. */
  function ParseInt(s: string): Option<int> {
    var n := Number(s);
    if n.Some? && IsInt64(n.value) then n else None
  }

  lemma {:induction false} DigitsDenote(n: nat)
    ensures Digits(n) != [] && AllDigits(Digits(n)) && Value(Digits(n)) == n
  {
    if n < 10 {
      assert Digits(n)[..0] == [];
    } else {
      DigitsDenote(n / 10);
      assert Digits(n)[..|Digits(n)| - 1] == Digits(n / 10);
    }
  }

  lemma NumberOfDigits(n: nat)
    ensures Number(Digits(n)) == Some(n)
  {
    DigitsDenote(n);
    assert IsDigit(Digits(n)[0]);
  }

  lemma NumberOfNegated(n: nat)
    ensures Number("-" + Digits(n)) == Some(-(n as int))
  {
    DigitsDenote(n);
    assert ("-" + Digits(n))[1..] == Digits(n);
  }

  /** Printing then parsing gives the number back. */
  lemma NumberOfItoa(n: int)
    ensures Number(Itoa(n)) == Some(n)
    ensures ParseInt(Itoa(n)) == if IsInt64(n) then Some(n) else None
  {
    assert Number(Itoa(n)) == Some(n) by {
      if n < 0 { NumberOfNegated(-n); } else { NumberOfDigits(n); }
    }
  }

  lemma ItoaInjective(a: int, b: int)
    requires Itoa(a) == Itoa(b)
    ensures a == b
  {
    NumberOfItoa(a);
    NumberOfItoa(b);
  }
}
