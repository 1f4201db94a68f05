// Text helpers that the Go sources take from fmt and strings.
module Strings {

  function Digit(d: nat): char
    requires d < 10
  {
    ('0' as int + d) as char
  }

  /** A number in decimal, without sign and leading zeros. */
  function Decimal(n: nat): string
  {
    if n < 10 then [Digit(n)] else Decimal(n / 10) + [Digit(n % 10)]
  }

  function DigitValue(c: char): nat
  {
    if '0' <= c <= '9' then c as int - '0' as int else 0
  }

  function FromDecimal(s: string): nat
  {
    if s == [] then 0 else FromDecimal(s[..|s| - 1]) * 10 + DigitValue(s[|s| - 1])
  }

  lemma DigitRoundTrip(d: nat)
    requires d < 10
    ensures DigitValue(Digit(d)) == d && '0' <= Digit(d) <= '9'
  {
  }

  lemma {:induction false} DecimalRoundTrip(n: nat)
    ensures FromDecimal(Decimal(n)) == n
  {
    if n < 10 {
      DigitRoundTrip(n);
      assert Decimal(n)[..0] == [];
    } else {
      DigitRoundTrip(n % 10);
      DecimalRoundTrip(n / 10);
      assert Decimal(n)[..|Decimal(n)| - 1] == Decimal(n / 10);
    }
  }

  lemma {:induction false} DecimalHasOnlyDigits(n: nat, i: nat)
    requires i < |Decimal(n)|
    ensures '0' <= Decimal(n)[i] <= '9'
  {
    if n < 10 {
      DigitRoundTrip(n);
    } else if i < |Decimal(n / 10)| {
      DecimalHasOnlyDigits(n / 10, i);
    } else {
      DigitRoundTrip(n % 10);
    }
  }

  /** strings.Join. */
  function Join(parts: seq<string>, sep: string): string
  {
    if parts == [] then "" else if |parts| == 1 then parts[0] else parts[0] + sep + Join(parts[1..], sep)
  }

  predicate HasPrefix(s: string, prefix: string)
  {
    prefix <= s
  }
}
