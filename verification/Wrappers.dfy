/** What every module needs: optional values, bytes, 64-bit range, decimal numerals. */
module Wrappers {
  datatype Option<+T> = None | Some(value: T)

  type Byte = bv8

  const U64_MAX: nat := 0xFFFF_FFFF_FFFF_FFFF
  const U64_SIZE: nat := 0x1_0000_0000_0000_0000

  /** Saturating subtraction. */
  function SatSub(a: nat, b: nat): nat {
    if b <= a then a - b else 0
  }

  function Digits(n: nat): string {
    if n < 10 then ["0123456789"[n]] else Digits(n / 10) + ["0123456789"[n % 10]]
  }

  /** The number a numeral denotes. */
  function NumberOf(numeral: string): int {
    if numeral == "" then 0
    else NumberOf(numeral[..|numeral| - 1]) * 10 + (numeral[|numeral| - 1] as int - '0' as int)
  }

  /** The decimal numeral of a number denotes it, in digits only and without a leading zero. */
  lemma {:induction false} DigitsDenote(n: nat)
    ensures Digits(n) != "" && NumberOf(Digits(n)) == n
    ensures forall c :: c in Digits(n) ==> '0' <= c <= '9'
    ensures Digits(n)[0] == '0' ==> n == 0
  {
    if n < 10 {
      assert Digits(n)[..0] == "";
    } else {
      DigitsDenote(n / 10);
      assert Digits(n)[..|Digits(n)| - 1] == Digits(n / 10);
    }
  }
}
