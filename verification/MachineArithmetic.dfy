/**
 Integer arithmetic as C and C++ define it.
 */
module MachineArithmetic {

  const INT_MIN := -0x8000_0000
  const INT_MAX := 0x7FFF_FFFF

  /** Division and remainder of C: the quotient is truncated toward zero. */
  function Quot(a: int, b: int): int
    requires b > 0
  {
    if a >= 0 then a / b else -((-a) / b)
  }

  function Rem(a: int, b: int): int
    requires b > 0
  {
    a - b * Quot(a, b)
  }

  /** Quotient and remainder are what they add up to. */
  lemma QuotientIs(x: int, n: int, q: int, r: int)
    requires n in {4, 7, 100, 400} && x == n * q + r && 0 <= r < n
    ensures x / n == q && x % n == r
  {
    if n == 4 {
    } else if n == 7 {
    } else if n == 100 {
    } else {
    }
  }

  lemma QuotRem(a: int, b: int)
    requires b > 0
    ensures a == b * Quot(a, b) + Rem(a, b) && -b < Rem(a, b) < b
    ensures a >= 0 ==> Quot(a, b) == a / b && Rem(a, b) == a % b
    ensures a <= 0 ==> Quot(a, b) == -((-a) / b) && Rem(a, b) == -((-a) % b)
  {
  }
}
