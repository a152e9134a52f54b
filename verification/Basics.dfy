/** The numbers and the ends of sequences that several modules use. */
module Basics {

  const NANOS_PER_SECOND: nat := 1_000_000_000
  const U32_MAX: nat := 0xFFFF_FFFF
  const U64_MAX: nat := 0xFFFF_FFFF_FFFF_FFFF

  function Min(a: int, b: int): int { if a <= b then a else b }

  function Max(a: int, b: int): int { if a >= b then a else b }

  function Power(base: nat, exponent: nat): nat {
    if exponent == 0 then 1 else base * Power(base, exponent - 1)
  }

  function Last<T>(q: seq<T>): T
    requires q != []
  {
    q[|q| - 1]
  }

  function Front<T>(q: seq<T>): seq<T>
    requires q != []
  {
    q[..|q| - 1]
  }
}
