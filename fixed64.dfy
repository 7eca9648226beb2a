/**
 * `Fixed64`, the client's amount type: a signed 64-bit integer counting
 * the smallest currency unit. Go's `+=` on it wraps around silently, so the
 * model writes the wrap out.
 */
module Fixed {

  const MinFixed64: int := -0x8000_0000_0000_0000
  const MaxFixed64: int := 0x7FFF_FFFF_FFFF_FFFF
  const Modulus: int := 0x1_0000_0000_0000_0000

  type Fixed64 = x: int | MinFixed64 <= x <= MaxFixed64

  /** Two's-complement truncation of an integer to 64 bits. */
  function Wrap(x: int): Fixed64
  {
    (x - MinFixed64) % Modulus + MinFixed64
  }

  /** Go's `a + b` on two `Fixed64` values. */
  function Add(a: Fixed64, b: Fixed64): (r: Fixed64)
    ensures (r - (a + b)) % Modulus == 0
  {
    Wrap(a + b)
  }

  /** Wrapping changes a value by a multiple of 2^64 and leaves a value in range alone. */
  lemma WrapResidue(x: int)
    ensures (Wrap(x) - x) % Modulus == 0
    ensures MinFixed64 <= x <= MaxFixed64 ==> Wrap(x) == x
  {
  }

  /** Addition is exact as long as the sum fits in 64 bits. */
  lemma AddExact(a: Fixed64, b: Fixed64)
    requires MinFixed64 <= a + b <= MaxFixed64
    ensures Add(a, b) == a + b
  {
  }

  /** Wrapping after every step is wrapping once at the end. */
  lemma WrapAdd(x: int, b: int)
    ensures Wrap(Wrap(x) + b) == Wrap(x + b)
  {
  }

  /** Sum of a sequence of amounts, in unbounded arithmetic. */
  function Total(amounts: seq<Fixed64>): int
  {
    if amounts == [] then 0 else Total(amounts[..|amounts| - 1]) + amounts[|amounts| - 1]
  }
}
