/** Go's signed 64-bit integers: wrap-around and truncating division, plus the
    two result types used by the rest of the project. */
module Int64 {
  datatype Option<+T> = None | Some(value: T)

  datatype Result<+T, +E> = Ok(value: T) | Err(error: E)

  const MAX64: int := 0x7FFF_FFFF_FFFF_FFFF
  const MIN64: int := -0x8000_0000_0000_0000
  const TWO64: int := 0x1_0000_0000_0000_0000

  predicate InRange(x: int) {
    MIN64 <= x <= MAX64
  }

  /** The value an int64 variable holds after a computation whose exact result is x. */
  function Wrap64(x: int): (r: int)
    ensures InRange(r)
    ensures InRange(x) ==> r == x
  {
    (x - MIN64) % TWO64 + MIN64
  }

  /** Go's `/`, which truncates toward zero. */
  function TruncDiv(x: int, y: int): int
    requires y > 0
  {
    if x >= 0 then x / y else -((-x) / y)
  }

  /** Go's `%`, which takes the sign of the dividend. */
  function TruncMod(x: int, y: int): int
    requires y > 0
  {
    if x >= 0 then x % y else -((-x) % y)
  }

  /** Wrapping adds a multiple of 2^64. */
  lemma WrapMultiple(x: int) returns (k: int)
    ensures Wrap64(x) == x + k * TWO64
  {
    k := -((x - MIN64) / TWO64);
  }

  /** Wrapping depends only on the residue modulo 2^64. */
  lemma WrapCongruent(x: int, y: int, k: int)
    requires x == y + k * TWO64
    ensures Wrap64(x) == Wrap64(y)
  {
  }

  /** Adding to an already wrapped value is the same as wrapping the exact sum. */
  lemma WrapAdd(x: int, y: int)
    ensures Wrap64(Wrap64(x) + y) == Wrap64(x + y)
  {
    var k := WrapMultiple(x);
    WrapCongruent(Wrap64(x) + y, x + y, k);
  }

  /** The same for a product. */
  lemma WrapMul(x: int, y: int)
    ensures Wrap64(Wrap64(x) * y) == Wrap64(x * y)
  {
    var k := WrapMultiple(x);
    assert Wrap64(x) * y == x * y + (k * y) * TWO64;
    WrapCongruent(Wrap64(x) * y, x * y, k * y);
  }
}
