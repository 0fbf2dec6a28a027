/** Vocabulary shared by the model: optional values, and the 32-bit integers of the source. */
module Basics {

  datatype Option<+T> = None | Some(value: T)

  const MAX_INT32 := 0x7fff_ffff

  /** The value an `int32` holds after an arithmetic result `x` is stored in it. */
  function Wrap32(x: int): int {
    (x + 0x8000_0000) % 0x1_0000_0000 - 0x8000_0000
  }

  function Min(a: int, b: int): int {
    if a < b then a else b
  }

  function Max(a: int, b: int): int {
    if a < b then b else a
  }

  lemma Wrap32InRange(x: int)
    ensures -0x8000_0000 <= Wrap32(x) <= MAX_INT32
    ensures -0x8000_0000 <= x <= MAX_INT32 ==> Wrap32(x) == x
    ensures MAX_INT32 == 2147483647 && (Wrap32(x) - x) % 4294967296 == 0
  {
  }

  /** Two numbers less than 2^32 apart never collide when they wrap around. */
  lemma Wrap32Injective(a: int, b: int)
    requires Wrap32(a) == Wrap32(b)
    requires -0x1_0000_0000 < a - b < 0x1_0000_0000
    ensures a == b
  {
    var m := 0x1_0000_0000;
    var x, y := a + 0x8000_0000, b + 0x8000_0000;
    assert x == m * (x / m) + x % m;
    assert y == m * (y / m) + y % m;
  }

  function Find<K, V>(m: map<K, V>, k: K): Option<V> {
    if k in m then Some(m[k]) else None
  }
}
