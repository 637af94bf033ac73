/** The few notions every part uses. */
module Basics {

  datatype Option<+T> = None | Some(value: T)

  function Min(a: int, b: int): int { if b < a then b else a }

  function Max(a: int, b: int): int { if a < b then b else a }

  type int32 = x: int | -0x8000_0000 <= x <= 0x7FFF_FFFF

  const INT_MAX := 0x7FFF_FFFF

  /** What a signed sum or product comes to when it is cut to 32 bits. */
  function Wrapped(x: int): int32 {
    var r := x % 0x1_0000_0000;
    if r >= 0x8000_0000 then r - 0x1_0000_0000 else r
  }

  lemma WrappedFits(x: int)
    ensures Wrapped(x) == x <==> -0x8000_0000 <= x <= 0x7FFF_FFFF
    ensures exists k :: Wrapped(x) == x + 0x1_0000_0000 * k
  {
    var q, r := x / 0x1_0000_0000, x % 0x1_0000_0000;
    assert x == 0x1_0000_0000 * q + r;
    assert Wrapped(x) == x + 0x1_0000_0000 * (if r >= 0x8000_0000 then -q - 1 else -q);
  }
}
