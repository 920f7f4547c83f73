/** The 32-bit signed integer of C# (`int`), with the wrap-around of unchecked `++`. */
module Int32s {

  newtype int32 = x: int | -0x8000_0000 <= x < 0x8000_0000

  const Int32Min: int32 := -0x8000_0000
  const Int32Max: int32 := 0x7fff_ffff

  /** The C# `++` on an `int` in an unchecked context: the maximum wraps to the minimum. */
  function Inc32(x: int32): int32
  {
    if x == Int32Max then Int32Min else x + 1
  }

  /** The `int` that an unbounded count `n` shows up as after counting up from 0 with `Inc32`. */
  function Wrap32(n: int): int32
  {
    ((n + 0x8000_0000) % 0x1_0000_0000 - 0x8000_0000) as int32
  }

  /** A small count is represented exactly. */
  lemma WrapSmall(n: int)
    requires 0 <= n <= Int32Max as int
    ensures Wrap32(n) as int == n
  {
  }

  /** Counting up with the wrapping `++` keeps the represented value in step with the true count. */
  lemma IncWrap(n: int)
    ensures Inc32(Wrap32(n)) == Wrap32(n + 1)
  {
    var m := (n + 0x8000_0000) % 0x1_0000_0000;
    var m' := (n + 1 + 0x8000_0000) % 0x1_0000_0000;
    if m == 0xffff_ffff {
      assert m' == 0;
    } else {
      assert m' == m + 1;
    }
  }
}
