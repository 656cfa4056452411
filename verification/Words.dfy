/** Bytes and 32-bit words as the loader and the emulator store them. */
module Words {

  type U8 = x: int | 0 <= x < 0x100
  type U32 = x: int | 0 <= x < 0x1_0000_0000

  const TWO32: int := 0x1_0000_0000

  /** C unsigned 32-bit arithmetic: every result is reduced modulo 2^32. */
  function Wrap(x: int): U32 {
    if 0 <= x < 0x1_0000_0000 then x else x % 0x1_0000_0000
  }

  /** The four bytes of a word, least significant first (`wr32`). */
  function Le32(v: U32): (b: seq<U8>)
    ensures |b| == 4
  {
    [v % 0x100, v / 0x100 % 0x100, v / 0x1_0000 % 0x100, v / 0x100_0000]
  }

  /** The word held by four consecutive bytes (`rd32`). */
  function Join32(b0: U8, b1: U8, b2: U8, b3: U8): U32 {
    b0 + 0x100 * b1 + 0x1_0000 * b2 + 0x100_0000 * b3
  }

  function Join16(b0: U8, b1: U8): U32 {
    b0 + 0x100 * b1
  }

  /** The two bytes of a 16-bit immediate. */
  function Le16(v: nat): (b: seq<U8>)
    requires v < 0x1_0000
    ensures |b| == 2
  {
    [v % 0x100, v / 0x100]
  }

  lemma JoinLe16(v: nat)
    requires v < 0x1_0000
    ensures Join16(Le16(v)[0], Le16(v)[1]) == v
  {
  }

  lemma JoinLe32(v: U32)
    ensures Join32(Le32(v)[0], Le32(v)[1], Le32(v)[2], Le32(v)[3]) == v
  {
    var a := v / 0x100;
    var b := a / 0x100;
    assert v == 0x100 * a + v % 0x100;
    assert a == 0x100 * b + a % 0x100;
    assert b == 0x100 * (b / 0x100) + b % 0x100;
    assert v / 0x1_0000 == b && v / 0x100_0000 == b / 0x100;
  }
}
