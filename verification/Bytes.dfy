/** Bytes, little-endian 32-bit words and disk blocks (kernel/types.h, kernel/fs.h). */
module Bytes {

  const BSIZE: nat := 1024
  const WORDS: nat := 256 // 32-bit words in one block
  const TWO32: nat := 0x1_0000_0000

  type byte = x: int | 0 <= x < 256
  type uint32 = x: int | 0 <= x < 0x1_0000_0000

  type Block = b: seq<byte> | |b| == BSIZE witness seq(BSIZE, _ => 0)

  function ZeroBlock(): (b: Block)
    ensures forall i :: 0 <= i < BSIZE ==> b[i] == 0
  {
    seq(BSIZE, _ => 0)
  }

  /** The i-th little-endian 32-bit word of a block. */
  function Word(b: Block, i: nat): (w: uint32)
    requires i < WORDS
  {
    var b0: int, b1: int, b2: int, b3: int := b[4 * i], b[4 * i + 1], b[4 * i + 2], b[4 * i + 3];
    b0 + 0x100 * b1 + 0x1_0000 * b2 + 0x100_0000 * b3
  }

  function SetWord(b: Block, i: nat, w: uint32): (r: Block)
    requires i < WORDS
  {
    b[4 * i := w % 0x100]
    [4 * i + 1 := w / 0x100 % 0x100]
    [4 * i + 2 := w / 0x1_0000 % 0x100]
    [4 * i + 3 := w / 0x100_0000]
  }

  lemma WordOfSetWord(b: Block, i: nat, w: uint32, j: nat)
    requires i < WORDS && j < WORDS
    ensures Word(SetWord(b, i, w), j) == if i == j then w else Word(b, j)
  {
    if i != j {
      assert 4 * j + 3 < 4 * i || 4 * i + 3 < 4 * j;
    } else {
      assert w == w % 0x100 + 0x100 * (w / 0x100 % 0x100) + 0x1_0000 * (w / 0x1_0000 % 0x100)
        + 0x100_0000 * (w / 0x100_0000);
    }
  }

  /** Reading a C `int` from a word: two's complement. */
  function Signed(w: uint32): (n: int)
    ensures -0x8000_0000 <= n < 0x8000_0000
    ensures (n - w) % TWO32 == 0
  {
    if w < 0x8000_0000 then w else w - TWO32
  }
}
