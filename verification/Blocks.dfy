/** Disk blocks (fs.h, buf.h): BSIZE bytes, read either as bytes or as an array
    of little-endian 32-bit words, the way log headers and indirect blocks are. */
module Blocks {

  const BSIZE := 512
  const NWORDS := BSIZE / 4
  const TWO32 := 0x1_0000_0000

  type Byte = x: int | 0 <= x < 256
  type Word = x: int | 0 <= x < TWO32
  type Block = b: seq<Byte> | |b| == BSIZE witness seq(BSIZE, _ => 0)

  function ZeroBlock(): (b: Block) {
    seq(BSIZE, _ => 0)
  }

  /** The i-th 32-bit word of a block. */
  function GetWord(b: Block, i: nat): (w: Word)
    requires i < NWORDS
  {
    var b0: int, b1: int, b2: int, b3: int := b[4 * i], b[4 * i + 1], b[4 * i + 2], b[4 * i + 3];
    b0 + 256 * b1 + 65536 * b2 + 16777216 * b3
  }

  /** The four bytes of a word. */
  lemma Digits(w: Word)
    ensures w / 16777216 < 256
    ensures w % 256 + 256 * (w / 256 % 256) + 65536 * (w / 65536 % 256) + 16777216 * (w / 16777216) == w
  {
    assert w / 65536 == w / 256 / 256 && w / 16777216 == w / 256 / 256 / 256;
  }

  /** Store a 32-bit word as the i-th word of a block. */
  function PutWord(b: Block, i: nat, w: Word): (r: Block)
    requires i < NWORDS
    ensures GetWord(r, i) == w
    ensures forall j: nat | j < NWORDS && j != i :: GetWord(r, j) == GetWord(b, j)
  {
    Digits(w);
    var b0: Byte, b1: Byte, b2: Byte, b3: Byte := w % 256, w / 256 % 256, w / 65536 % 256, w / 16777216;
    b[4 * i := b0][4 * i + 1 := b1][4 * i + 2 := b2][4 * i + 3 := b3]
  }

  lemma ZeroWords(i: nat)
    requires i < NWORDS
    ensures GetWord(ZeroBlock(), i) == 0
  {
  }
}
