/** Single bits of the free map (fs.c: `m = 1 << (bi % 8)`, `|= m`, `&= ~m`). */
module Bitmap {
  import opened Blocks

  const BPB: nat := 8 * BSIZE

  /** Bit k of a byte: `(x & (1 << k)) != 0`. */
  predicate BitOf(x: Byte, k: nat) {
    if k == 0 then x % 2 == 1 else BitOf(x / 2, k - 1)
  }

  /** `x | (1 << k)` or `x & ~(1 << k)`. */
  function PutBit(x: Byte, k: nat, on: bool): (r: Byte)
    requires k < 8
    ensures BitOf(r, k) == on
    ensures forall j: nat | j != k :: BitOf(r, j) == BitOf(x, j)
  {
    PutBitsIn(x, 8, k, on);
    PutBitIn(x, 8, k, on)
  }

  /** The same on a number of n bits. */
  function PutBitIn(x: nat, n: nat, k: nat, on: bool): (r: nat) {
    if n == 0 then x
    else if k == 0 then x / 2 * 2 + (if on then 1 else 0)
    else PutBitIn(x / 2, n - 1, k - 1, on) * 2 + x % 2
  }

  function Pow2(n: nat): (p: nat) {
    if n == 0 then 1 else 2 * Pow2(n - 1)
  }

  lemma {:induction false} PutBitsIn(x: Byte, n: nat, k: nat, on: bool)
    requires k < n <= 8 && x < Pow2(n)
    ensures PutBitIn(x, n, k, on) < Pow2(n)
    ensures PutBitIn(x, n, k, on) < 256
    ensures BitOf(PutBitIn(x, n, k, on), k) == on
    ensures forall j: nat | j != k :: BitOf(PutBitIn(x, n, k, on), j) == BitOf(x, j)
  {
    assert Pow2(n) <= 256 by { assert Pow2(8) == 256; Pow2Grows(n, 8); }
    if k > 0 {
      PutBitsIn(x / 2, n - 1, k - 1, on);
      var y := PutBitIn(x / 2, n - 1, k - 1, on);
      var r := PutBitIn(x, n, k, on);
      assert r / 2 == y && r % 2 == x % 2;
    } else {
      var r := PutBitIn(x, n, k, on);
      assert r / 2 == x / 2;
    }
  }

  lemma {:induction false} Pow2Grows(m: nat, n: nat)
    requires m <= n
    ensures 1 <= Pow2(m) <= Pow2(n)
  {
    if m < n {
      Pow2Grows(m, n - 1);
    } else if n > 0 {
      Pow2Grows(m - 1, n - 1);
    }
  }

  /** Bit bi of a bitmap block. */
  predicate BlockBit(b: Block, bi: nat)
    requires bi < BPB
  {
    BitOf(b[bi / 8], bi % 8)
  }

  function PutBlockBit(b: Block, bi: nat, on: bool): (r: Block)
    requires bi < BPB
    ensures BlockBit(r, bi) == on
    ensures forall j: nat | j < BPB && j != bi :: BlockBit(r, j) == BlockBit(b, j)
  {
    var r := b[bi / 8 := PutBit(b[bi / 8], bi % 8, on)];
    assert forall j: nat | j < BPB && j != bi && j / 8 == bi / 8 :: j % 8 != bi % 8;
    r
  }
}
