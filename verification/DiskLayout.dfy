/** Where things are on disk, byte by byte (fs.h, log.c): what a program that knows only the format would read
    is what the other parts read. */
module DiskLayout {

  import opened Blocks
  import opened Bitmap
  import opened Inodes
  import opened FileSystem
  import opened InodeBlocks
  import opened RedoLog

  /** The 32-bit number at byte k, least significant byte first. */
  function Le32(b: Block, k: nat): (x: int)
    requires k + 4 <= BSIZE
  {
    var b0: int, b1: int, b2: int, b3: int := b[k], b[k + 1], b[k + 2], b[k + 3];
    b0 + 0x100 * b1 + 0x1_0000 * b2 + 0x100_0000 * b3
  }

  /** struct dinode: 64 bytes, of which the size is at byte 8 and the addresses are from byte 12 on. */
  lemma InodeBytes(b: Block, j: nat, t: nat)
    requires j < 8 && t < 13
    ensures ReadInode(b, j).size == Le32(b, 64 * j + 8) && ReadInode(b, j).addrs[t] == Le32(b, 64 * j + 12 + 4 * t)
  {
    assert Place(j, 2) == 16 * j + 2 && Place(j, 3 + t) == 16 * j + 3 + t;
  }

  /** IBLOCK: eight inodes to a block. */
  lemma InodePlace(sb: Superblock, d: seq<Block>, i: nat)
    requires sb.Wf() && |d| == sb.size && i < sb.ninodes
    ensures sb.inodestart + i / 8 < |d| && InodesOf(sb, d)[i] == ReadInode(d[sb.inodestart + i / 8], i % 8)
  {
    hide ReadInode;
    InBounds(sb, i);
  }

  /** File block n is at address n of the inode, or from block 12 on at number n - 12 of the indirect block. */
  lemma FileBlockPlace(m: Image, i: nat, n: nat)
    requires m.Wf() && i < |m.ips| && n < 12 + 128
    ensures m.Slot(i, FileSlot(n)) == if n < 12 then m.ips[i].addrs[n]
            else if m.ips[i].addrs[12] == 0 then 0
            else Le32(m.bs[m.ips[i].addrs[12]], 4 * (n - 12))
  {
  }

  /** File byte p is byte p % 512 of file block p / 512. */
  lemma FileBytePlace(m: Image, i: nat, p: nat)
    requires m.Wf() && i < |m.ips| && m.SlotsInRange(i) && p < m.ips[i].size <= (12 + 128) * 512
    ensures p / 512 < 12 + 128 && m.Slot(i, FileSlot(p / 512)) < |m.bs|
    ensures m.Content(i)[p] == m.bs[m.Slot(i, FileSlot(p / 512))][p % 512]
  {
    hide Image.Slot;
  }

  /** The bits of a byte, lowest first. */
  const WEIGHT: seq<nat> := [1, 2, 4, 8, 16, 32, 64, 128]

  /** BBLOCK: 4096 bits to a block, eight to a byte. */
  lemma BitPlace(sb: Superblock, bs: seq<Block>, b: nat)
    requires sb.bmapstart + b / 4096 < |bs|
    ensures BitAt(sb, bs, b) <==> bs[sb.bmapstart + b / 4096][b % 4096 / 8] / WEIGHT[b % 8] % 2 == 1
  {
    hide BitOf;
    BitNumber(b);
    BitIs(bs[sb.bmapstart + b / 4096][b % 4096 / 8], b % 8);
  }

  lemma BitNumber(b: nat)
    ensures b % 4096 % 8 == b % 8
  {
  }

  lemma {:induction false} BitIs(x: Byte, k: nat)
    requires k < 8
    ensures BitOf(x, k) <==> x / WEIGHT[k] % 2 == 1
  {
    if k > 0 {
      BitIs(x / 2, k - 1);
      Halved(x, k);
    }
  }

  lemma Halved(x: nat, k: nat)
    requires 0 < k < 8
    ensures x / 2 / WEIGHT[k - 1] == x / WEIGHT[k]
  {
  }

  /** struct logheader: the count, then the block numbers. */
  lemma HeaderBytes(b: Block, i: nat)
    ensures LoggedN(b) == Le32(b, 0)
    ensures LoggedN(b) <= LOGSIZE && i < LoggedN(b) ==> LoggedBlocks(b)[i] == Le32(b, 4 + 4 * i)
  {
    if LoggedN(b) <= LOGSIZE && i < LoggedN(b) {
      EntryAt(b, LoggedN(b), i);
    }
  }

  /** Block i of the log is right behind the header, and goes to the i-th number in it. */
  lemma PendingBytes(d: Disk, l: Layout, i: nat)
    requires WellFormed(d, l) && i < Le32(d[l.start], 0)
    ensures i < |Pending(d, l)| && l.start + 1 + i < |d|
    ensures Pending(d, l)[i].blockno == Le32(d[l.start], 4 + 4 * i) && Pending(d, l)[i].data == d[l.start + 1 + i]
  {
    HeaderBytes(d[l.start], i);
  }
}
