/** The block file system (fs.c): bitmap allocator, inode block maps, readi and writei. The
    blocks are the latest logged contents, which the buffer cache and log present as one map. */
module FileSystem {
  import opened Blocks
  import opened Bitmap
  import opened Inodes
  import opened FileBytes
  import opened Truncate
  import opened Wrappers

  /** Inodes per block: BSIZE / sizeof(struct dinode). */
  const IPB: nat := 8

  datatype WriteResult =
    | Wrote(n: nat)   // all n bytes written
    | Refused         // -1
    | OutOfBlocks     // panic "balloc: out of blocks"

  function Min(a: nat, b: nat): (r: nat) {
    if a < b then a else b
  }

  /** How many blocks the n bytes at off lie in. */
  function Span(off: nat, n: nat): (k: nat) {
    if n == 0 then 0 else (off + n - 1) / BSIZE - off / BSIZE + 1
  }

  /** One pass of writei's loop adds at most one block to the span. */
  lemma SpanGrows(off: nat, tot: nat, k: nat)
    requires 0 < k && (off + tot) % BSIZE + k <= BSIZE && (tot == 0 || (off + tot) % BSIZE == 0)
    ensures Span(off, tot + k) == Span(off, tot) + 1
  {
    assert (off + tot + k - 1) / BSIZE == (off + tot) / BSIZE;
    if tot > 0 {
      assert (off + tot - 1) / BSIZE == (off + tot) / BSIZE - 1;
    }
  }

  datatype Superblock = Superblock(size: nat, nblocks: nat, ninodes: nat, inodestart: nat, bmapstart: nat) {
    /** First data block. */
    function First(): (f: int) {
      size - nblocks
    }

    /** boot | super | log | inode blocks | free bit map | data blocks */
    ghost predicate Wf() {
      && size < TWO32 && nblocks < size
      && 0 < inodestart
      && (forall i: nat | i < ninodes :: IBlock(i) < bmapstart)
      && (forall b: nat | b < size :: BBlock(b) < First())
    }

    function IBlock(i: nat): (b: nat) {
      i / IPB + inodestart
    }

    function BBlock(b: nat): (r: nat) {
      b / BPB + bmapstart
    }
  }

  ghost predicate BitAt(sb: Superblock, bs: seq<Block>, b: nat)
    requires sb.BBlock(b) < |bs|
  {
    BlockBit(bs[sb.BBlock(b)], b % BPB)
  }

  /** The bit map marks the metadata blocks and the blocks of `alloc`, and nothing else. */
  ghost predicate Bits(sb: Superblock, bs: seq<Block>, alloc: set<nat>) {
    && sb.Wf() && |bs| == sb.size
    && (forall b | b in alloc :: sb.First() <= b < sb.size)
    && (forall b: nat | b < sb.size :: BitAt(sb, bs, b) <==> b < sb.First() || b in alloc)
  }

  /** Changing one bit of the map. */
  lemma BitChange(sb: Superblock, bs: seq<Block>, alloc: set<nat>, b: nat, on: bool)
    requires Bits(sb, bs, alloc) && sb.First() <= b < sb.size
    ensures var cs := bs[sb.BBlock(b) := PutBlockBit(bs[sb.BBlock(b)], b % BPB, on)];
            Bits(sb, cs, if on then alloc + {b} else alloc - {b})
  {
    hide BlockBit, PutBlockBit;
    var cs := bs[sb.BBlock(b) := PutBlockBit(bs[sb.BBlock(b)], b % BPB, on)];
    forall c: nat | c < sb.size ensures BitAt(sb, cs, c) == if c == b then on else BitAt(sb, bs, c) {
      if c != b && sb.BBlock(c) == sb.BBlock(b) {
        assert c % BPB != b % BPB;
      }
    }
  }

  /** Changing a data block does not touch the map. */
  lemma BitsKept(sb: Superblock, bs: seq<Block>, alloc: set<nat>, b: nat, data: Block)
    requires Bits(sb, bs, alloc) && sb.First() <= b < sb.size
    ensures Bits(sb, bs[b := data], alloc)
  {
    hide BlockBit;
    var cs := bs[b := data];
    forall c: nat | c < sb.size ensures BitAt(sb, cs, c) <==> BitAt(sb, bs, c) {
      assert sb.BBlock(c) < sb.First();
    }
  }

  lemma SameBitmapBlock(sb: Superblock, b: nat, bi: nat)
    requires b % BPB == 0 && bi < BPB
    ensures sb.BBlock(b + bi) == sb.BBlock(b) && (b + bi) % BPB == bi
  {
  }

  /** The inner loop of balloc: the first clear bit of one bitmap block, or its end. */
  method ScanBlock(sb: Superblock, bs: seq<Block>, b: nat) returns (bi: nat)
    requires sb.Wf() && |bs| == sb.size && b % BPB == 0 && b < sb.size
    ensures bi <= BPB && forall c: nat | b <= c < b + bi && c < sb.size :: BitAt(sb, bs, c)
    ensures bi < BPB && b + bi < sb.size ==> !BitAt(sb, bs, b + bi)
    ensures bi < BPB ==> b + bi <= sb.size
  {
    hide BlockBit;
    var bp := bs[sb.BBlock(b)];
    bi := 0;
    while bi < BPB && b + bi < sb.size
      invariant 0 <= bi <= BPB && b + bi <= sb.size
      invariant forall c: nat | b <= c < b + bi :: BitAt(sb, bs, c)
    {
      SameBitmapBlock(sb, b, bi);
      if !BlockBit(bp, bi) {
        assert !BitAt(sb, bs, b + bi);
        return;
      }
      bi := bi + 1;
    }
  }

  /** The two loops of balloc: the first block whose bit is clear. */
  method FindFree(sb: Superblock, bs: seq<Block>) returns (r: Option<nat>)
    requires sb.Wf() && |bs| == sb.size
    ensures r.None? ==> forall c: nat | c < sb.size :: BitAt(sb, bs, c)
    ensures r.Some? ==> r.value < sb.size && !BitAt(sb, bs, r.value) && forall c: nat | c < r.value :: BitAt(sb, bs, c)
  {
    hide BitAt;
    var b := 0;
    while b < sb.size
      invariant 0 <= b && b % BPB == 0
      invariant forall c: nat | c < b && c < sb.size :: BitAt(sb, bs, c)
    {
      var bi := ScanBlock(sb, bs, b);
      if bi < BPB && b + bi < sb.size {
        return Some(b + bi);
      }
      b := b + BPB;
    }
    return None;
  }

  /** Blocks that a file of this size takes: its data, and the indirect block. */
  function FileBlocks(size: nat): (n: nat) {
    (size + BSIZE - 1) / BSIZE + if size > NDIRECT * BSIZE then 1 else 0
  }

  lemma FileBlocksGrow(a: nat, b: nat)
    requires a <= b
    ensures FileBlocks(a) <= FileBlocks(b)
  {
  }

  /** Blocks that bmap allocates for block bn. */
  ghost function New(m: Image, i: nat, bn: nat): (n: nat)
    requires m.Wf() && i < |m.ips| && bn < MAXFILE
  {
    (if m.Slot(i, FileSlot(bn)) == 0 then 1 else 0) + if bn >= NDIRECT && m.ips[i].addrs[NDIRECT] == 0 then 1 else 0
  }

  /** In a file without holes they are what its size says. */
  lemma NewBlocks(m: Image, i: nat, limit: nat, off: nat, k: nat)
    requires m.Wf() && i < |m.ips| && m.NoHoles(i, limit) && off <= limit <= MAXBYTES
    requires 0 < k && off % BSIZE + k <= BSIZE && off + k <= MAXBYTES
    ensures off / BSIZE < MAXFILE && New(m, i, off / BSIZE) == FileBlocks(Max(limit, off + k)) - FileBlocks(limit)
  {
    hide GetWord, Image.Slot;
    var bn := off / BSIZE;
    assert bn * BSIZE <= off < off + k <= (bn + 1) * BSIZE;
    assert m.Slot(i, FileSlot(bn)) != 0 <==> bn * BSIZE < limit;
    if bn * BSIZE < limit {
      SameCeiling(limit, off + k, bn);
    } else {
      assert limit == off == bn * BSIZE;
      Ceiling(limit, bn);
      Ceiling(off + k, bn + 1);
    }
  }

  lemma Ceiling(size: nat, n: nat)
    requires n == 0 || (n - 1) * BSIZE < size
    requires size <= n * BSIZE
    ensures (size + BSIZE - 1) / BSIZE == n
  {
  }

  lemma SameCeiling(limit: nat, end: nat, bn: nat)
    requires bn * BSIZE < limit && end <= (bn + 1) * BSIZE
    ensures (Max(limit, end) + BSIZE - 1) / BSIZE == (limit + BSIZE - 1) / BSIZE
    ensures bn >= NDIRECT ==> limit > NDIRECT * BSIZE
    ensures bn < NDIRECT ==> end <= NDIRECT * BSIZE
  {
    if limit < end {
      Ceiling(limit, bn + 1);
      Ceiling(end, bn + 1);
    }
  }

  /** Sets of blocks from a up to b: at most so many, and all of them only if every block is in. */
  lemma {:induction false} BlockCount(xs: set<nat>, a: nat, b: nat)
    requires a <= b && forall x | x in xs :: a <= x < b
    ensures |xs| <= b - a
    ensures (forall x: nat | a <= x < b :: x in xs) ==> |xs| == b - a
    decreases b
  {
    if a == b {
      assert xs == {};
    } else {
      BlockCount(xs - {b - 1}, a, b - 1);
      assert b - 1 in xs ==> |xs| == |xs - {b - 1}| + 1;
      assert b - 1 !in xs ==> xs - {b - 1} == xs;
    }
  }

  /** The file system that mkfs lays out (mkfs.c, param.h): 1000 blocks, 200 inodes, a log of 30
      blocks from block 2 on, and one block of free map. */
  const SHIPPED := Superblock(1000, 941, 200, 32, 58)

  lemma ShippedWf()
    ensures SHIPPED.Wf() && SHIPPED.size <= BPB && SHIPPED.First() == 59
  {
  }

  const EMPTY := Inode(0, seq(NADDRS, _ => 0))

  /** A disk with nothing on it but the marks of the metadata blocks is a valid image. */
  lemma EmptyImage(sb: Superblock, bs: seq<Block>)
    requires Bits(sb, bs, {})
    ensures var m := Image(bs, seq(sb.ninodes, _ => EMPTY), sb.First(), sb.size);
            m.Wf() && m.Owned(map[]) && forall i: nat | i < sb.ninodes :: m.NoHoles(i, 0)
  {
    hide GetWord, BlockBit;
    var m := Image(bs, seq(sb.ninodes, _ => EMPTY), sb.First(), sb.size);
    assert sb.BBlock(0) < sb.First();
    forall i: nat | i < sb.ninodes ensures m.NoHoles(i, 0) {
      EmptyNoHoles(m, i);
    }
  }

  /** Mark the blocks below n in an empty free map. */
  method MarkBelow(sb: Superblock, n: nat) returns (bs: seq<Block>)
    requires sb.Wf() && n <= sb.size
    ensures |bs| == sb.size && forall c: nat | c < sb.size :: BitAt(sb, bs, c) <==> c < n
  {
    hide PutBlockBit;
    bs := seq(sb.size, _ => ZeroBlock());
    forall c: nat | c < sb.size ensures !BitAt(sb, bs, c) {
      ZeroBits(c % BPB);
    }
    hide BlockBit;
    var b := 0;
    while b < n
      invariant b <= n && |bs| == sb.size && forall c: nat | c < sb.size :: BitAt(sb, bs, c) <==> c < b
    {
      assert sb.BBlock(b) < sb.First();
      ghost var was := bs;
      bs := bs[sb.BBlock(b) := PutBlockBit(bs[sb.BBlock(b)], b % BPB, true)];
      forall c: nat | c < sb.size ensures BitAt(sb, bs, c) == (c == b || BitAt(sb, was, c)) {
        if c != b && sb.BBlock(c) == sb.BBlock(b) {
          assert c % BPB != b % BPB;
        }
      }
      b := b + 1;
    }
  }

  lemma ZeroBits(bi: nat)
    requires bi < BPB
    ensures !BlockBit(ZeroBlock(), bi)
  {
    NoBits(bi % 8);
  }

  lemma {:induction false} NoBits(k: nat)
    ensures !BitOf(0, k)
  {
    if k > 0 {
      NoBits(k - 1);
    }
  }

  /** Between two states, every block that changed was logged, and logged blocks belong to the free
      map or to the data. */
  ghost predicate Tracks(sb: Superblock, b: seq<Block>, l: set<nat>, c: seq<Block>, k: set<nat>) {
    && l <= k && |b| == |c| == sb.size
    && (forall x: nat | x < sb.size && x !in k :: c[x] == b[x])
    && (forall x | x in k && x !in l :: sb.bmapstart <= x < sb.size)
  }

  lemma TracksTrans(sb: Superblock, b: seq<Block>, l: set<nat>, c: seq<Block>, k: set<nat>, d: seq<Block>, m: set<nat>)
    requires Tracks(sb, b, l, c, k) && Tracks(sb, c, k, d, m)
    ensures Tracks(sb, b, l, d, m)
  {
  }

  lemma TracksSelf(sb: Superblock, b: seq<Block>, alloc: set<nat>, l: set<nat>)
    requires Bits(sb, b, alloc)
    ensures Tracks(sb, b, l, b, l)
  {
  }

  /** One block is stored and logged. */
  lemma TracksStore(sb: Superblock, b: seq<Block>, alloc: set<nat>, l: set<nat>, x: nat, data: Block)
    requires Bits(sb, b, alloc) && x < sb.size && (sb.First() <= x || sb.bmapstart <= x)
    ensures Tracks(sb, b, l, b[x := data], l + {x})
  {
    assert sb.BBlock(0) < sb.First();
  }

  /** One more block is stored and logged. */
  lemma TracksMore(sb: Superblock, b: seq<Block>, l: set<nat>, c: seq<Block>, alloc: set<nat>, k: set<nat>, x: nat,
                   data: Block)
    requires Tracks(sb, b, l, c, k) && Bits(sb, c, alloc) && sb.First() <= x < sb.size
    ensures Bits(sb, c[x := data], alloc) && Tracks(sb, b, l, c[x := data], k + {x})
  {
    hide Tracks;
    BitsKept(sb, c, alloc, x, data);
    TracksStore(sb, c, alloc, k, x, data);
    TracksTrans(sb, b, l, c, k, c[x := data], k + {x});
  }

  /** Blocks and inodes that make a valid file system. */
  ghost predicate Mountable(sb: Superblock, bs: seq<Block>, ips: seq<Inode>, own: map<nat, Owner>) {
    && sb.Wf() && |ips| == sb.ninodes && Bits(sb, bs, own.Keys)
    && var m := Image(bs, ips, sb.First(), sb.size);
       m.Wf() && m.Owned(own) && forall i: nat | i < |ips| :: m.NoHoles(i, ips[i].size)
  }

  class Fs {
    const sb: Superblock
    /** Latest contents of every block. */
    var bs: seq<Block>
    /** In-memory inodes, by inode number, and their on-disk copies. */
    var ips: seq<Inode>
    var dips: seq<Inode>
    /** Data blocks whose bit is set, and the slot that owns each linked block. */
    ghost var alloc: set<nat>
    ghost var own: map<nat, Owner>
    /** Blocks passed to log_write. */
    ghost var logged: set<nat>

    ghost function Img(): (m: Image)
      reads this`bs, this`ips
      requires sb.Wf()
    {
      Image(bs, ips, sb.First(), sb.size)
    }

    ghost predicate Consistent()
      reads this`bs, this`ips, this`dips, this`alloc, this`own
    {
      && sb.Wf()
      && |ips| == |dips| == sb.ninodes
      && Bits(sb, bs, alloc)
      && Img().Wf() && Img().Owned(own)
      && alloc == own.Keys
    }

    ghost predicate Valid()
      reads this`bs, this`ips, this`dips, this`alloc, this`own
    {
      && Consistent()
      && dips == ips
      && forall i: nat | i < |ips| :: Img().NoHoles(i, ips[i].size)
    }

    /** The contents of file i. */
    ghost function File(i: nat): (c: seq<Byte>)
      reads this`bs, this`ips, this`dips, this`alloc, this`own
      requires Valid() && i < |ips|
      ensures |c| == ips[i].size <= MAXBYTES
    {
      OwnedInRange(Img(), own);
      Img().Content(i)
    }

    /** An empty file system. */
    constructor (sb: Superblock)
      requires sb.Wf()
      ensures this.sb == sb && Valid() && |ips| == sb.ninodes && alloc == {} && forall i: nat | i < sb.ninodes ::
                File(i) == []
    {
      hide BlockBit;
      var blocks := MarkBelow(sb, sb.First());
      EmptyImage(sb, blocks);
      this.sb := sb;
      bs := blocks;
      ips := seq(sb.ninodes, _ => EMPTY);
      dips := seq(sb.ninodes, _ => EMPTY);
      alloc := {};
      own := map[];
      logged := {};
    }

    /** A file system whose blocks and inodes are read from a disk. */
    constructor Mount(sb: Superblock, bs: seq<Block>, ips: seq<Inode>, ghost own: map<nat, Owner>)
      requires Mountable(sb, bs, ips, own)
      ensures this.sb == sb && this.bs == bs && this.ips == dips == ips && this.own == own && Valid()
    {
      hide BlockBit, Bits;
      this.sb := sb;
      this.bs := bs;
      this.ips := ips;
      dips := ips;
      alloc := own.Keys;
      this.own := own;
      logged := {};
    }

    /** No data block is free. */
    ghost predicate Full()
      reads this`alloc
    {
      forall b: nat | sb.First() <= b < sb.size :: b in alloc
    }

    /** A block of the free map. */
    ghost predicate IsBBlock(x: nat) {
      0 < sb.size && sb.bmapstart <= x <= sb.BBlock(sb.size - 1)
    }

    /** Between two states, nothing but blocks of the free map was logged. */
    ghost predicate MarksOnly(before: set<nat>, after: set<nat>) {
      before <= after && forall x | x in after && x !in before :: IsBBlock(x)
    }

    lemma IsBBlockOf(b: nat)
      requires b < sb.size
      ensures IsBBlock(sb.BBlock(b))
    {
      assert b / BPB <= (sb.size - 1) / BPB;
    }

    /** begin_op of a lone writer: the log is empty. */
    method BeginOp()
      modifies this`logged
      ensures logged == {}
    {
      logged := {};
    }

    /** balloc: mark the first free block used, and zero it. None is the panic "out of blocks". */
    method Balloc() returns (r: Option<nat>)
      requires Consistent()
      modifies this`bs, this`alloc, this`logged
      ensures r.None? ==> bs == old(bs) && alloc == old(alloc) && logged == old(logged)
      ensures r.None? ==> Full() && |alloc| == sb.nblocks
      ensures r.Some? ==> |alloc| == |old(alloc)| + 1
      ensures r.Some? ==> sb.First() <= r.value < sb.size && r.value !in old(alloc)
      ensures r.Some? ==> alloc == old(alloc) + {r.value} && Bits(sb, bs, alloc)
      ensures r.Some? ==> Allocates(old(Img()), Img(), own, r.value)
      ensures r.Some? ==> logged == old(logged) + {sb.BBlock(r.value), r.value} && IsBBlock(sb.BBlock(r.value))
      ensures r.Some? ==> Tracks(sb, old(bs), old(logged), bs, logged)
    {
      hide BlockBit, Image.Owned, Image.Wf, Allocates, Tracks;
      r := FindFree(sb, bs);
      if r.Some? {
        IsBBlockOf(r.value);
        assert BitAt(sb, bs, r.value) <==> r.value < sb.First() || r.value in alloc;
        Mark(r.value);
      } else {
        assert Full();
        BlockCount(alloc, sb.First(), sb.size);
      }
    }

    /** The successful end of balloc. */
    method Mark(b: nat)
      requires Consistent() && sb.First() <= b < sb.size && b !in alloc
      modifies this`bs, this`alloc, this`logged
      ensures alloc == old(alloc) + {b} && Bits(sb, bs, alloc)
      ensures Allocates(old(Img()), Img(), own, b)
      ensures logged == old(logged) + {sb.BBlock(b), b} && Tracks(sb, old(bs), old(logged), bs, logged)
    {
      Marked(b);
      hide BlockBit, PutBlockBit, Tracks, Bits, Allocates, Image.Owned, Image.Wf;
      bs := bs[sb.BBlock(b) := PutBlockBit(bs[sb.BBlock(b)], b % BPB, true)];
      logged := logged + {sb.BBlock(b)};
      alloc := alloc + {b};
      bs := bs[b := ZeroBlock()];
      logged := logged + {b};
      assert logged == old(logged) + {sb.BBlock(b), b};
    }

    /** The free map, the owners and the log after these steps. */
    lemma Marked(b: nat)
      requires Consistent() && sb.First() <= b < sb.size && b !in alloc
      ensures 0 <= sb.BBlock(b) < |bs| == sb.size
      ensures var cs := bs[sb.BBlock(b) := PutBlockBit(bs[sb.BBlock(b)], b % BPB, true)][b := ZeroBlock()];
              && Bits(sb, cs, alloc + {b}) && Allocates(Img(), Img().(bs := cs), own, b)
              && Tracks(sb, bs, logged, cs, logged + {sb.BBlock(b), b})
    {
      assert sb.BBlock(b) < sb.First();
      BitChange(sb, bs, alloc, b, true);
      OwnedInData(Img(), own);
      hide BlockBit, PutBlockBit, Tracks, Image.Owned, BitAt;
      var data := PutBlockBit(bs[sb.BBlock(b)], b % BPB, true);
      var cs := bs[sb.BBlock(b) := data];
      TracksStore(sb, bs, alloc, logged, sb.BBlock(b), data);
      BitsKept(sb, cs, alloc + {b}, b, ZeroBlock());
      TracksStore(sb, cs, alloc + {b}, logged + {sb.BBlock(b)}, b, ZeroBlock());
      TracksTrans(sb, bs, logged, cs, logged + {sb.BBlock(b)}, cs[b := ZeroBlock()], logged + {sb.BBlock(b)} + {b});
      assert logged + {sb.BBlock(b)} + {b} == logged + {sb.BBlock(b), b};
    }

    /** New entries of `logged` are bitmap blocks, or the given blocks. */
    ghost predicate LogsOnly(before: set<nat>, b: nat, c: nat)
      reads this
    {
      before <= logged && forall x | x in logged && x !in before :: x == b || x == c != 0 || IsBBlock(x)
    }

    ghost predicate Unchanged(b: seq<Block>, p: seq<Inode>, a: set<nat>, o: map<nat, Owner>, l: set<nat>)
      reads this
    {
      bs == b && ips == p && alloc == a && own == o && logged == l
    }

    /** bmap on a direct block. */
    method BmapDirect(i: nat, bn: nat) returns (r: Option<nat>)
      requires Consistent() && i < |ips| && bn < NDIRECT
      modifies this`bs, this`ips, this`alloc, this`own, this`logged
      ensures r.None? ==> Full()
      ensures r.Some? ==> Consistent() && Maps(old(Img()), old(own), Img(), own, i, bn)
      ensures r.Some? ==> r.value == Img().Slot(i, FileSlot(bn)) && LogsOnly(old(logged), r.value, r.value)
      ensures old(Img()).Slot(i, FileSlot(bn)) != 0 ==>
                r.Some? && Unchanged(old(bs), old(ips), old(alloc), old(own), old(logged))
      ensures r.Some? ==> Tracks(sb, old(bs), old(logged), bs, logged)
      ensures r.Some? ==> |alloc| == |old(alloc)| + if old(Img()).Slot(i, FileSlot(bn)) == 0 then 1 else 0
      ensures r.None? ==> |old(alloc)| == sb.nblocks
    {
      hide GetWord, BlockBit, Allocates, Maps, Image.Owned, Bits, Fs.IsBBlock, Superblock.BBlock, Tracks;
      ghost var m, mwn := Img(), own;
      var addr := ips[i].addrs[bn];
      if addr == 0 {
        r := Balloc();
        if r.None? {
          return;
        }
        AllocatesKeeps(m, Img(), own, r.value);
        MapDirect(m, Img(), own, i, bn, r.value);
        ips := ips[i := ips[i].(addrs := ips[i].addrs[bn := r.value])];
        own := own[r.value := Owner(i, bn)];
        return;
      }
      MapsAlready(m, own, i, bn);
      TracksSelf(sb, bs, alloc, logged);
      return Some(addr);
    }

    /** bmap's first half on an indirect block: make sure there is one. */
    method BmapPointer(i: nat) returns (r: Option<nat>)
      requires Consistent() && i < |ips|
      modifies this`bs, this`ips, this`alloc, this`own, this`logged
      ensures r.None? ==> Full()
      ensures r.Some? ==> Consistent() && Points(old(Img()), old(own), Img(), own, i)
      ensures r.Some? ==> r.value == ips[i].addrs[NDIRECT] && LogsOnly(old(logged), r.value, r.value)
      ensures old(ips[i].addrs[NDIRECT]) != 0 ==>
                r.Some? && Unchanged(old(bs), old(ips), old(alloc), old(own), old(logged))
      ensures r.Some? ==> Tracks(sb, old(bs), old(logged), bs, logged)
      ensures r.Some? ==> |alloc| == |old(alloc)| + if old(ips[i].addrs[NDIRECT]) == 0 then 1 else 0
      ensures r.None? ==> |old(alloc)| == sb.nblocks
    {
      hide GetWord, BlockBit, Allocates, Points, Image.Owned, Bits, Fs.IsBBlock, Superblock.BBlock, Tracks;
      ghost var m := Img();
      var addr := ips[i].addrs[NDIRECT];
      if addr == 0 {
        r := Balloc();
        if r.None? {
          return;
        }
        AllocatesKeeps(m, Img(), own, r.value);
        MapIndirect(m, Img(), own, i, r.value);
        ips := ips[i := ips[i].(addrs := ips[i].addrs[NDIRECT := r.value])];
        own := own[r.value := Owner(i, NDIRECT)];
        return;
      }
      PointsAlready(m, own, i);
      TracksSelf(sb, bs, alloc, logged);
      return Some(addr);
    }

    /** bmap's second half: the entry in the indirect block. */
    method BmapEntry(i: nat, bn: nat) returns (r: Option<nat>)
      requires Consistent() && i < |ips| && NDIRECT <= bn < MAXFILE && ips[i].addrs[NDIRECT] != 0
      modifies this`bs, this`alloc, this`own, this`logged
      ensures r.None? ==> Full()
      ensures r.Some? ==> Consistent() && Maps(old(Img()), old(own), Img(), own, i, bn)
      ensures r.Some? ==>
                r.value == Img().Slot(i, FileSlot(bn)) && LogsOnly(old(logged), r.value, ips[i].addrs[NDIRECT])
      ensures old(Img()).Slot(i, FileSlot(bn)) != 0 ==>
                r.Some? && Unchanged(old(bs), old(ips), old(alloc), old(own), old(logged))
      ensures r.Some? ==> Tracks(sb, old(bs), old(logged), bs, logged)
      ensures r.Some? ==> |alloc| == |old(alloc)| + if old(Img()).Slot(i, FileSlot(bn)) == 0 then 1 else 0
      ensures r.None? ==> |old(alloc)| == sb.nblocks
    {
      hide GetWord, PutWord, BlockBit, Allocates, Maps, Image.Owned, Bits, Fs.IsBBlock, Superblock.BBlock, Tracks;
      ghost var m := Img();
      var ind := ips[i].addrs[NDIRECT];
      var addr := GetWord(bs[ind], bn - NDIRECT);
      assert m.Slot(i, FileSlot(bn)) == addr;
      if addr == 0 {
        r := Balloc();
        if r.None? {
          return;
        }
        AllocatesKeeps(m, Img(), own, r.value);
        MapEntry(m, Img(), own, i, bn, r.value);
        TracksMore(sb, old(bs), old(logged), bs, alloc, logged, ind, PutWord(bs[ind], bn - NDIRECT, r.value));
        bs := bs[ind := PutWord(bs[ind], bn - NDIRECT, r.value)];
        logged := logged + {ind};
        own := own[r.value := Owner(i, bn + 1)];
        return;
      }
      MapsAlready(m, own, i, bn);
      TracksSelf(sb, bs, alloc, logged);
      return Some(addr);
    }

    /** bmap: the disk block of file block bn, allocated if there is none. */
    method Bmap(i: nat, bn: nat) returns (r: Option<nat>)
      requires Consistent() && i < |ips| && bn < MAXFILE
      modifies this`bs, this`ips, this`alloc, this`own, this`logged
      ensures r.None? ==> Full()
      ensures r.Some? ==> Consistent() && Maps(old(Img()), old(own), Img(), own, i, bn)
      ensures r.Some? ==>
                r.value == Img().Slot(i, FileSlot(bn)) && LogsOnly(old(logged), r.value, ips[i].addrs[NDIRECT])
      ensures old(Img()).Slot(i, FileSlot(bn)) != 0 ==>
                r.Some? && Unchanged(old(bs), old(ips), old(alloc), old(own), old(logged))
      ensures r.Some? ==> Tracks(sb, old(bs), old(logged), bs, logged)
      ensures r.Some? ==> |alloc| == |old(alloc)| + New(old(Img()), i, bn)
      ensures r.None? ==> |old(alloc)| + New(old(Img()), i, bn) > sb.nblocks
    {
      hide GetWord, Points, Maps, Image.Owned, Bits, Fs.IsBBlock, Superblock.BBlock, Tracks;
      if bn < NDIRECT {
        r := BmapDirect(i, bn);
        return;
      }
      ghost var m, mwn := Img(), own;
      r := BmapPointer(i);
      if r.None? {
        return;
      }
      ghost var p, pwn, logs := Img(), own, logged;
      PointsFacts(m, mwn, p, pwn, i, bn);
      r := BmapEntry(i, bn);
      if r.Some? {
        TracksTrans(sb, m.bs, old(logged), p.bs, logs, bs, logged);
        MapBoth(m, mwn, p, pwn, Img(), own, i, bn);
        MapsFacts(p, pwn, Img(), own, i, bn);
      }
    }

    /** One pass of writei's loop: map the block, store the chunk, log it. */
    method WriteBlock(i: nat, ghost limit: nat, off: nat, chunk: seq<Byte>) returns (r: Option<nat>)
      requires Consistent() && i < |ips| && limit <= MAXBYTES && off <= limit
      requires 0 < |chunk| && off % BSIZE + |chunk| <= BSIZE && off + |chunk| <= MAXBYTES
      requires Img().NoHoles(i, limit)
      modifies this`bs, this`ips, this`alloc, this`own, this`logged
      ensures r.None? ==> Full()
      ensures r.Some? ==> Consistent() && |ips| == |old(ips)|
      ensures r.Some? ==> forall j: nat | j < |ips| :: old(Img()).SlotsInRange(j) && Img().SlotsInRange(j)
      ensures r.Some? ==> Advances(old(Img()), Img(), i, limit, off, chunk)
      ensures r.Some? ==> forall j: nat | j < |ips| && j != i :: SameFile(old(Img()), Img(), j)
      ensures r.Some? ==> LogsOnly(old(logged), r.value, ips[i].addrs[NDIRECT])
      ensures r.Some? ==> Tracks(sb, old(bs), old(logged), bs, logged)
      ensures r.Some? ==> |alloc| == |old(alloc)| + FileBlocks(Max(limit, off + |chunk|)) - FileBlocks(limit)
      ensures r.None? ==> |old(alloc)| + FileBlocks(Max(limit, off + |chunk|)) - FileBlocks(limit) > sb.nblocks
    {
      hide GetWord, Maps, Image.Owned, Bits, Image.NoHoles, Advances, SameFile, Tracks, FileBlocks, New;
      ghost var m, mwn := Img(), own;
      NewBlocks(m, i, limit, off, |chunk|);
      r := Bmap(i, off / BSIZE);
      if r.None? {
        return;
      }
      ghost var v := Img();
      WriteStep(m, mwn, v, own, i, limit, off, chunk);
      MapsFacts(m, mwn, v, own, i, off / BSIZE);
      forall j: nat | j < |m.ips| && j != i
        ensures StoreIn(v, i, off / BSIZE, off % BSIZE, chunk).Wf() && |v.ips| == |m.ips|
        ensures m.SlotsInRange(j) && StoreIn(v, i, off / BSIZE, off % BSIZE, chunk).SlotsInRange(j)
        ensures SameFile(m, StoreIn(v, i, off / BSIZE, off % BSIZE, chunk), j)
      {
        WriteStepOthers(m, mwn, v, own, i, off / BSIZE, off % BSIZE, chunk, j);
      }
      SlotInData(v, own, i, FileSlot(off / BSIZE));
      BitsKept(sb, bs, alloc, r.value, Store(bs[r.value], off % BSIZE, chunk));
      TracksStore(sb, bs, alloc, logged, r.value, Store(bs[r.value], off % BSIZE, chunk));
      ghost var vs, logs := bs, logged;
      bs := bs[r.value := Store(bs[r.value], off % BSIZE, chunk)];
      logged := logged + {r.value};
      TracksTrans(sb, m.bs, old(logged), vs, logs, bs, logged);
      assert Img() == StoreIn(v, i, off / BSIZE, off % BSIZE, chunk);
    }

    /** One pass of readi's loop. The block is mapped, so bmap allocates nothing. */
    method ReadBlock(i: nat, at: nat, k: nat) returns (part: seq<Byte>)
      requires Valid() && i < |ips| && 0 < k && at % BSIZE + k <= BSIZE && at + k <= ips[i].size
      modifies this`bs, this`ips, this`alloc, this`own, this`logged
      ensures Unchanged(old(bs), old(ips), old(alloc), old(own), old(logged))
      ensures part == old(File(i))[at..at + k]
    {
      hide GetWord, Bits, Image.Owned, Maps, Image.Slot, Image.ByteAt;
      OwnedInRange(Img(), own);
      MappedBelow(Img(), i, at);
      ReadStep(Img(), i, at, k);
      var b := Bmap(i, at / BSIZE);
      part := bs[b.value][at % BSIZE..at % BSIZE + k];
    }

    /** readi: the requested slice clipped at the size, or -1. No block is allocated. */
    method Readi(i: nat, off: Word, n: Word) returns (r: Option<seq<Byte>>)
      requires Valid() && i < |ips|
      modifies this`bs, this`ips, this`alloc, this`own, this`logged
      ensures Unchanged(old(bs), old(ips), old(alloc), old(own), old(logged))
      ensures r.None? <==> off > ips[i].size || off + n >= TWO32
      ensures r.Some? ==> r.value == old(File(i))[off..Min(off + n, ips[i].size)]
    {
      hide Fs.File, Fs.Consistent, Image.NoHoles;
      ghost var c := File(i);
      var size := ips[i].size;
      if off > size || (off + n) % TWO32 < off {
        return None;
      }
      var count := if off + n > size then size - off else n;
      var dst, tot, at := [], 0, off;
      while tot < count
        invariant 0 <= tot <= count && at == off + tot && off + count <= size
        invariant Unchanged(old(bs), old(ips), old(alloc), old(own), old(logged))
        invariant dst == c[off..at]
      {
        var k := Min(count - tot, BSIZE - at % BSIZE);
        var part := ReadBlock(i, at, k);
        dst := dst + part;
        tot, at := tot + k, at + k;
      }
      return Some(dst);
    }

    /** Everything logged since `before` is in t, or is the inode's indirect block, or is a
        block of the free map. */
    ghost predicate LogsWithin(before: set<nat>, t: set<nat>, i: nat)
      reads this
    {
      i < |ips| && |ips[i].addrs| == NADDRS && before <= logged &&
      forall x | x in logged && x !in before :: x in t || x == ips[i].addrs[NDIRECT] != 0 || IsBBlock(x)
    }

    /** The written file and all others, against the state m from before. */
    ghost predicate Written(m: Image, i: nat, off: nat, src: seq<Byte>)
      reads this`bs, this`ips, this`dips, this`alloc, this`own
      requires m.Wf() && i < |m.ips|
    {
      && Consistent() && |ips| == |m.ips|
      && (forall j: nat | j < |ips| :: m.SlotsInRange(j) && Img().SlotsInRange(j))
      && off <= m.ips[i].size <= MAXBYTES && off + |src| <= MAXBYTES
      && Advances(m, Img(), i, m.ips[i].size, off, src)
      && (forall j: nat | j < |ips| && j != i :: SameFile(m, Img(), j))
    }

    /** Every block and on-disk inode that changed was logged; only inode i may have changed, and logged
        blocks are its inode block, blocks of the free map, and data blocks. */
    ghost predicate Recorded(b: seq<Block>, d: seq<Inode>, before: set<nat>, i: nat)
      reads this
    {
      && |bs| == |b| == sb.size && i < |dips| == |d| && before <= logged
      && (forall x: nat | x < sb.size && x !in logged :: bs[x] == b[x])
      && (forall j: nat | j < |d| && j != i :: dips[j] == d[j])
      && (dips[i] != d[i] ==> sb.IBlock(i) in logged)
      && (forall x | x in logged && x !in before :: x == sb.IBlock(i) || sb.bmapstart <= x < sb.size)
    }

    /** Blocks in use once file i has been written up to `end`, if `used` were before. */
    ghost function Taken(m: Image, i: nat, used: nat, end: nat): (n: int)
      requires i < |m.ips|
    {
      used + FileBlocks(Max(m.ips[i].size, end)) - FileBlocks(m.ips[i].size)
    }

    /** One more pass after src has been written. */
    method WriteMore(i: nat, ghost m: Image, ghost off: nat, ghost src: seq<Byte>, at: nat, chunk: seq<Byte>,
                     ghost before: set<nat>, ghost touched: set<nat>, ghost used: nat)
      returns (r: Option<nat>)
      requires m.Wf() && i < |m.ips| && Written(m, i, off, src) && LogsWithin(before, touched, i)
      requires at == off + |src| && 0 < |chunk| && at % BSIZE + |chunk| <= BSIZE && at + |chunk| <= MAXBYTES
      requires Tracks(sb, m.bs, before, bs, logged) && |alloc| == Taken(m, i, used, at)
      modifies this`bs, this`ips, this`alloc, this`own, this`logged
      ensures r.None? ==> Full() && Taken(m, i, used, at + |chunk|) > sb.nblocks
      ensures r.Some? ==> |alloc| == Taken(m, i, used, at + |chunk|)
      ensures r.Some? ==> Tracks(sb, m.bs, before, bs, logged)
      ensures r.Some? ==> Written(m, i, off, src + chunk) && LogsWithin(before, touched + {r.value}, i)
    {
      hide Image.Owned, Bits, Image.NoHoles, Image.ByteAt, Image.Slot, SameFile, Fs.IsBBlock, Tracks, FileBlocks;
      ghost var v, logs := Img(), logged;
      r := WriteBlock(i, Max(m.ips[i].size, at), at, chunk);
      if r.Some? {
        AdvancesAdd(m, v, Img(), i, m.ips[i].size, off, src, chunk);
        TracksTrans(sb, m.bs, before, v.bs, logs, bs, logged);
        forall j: nat | j < |ips| && j != i ensures SameFile(m, Img(), j) {
          SameFileTrans(m, v, Img(), j);
        }
      }
    }

    /** The loop of writei. */
    method WriteLoop(i: nat, off: nat, src: seq<Byte>) returns (ok: bool, ghost touched: set<nat>)
      requires Valid() && i < |ips| && off <= ips[i].size && off + |src| <= MAXBYTES
      modifies this`bs, this`ips, this`alloc, this`own, this`logged
      ensures !ok ==> Full() && Taken(old(Img()), i, |old(alloc)|, off + |src|) > sb.nblocks
      ensures ok ==> |alloc| == Taken(old(Img()), i, |old(alloc)|, off + |src|)
      ensures ok ==> Written(old(Img()), i, off, src) && Tracks(sb, old(bs), old(logged), bs, logged)
      ensures ok ==> LogsWithin(old(logged), touched, i) && |touched| <= Span(off, |src|)
    {
      hide Fs.Valid, Fs.Written, Fs.LogsWithin, Span, Image.Wf, Superblock.Wf, Tracks, FileBlocks;
      StartWritten(i, off);
      ghost var m := Img();
      touched := {};
      var tot, at := 0, off;
      while tot < |src|
        invariant 0 <= tot <= |src| && at == off + tot
        invariant Written(m, i, off, src[..tot]) && Tracks(sb, m.bs, old(logged), bs, logged)
        invariant LogsWithin(old(logged), touched, i) && |touched| <= Span(off, tot)
        invariant tot == 0 || tot == |src| || at % BSIZE == 0
        invariant |alloc| == Taken(m, i, |old(alloc)|, at)
      {
        var k := Min(|src| - tot, BSIZE - at % BSIZE);
        assert src[..tot + k] == src[..tot] + src[tot..tot + k];
        SpanGrows(off, tot, k);
        var r := WriteMore(i, m, off, src[..tot], at, src[tot..tot + k], old(logged), touched, |old(alloc)|);
        if r.None? {
          FileBlocksGrow(Max(m.ips[i].size, at + k), Max(m.ips[i].size, off + |src|));
          ok := false;
          return;
        }
        touched := touched + {r.value};
        tot, at := tot + k, at + k;
      }
      assert src[..tot] == src;
      ok := true;
    }

    /** Nothing written yet. */
    lemma StartWritten(i: nat, off: nat)
      requires Valid() && i < |ips| && off <= ips[i].size
      ensures sb.Wf() && Img().Wf() && Written(Img(), i, off, []) && LogsWithin(logged, {}, i) && Span(off, 0) == 0
      ensures Tracks(sb, bs, logged, bs, logged)
    {
      OwnedInRange(Img(), own);
    }

    /** iupdate: copy the in-memory inode to disk. */
    method Iupdate(i: nat)
      requires i < |ips| == |dips|
      modifies this`dips, this`logged
      ensures dips == old(dips)[i := ips[i]] && logged == old(logged) + {sb.IBlock(i)}
    {
      dips := dips[i := ips[i]];
      logged := logged + {sb.IBlock(i)};
    }

    /** The end of writei: set the size if it grew. */
    method EndWrite(i: nat, ghost m: Image, off: nat, n: nat, ghost src: seq<Byte>)
      requires m.Wf() && i < |m.ips| && Written(m, i, off, src) && n == |src| && dips == m.ips
      requires forall j: nat | j < |m.ips| :: m.NoHoles(j, m.ips[j].size)
      modifies this`ips, this`dips, this`logged
      ensures Valid() && |ips| == |m.ips|
      ensures forall j: nat | j < |m.ips| :: m.SlotsInRange(j)
      ensures m.ips[i].size <= MAXBYTES && File(i) == Splice(m.Content(i), off, src)
      ensures forall j: nat | j < |ips| && j != i ::
                m.ips[j].size <= MAXBYTES && ips[j] == m.ips[j] && File(j) == m.Content(j)
      ensures logged == old(logged) || logged == old(logged) + {sb.IBlock(i)}
      ensures dips != old(dips) ==> sb.IBlock(i) in logged
      ensures ips[i].addrs == old(ips)[i].addrs
    {
      hide GetWord, Bits, Image.Owned, Image.Slot, Image.ByteAt, SameFile;
      ghost var w, size := Img(), Max(m.ips[i].size, off + n);
      FinishWritten(m, w, own, i, off, src);
      forall j: nat | j < |m.ips| && j != i
        ensures Finished(w, i, size).Wf() && Finished(w, i, size).SlotsInRange(j)
        ensures Finished(w, i, size).ips[j] == m.ips[j] && Finished(w, i, size).NoHoles(j, m.ips[j].size)
        ensures Finished(w, i, size).Content(j) == m.Content(j)
      {
        FinishOther(m, w, own, i, size, j);
      }
      if n > 0 && off + n > ips[i].size {
        ips := ips[i := ips[i].(size := off + n)];
        Iupdate(i);
      }
      assert Img() == Finished(w, i, size);
    }

    /** writei: replace exactly [off, off + n) and grow the file to the maximum; -1 if the range
        is out of bounds. In-memory and on-disk inodes agree again at the end. */
    method Writei(i: nat, off: Word, src: seq<Byte>) returns (r: WriteResult, ghost touched: set<nat>)
      requires Valid() && i < |ips| && |src| < TWO32
      modifies this
      ensures r.Refused? <==> off > old(ips)[i].size || off + |src| >= TWO32 || off + |src| > MAXBYTES
      ensures r.Refused? ==> Unchanged(old(bs), old(ips), old(alloc), old(own), old(logged)) && dips == old(dips)
      ensures r.OutOfBlocks? ==> Full()
      ensures r.OutOfBlocks? <==> !r.Refused? && Taken(old(Img()), i, |old(alloc)|, off + |src|) > sb.nblocks
      ensures r.Wrote? ==> |alloc| == Taken(old(Img()), i, |old(alloc)|, off + |src|)
      ensures r.Wrote? ==> r.n == |src| && Valid() && |ips| == |old(ips)|
      ensures r.Wrote? ==> File(i) == Splice(old(File(i)), off, src)
      ensures r.Wrote? ==> forall j: nat | j < |ips| && j != i :: ips[j] == old(ips)[j] && File(j) == old(File(j))
      ensures r.Wrote? ==> LogsWithin(old(logged), touched + {sb.IBlock(i)}, i) && |touched| <= Span(off, |src|)
      ensures r.Wrote? ==> Recorded(old(bs), old(dips), old(logged), i)
    {
      hide GetWord, Bits, Image.Owned, Image.Slot, Image.NoHoles, Advances, SameFile, Fs.IsBBlock, Span, FileBlocks;
      touched := {};
      if off > ips[i].size || (off + |src|) % TWO32 < off {
        return Refused, {};
      }
      if off + |src| > MAXBYTES {
        return Refused, {};
      }
      ghost var m := Img();
      var ok;
      ok, touched := WriteLoop(i, off, src);
      if !ok {
        return OutOfBlocks, {};
      }
      EndWrite(i, m, off, |src|, src);
      AllocBound();
      r := Wrote(|src|);
    }

    lemma AllocBound()
      requires Consistent()
      ensures |alloc| <= sb.nblocks
    {
      assert forall b | b in alloc :: sb.First() <= b < sb.size;
      hide Bits, Image.Owned;
      BlockCount(alloc, sb.First(), sb.size);
    }

    /** bfree: clear the block's bit; false is the panic "freeing free block". */
    method Bfree(b: nat) returns (ok: bool)
      requires Bits(sb, bs, alloc) && sb.First() <= b < sb.size
      modifies this`bs, this`alloc, this`logged
      ensures ok <==> b in old(alloc)
      ensures alloc == old(alloc) - {b} && Bits(sb, bs, alloc)
      ensures SameData(old(bs)) && (!ok ==> bs == old(bs))
      ensures logged == if ok then old(logged) + {sb.BBlock(b)} else old(logged)
      ensures Tracks(sb, old(bs), old(logged), bs, logged)
      ensures MarksOnly(old(logged), logged)
    {
      hide Tracks;
      assert BitAt(sb, bs, b) <==> b in alloc;
      assert sb.BBlock(b) < sb.First();
      if !BlockBit(bs[sb.BBlock(b)], b % BPB) {
        TracksSelf(sb, bs, alloc, logged);
        return false;
      }
      BitChange(sb, bs, alloc, b, false);
      TracksStore(sb, bs, alloc, logged, sb.BBlock(b), PutBlockBit(bs[sb.BBlock(b)], b % BPB, false));
      bs := bs[sb.BBlock(b) := PutBlockBit(bs[sb.BBlock(b)], b % BPB, false)];
      alloc := alloc - {b};
      IsBBlockOf(b);
      logged := logged + {sb.BBlock(b)};
      return true;
    }

    /** The data area holds the same bytes as in b. */
    ghost predicate SameData(b: seq<Block>)
      reads this`bs
    {
      |bs| == |b| == sb.size && forall c: nat | sb.First() <= c < sb.size :: bs[c] == b[c]
    }

    /** Only slots of inode i below t have been emptied since m. */
    ghost predicate Emptied(m: Image, mwn: map<nat, Owner>, i: nat, t: nat)
      reads this
      requires m.Owned(mwn) && i < |m.ips| && t <= NDIRECT
    {
      && Consistent() && |ips| == |m.ips| && SameData(m.bs)
      && (forall j: nat | j < |ips| && j != i :: ips[j] == m.ips[j])
      && ips[i].size == m.ips[i].size
      && (forall s: nat | s < NADDRS :: ips[i].addrs[s] == if s < t then 0 else m.ips[i].addrs[s])
      && (forall b :: b in own <==> b in mwn && !(mwn[b].inum == i && mwn[b].slot < t))
      && (forall b | b in own :: own[b] == mwn[b])
    }

    /** One pass of itrunc's first loop. */
    method FreeDirect(i: nat, t: nat, ghost m: Image, ghost mwn: map<nat, Owner>) returns (ok: bool)
      requires m.Owned(mwn) && i < |m.ips| && t < NDIRECT && Emptied(m, mwn, i, t)
      modifies this`bs, this`ips, this`alloc, this`own, this`logged
      ensures ok && Emptied(m, mwn, i, t + 1)
      ensures Tracks(sb, old(bs), old(logged), bs, logged)
      ensures MarksOnly(old(logged), logged)
    {
      hide GetWord, Bits, Image.Owned, Image.Slot, Tracks;
      OwnedInRange(m, mwn);
      var b := ips[i].addrs[t];
      if b == 0 {
        DirectEmpty(Img(), own, i, t);
        TracksSelf(sb, bs, alloc, logged);
        return true;
      }
      UnlinkDirect(Img(), own, i, t);
      OwnedInData(Img(), own);
      ghost var v := Img();
      ok := Bfree(b);
      SameDataOwned(v, own, bs);
      UnlinkDirect(Img(), own, i, t);
      ips := ips[i := ips[i].(addrs := ips[i].addrs[t := 0])];
      own := own - {b};
    }

    /** Entries below e of inode i's indirect block are free, still named by the block; all
        else is as in v. */
    ghost predicate Drained(v: Image, vwn: map<nat, Owner>, i: nat, e: nat)
      reads this
    {
      && sb.Wf() && |ips| == |dips| == sb.ninodes && Bits(sb, bs, alloc)
      && ips == v.ips && SameData(v.bs) && own == vwn
      && Img().Wf() && Img().Owned(own)
      && (forall b :: b in alloc <==> b in own && !EntryBelow(own[b], i, e))
    }

    /** One pass of itrunc's second loop. */
    method FreeEntry(i: nat, e: nat, ghost v: Image, ghost vwn: map<nat, Owner>) returns (ok: bool)
      requires i < |ips| && e < NINDIRECT && Drained(v, vwn, i, e) && ips[i].addrs[NDIRECT] != 0
      modifies this`bs, this`alloc, this`logged
      ensures ok && Drained(v, vwn, i, e + 1)
      ensures Tracks(sb, old(bs), old(logged), bs, logged)
      ensures MarksOnly(old(logged), logged)
    {
      hide GetWord, Bits, Image.Owned, Image.Slot, Tracks;
      ghost var w := Img();
      var b := GetWord(bs[ips[i].addrs[NDIRECT]], e);
      if b == 0 {
        forall c | c in own ensures own[c] != Owner(i, NADDRS + e) {
          EmptyEntry(w, own, i, e, c);
        }
        assert forall c | c in own :: EntryBelow(own[c], i, e) == EntryBelow(own[c], i, e + 1);
        TracksSelf(sb, bs, alloc, logged);
        return true;
      }
      EntryOwner(w, own, i, e);
      ok := Bfree(b);
      SameDataOwned(w, own, bs);
      forall c ensures c in alloc <==> c in own && !EntryBelow(own[c], i, e + 1) {
        if c in own && own[c] == Owner(i, NADDRS + e) {
          EntryIsBlock(w, own, i, e, c);
        }
      }
    }

    /** itrunc's second loop. */
    method FreeEntries(i: nat)
      requires Consistent() && i < |ips| && ips[i].addrs[NDIRECT] != 0
      modifies this`bs, this`alloc, this`logged
      ensures Drained(old(Img()), old(own), i, NINDIRECT)
      ensures Tracks(sb, old(bs), old(logged), bs, logged)
      ensures MarksOnly(old(logged), logged)
    {
      assert SameData(bs);
      ghost var v, vwn := Img(), own;
      hide GetWord, Bits, Image.Owned, Tracks;
      TracksSelf(sb, bs, alloc, logged);
      var e := 0;
      while e < NINDIRECT
        invariant 0 <= e <= NINDIRECT && Drained(v, vwn, i, e) && Tracks(sb, v.bs, old(logged), bs, logged)
        invariant MarksOnly(old(logged), logged)
      {
        ghost var was, logs := bs, logged;
        var ok := FreeEntry(i, e, v, vwn);
        TracksTrans(sb, v.bs, old(logged), was, logs, bs, logged);
        e := e + 1;
      }
    }

    /** After the second loop: free the indirect block itself. */
    method FreePointer(i: nat, ghost v: Image, ghost vwn: map<nat, Owner>) returns (ok: bool)
      requires i < |ips| && Drained(v, vwn, i, NINDIRECT) && ips[i].addrs[NDIRECT] != 0
      modifies this`bs, this`ips, this`alloc, this`own, this`logged
      ensures ok && Consistent() && SameData(v.bs)
      ensures ips == v.ips[i := v.ips[i].(addrs := v.ips[i].addrs[NDIRECT := 0])]
      ensures own == WithoutIndirect(vwn, i)
      ensures Tracks(sb, old(bs), old(logged), bs, logged)
      ensures MarksOnly(old(logged), logged)
    {
      hide GetWord, Bits, Image.Owned, Image.Slot, Tracks;
      ghost var w := Img();
      var ind := ips[i].addrs[NDIRECT];
      IndirectOwner(w, own, i);
      OwnedInData(w, own);
      DrainedKeys(w, own, i);
      ok := Bfree(ind);
      SameDataOwned(w, own, bs);
      UnlinkIndirect(Img(), own, i);
      own := WithoutIndirect(own, i);
      ips := ips[i := ips[i].(addrs := ips[i].addrs[NDIRECT := 0])];
    }

    /** itrunc's second half: the entries, then the indirect block itself. */
    method FreeIndirect(i: nat) returns (ok: bool)
      requires Consistent() && i < |ips| && ips[i].addrs[NDIRECT] != 0
      modifies this`bs, this`ips, this`alloc, this`own, this`logged
      ensures ok && Consistent() && SameData(old(bs))
      ensures ips == old(ips)[i := old(ips)[i].(addrs := old(ips)[i].addrs[NDIRECT := 0])]
      ensures own == WithoutIndirect(old(own), i)
      ensures Tracks(sb, old(bs), old(logged), bs, logged)
      ensures MarksOnly(old(logged), logged)
    {
      ghost var v, vwn := Img(), own;
      hide Bits, Image.Owned, Tracks;
      FreeEntries(i);
      ghost var was, logs := bs, logged;
      ok := FreePointer(i, v, vwn);
      TracksTrans(sb, v.bs, old(logged), was, logs, bs, logged);
    }

    /** Exactly the blocks of inode i have lost their owner since m; no other inode and no file
        data has changed. */
    ghost predicate Dropped(m: Image, mwn: map<nat, Owner>, i: nat)
      reads this
      requires i < |m.ips|
    {
      && |ips| == |m.ips| && SameData(m.bs)
      && (forall j: nat | j < |ips| && j != i :: ips[j] == m.ips[j])
      && (forall b :: b in own <==> b in mwn && mwn[b].inum != i)
      && (forall b | b in own :: own[b] == mwn[b])
    }

    /** Both loops of itrunc: every slot of inode i is empty. The panic "freeing free block" is
        not reached. */
    method FreeAll(i: nat) returns (ok: bool)
      requires Consistent() && i < |ips|
      modifies this`bs, this`ips, this`alloc, this`own, this`logged
      ensures ok && Consistent() && |ips| == |old(ips)| && Dropped(old(Img()), old(own), i)
      ensures forall t: nat | t < NADDRS :: ips[i].addrs[t] == 0
      ensures Tracks(sb, old(bs), old(logged), bs, logged)
      ensures MarksOnly(old(logged), logged)
    {
      assert SameData(bs);
      hide GetWord, Bits, Image.Owned, Image.Slot, Tracks;
      TracksSelf(sb, bs, alloc, logged);
      ghost var m, mwn := Img(), own;
      OwnedInRange(m, mwn);
      ok := true;
      var t := 0;
      while t < NDIRECT
        invariant 0 <= t <= NDIRECT && ok && Emptied(m, mwn, i, t) && Tracks(sb, m.bs, old(logged), bs, logged)
        invariant MarksOnly(old(logged), logged)
      {
        ghost var was, logs := bs, logged;
        ok := FreeDirect(i, t, m, mwn);
        TracksTrans(sb, m.bs, old(logged), was, logs, bs, logged);
        t := t + 1;
      }
      ghost var was, logs := bs, logged;
      ok := FreeRest(i, m, mwn);
      TracksTrans(sb, m.bs, old(logged), was, logs, bs, logged);
    }

    /** itrunc after its first loop. */
    method FreeRest(i: nat, ghost m: Image, ghost mwn: map<nat, Owner>) returns (ok: bool)
      requires m.Owned(mwn) && i < |m.ips| && Emptied(m, mwn, i, NDIRECT)
      modifies this`bs, this`ips, this`alloc, this`own, this`logged
      ensures ok && Consistent() && |ips| == |m.ips| && Dropped(m, mwn, i)
      ensures forall t: nat | t < NADDRS :: ips[i].addrs[t] == 0
      ensures Tracks(sb, old(bs), old(logged), bs, logged)
      ensures MarksOnly(old(logged), logged)
    {
      hide GetWord, Bits, Image.Owned, Image.Slot, Tracks;
      OwnedInRange(m, mwn);
      ok := true;
      if ips[i].addrs[NDIRECT] != 0 {
        ok := FreeIndirect(i);
      } else {
        TracksSelf(sb, bs, alloc, logged);
        NoIndirect(Img(), own, i);
      }
    }

    /** itrunc: the file is empty, its blocks and no others are free, all other files are as
        before, and no free block was freed again. */
    method Itrunc(i: nat) returns (ok: bool)
      requires Valid() && i < |ips|
      modifies this
      ensures ok && Valid() && |ips| == |old(ips)| && File(i) == []
      ensures forall b :: b in own <==> b in old(own) && old(own)[b].inum != i
      ensures forall j: nat | j < |ips| && j != i :: ips[j] == old(ips)[j] && File(j) == old(File(j))
      ensures Recorded(old(bs), old(dips), old(logged), i)
      ensures LogsOnly(old(logged), sb.IBlock(i), 0)
    {
      hide GetWord, Bits, Image.Owned, Image.Slot, Image.ByteAt, Image.NoHoles, SameFile;
      ghost var m, mwn := Img(), own;
      ok := FreeAll(i);
      SetSize(Img(), own, i, 0);
      ips := ips[i := ips[i].(size := 0)];
      Iupdate(i);
      EmptyNoHoles(Img(), i);
      OwnedInRange(m, mwn);
      forall j: nat | j < |ips| && j != i
        ensures Img().SlotsInRange(j) && Img().NoHoles(j, ips[j].size) && m.ips[j].size <= MAXBYTES
        ensures ips[j] == m.ips[j] && Img().Content(j) == m.Content(j)
      {
        DataSameFile(m, mwn, Img(), own, j);
        SameContent(m, Img(), j);
      }
    }

    /** Block ownership: a data block's bit is set exactly when some slot of some inode holds
        it, and then it is the only one. */
    lemma BitIffOneOwner(b: nat)
      requires Consistent() && sb.First() <= b < sb.size
      ensures BitAt(sb, bs, b) <==> exists i: nat, s: nat :: i < |ips| && s < NSLOTS && Img().Slot(i, s) == b
      ensures forall i: nat, s: nat, j: nat, t: nat
                | i < |ips| && s < NSLOTS && j < |ips| && t < NSLOTS && Img().Slot(i, s) == b &&
                  Img().Slot(j, t) == b ::
                i == j && s == t
    {
      hide GetWord, BlockBit;
      assert BitAt(sb, bs, b) <==> b in own;
      if b in own {
        assert Img().Slot(own[b].inum, own[b].slot) == b;
      }
      forall i: nat, s: nat, j: nat, t: nat
        | i < |ips| && s < NSLOTS && j < |ips| && t < NSLOTS && Img().Slot(i, s) == b && Img().Slot(j, t) == b
        ensures i == j && s == t
      {
        OneOwner(Img(), own, i, s, j, t);
      }
    }
  }
}
