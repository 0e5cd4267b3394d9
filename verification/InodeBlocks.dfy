/** Inodes in their blocks (fs.h, struct dinode): sixteen words each, of which word 2 is the size and
    words 3 to 15 are the block addresses. */
module InodeBlocks {
  import opened Blocks
  import opened Inodes
  import opened FileSystem

  const DWORDS: nat := NWORDS / IPB

  /** Where word w of inode j is in its block. */
  function Place(j: nat, w: nat): (i: nat)
    requires j < IPB && w < DWORDS
    ensures i < NWORDS
  {
    DWORDS * j + w
  }

  lemma PlacesApart(j: nat, w: nat)
    requires j < IPB && w < DWORDS
    ensures forall i: nat, v: nat | i < IPB && v < DWORDS && !(i == j && v == w) :: Place(i, v) != Place(j, w)
  {
    forall i: nat, v: nat | i < IPB && v < DWORDS && !(i == j && v == w) ensures Place(i, v) != Place(j, w) {
      PlaceOf(i, v);
      PlaceOf(j, w);
    }
  }

  lemma PlaceOf(j: nat, w: nat)
    requires j < IPB && w < DWORDS
    ensures Place(j, w) / 16 == j && Place(j, w) % 16 == w
  {
    assert DWORDS == 16;
  }

  /** Word w of inode j of a block. */
  function DWord(b: Block, j: nat, w: nat): (x: nat)
    requires j < IPB && w < DWORDS
    ensures x < TWO32
  {
    GetWord(b, Place(j, w))
  }

  function PutDWord(b: Block, j: nat, w: nat, x: Word): (r: Block)
    requires j < IPB && w < DWORDS
    ensures DWord(r, j, w) == x
    ensures forall i: nat, v: nat | i < IPB && v < DWORDS && !(i == j && v == w) :: DWord(r, i, v) == DWord(b, i, v)
  {
    hide GetWord, PutWord, Place;
    PlacesApart(j, w);
    PutWord(b, Place(j, w), x)
  }

  function ReadInode(b: Block, j: nat): (ip: Inode)
    requires j < IPB
    ensures |ip.addrs| == NADDRS
  {
    Inode(DWord(b, j, 2), seq(NADDRS, t requires 0 <= t < NADDRS => DWord(b, j, 3 + t)))
  }

  ghost predicate Storable(ip: Inode) {
    ip.size < TWO32 && |ip.addrs| == NADDRS && forall t: nat | t < NADDRS :: ip.addrs[t] < TWO32
  }

  ghost predicate AllStorable(ips: seq<Inode>) {
    forall i: nat | i < |ips| :: Storable(ips[i])
  }

  /** The size and the first k addresses are stored as inode j of a block. */
  ghost function PutAddrs(b: Block, j: nat, ip: Inode, k: nat): (r: Block)
    requires j < IPB && Storable(ip) && k <= NADDRS
    ensures DWord(r, j, 2) == ip.size && forall t: nat | t < k :: DWord(r, j, 3 + t) == ip.addrs[t]
    ensures DWord(r, j, 0) == DWord(b, j, 0) && DWord(r, j, 1) == DWord(b, j, 1)
    ensures forall i: nat, v: nat | i < IPB && i != j && v < DWORDS :: DWord(r, i, v) == DWord(b, i, v)
  {
    hide DWord, PutDWord;
    if k == 0 then PutDWord(b, j, 2, ip.size)
    else PutDWord(PutAddrs(b, j, ip, k - 1), j, 2 + k, ip.addrs[k - 1])
  }

  /** iupdate's stores. */
  ghost function PutInode(b: Block, j: nat, ip: Inode): (r: Block)
    requires j < IPB && Storable(ip)
    ensures ReadInode(r, j) == ip && DWord(r, j, 0) == DWord(b, j, 0) && DWord(r, j, 1) == DWord(b, j, 1)
    ensures forall i: nat | i < IPB && i != j :: ReadInode(r, i) == ReadInode(b, i)
    ensures forall i: nat, v: nat | i < IPB && i != j && v < DWORDS :: DWord(r, i, v) == DWord(b, i, v)
  {
    hide DWord, PutAddrs;
    var r := PutAddrs(b, j, ip, NADDRS);
    assert ReadInode(r, j).addrs == ip.addrs;
    assert forall i: nat | i < IPB && i != j :: ReadInode(r, i).addrs == ReadInode(b, i).addrs;
    r
  }

  /** Inodes base to base + k are stored in a block. */
  ghost function PutInodes(b: Block, ips: seq<Inode>, base: nat, k: nat): (r: Block)
    requires k <= IPB && AllStorable(ips)
  {
    if k == 0 then b
    else
      var r, i := PutInodes(b, ips, base, k - 1), base + k - 1;
      if i < |ips| then PutInode(r, k - 1, ips[i]) else r
  }

  lemma {:induction false} PutInodesRead(b: Block, ips: seq<Inode>, base: nat, k: nat, j: nat)
    requires j < k <= IPB && AllStorable(ips) && base + j < |ips|
    ensures ReadInode(PutInodes(b, ips, base, k), j) == ips[base + j]
  {
    hide ReadInode, PutInode, Storable;
    if j < k - 1 {
      PutInodesRead(b, ips, base, k - 1, j);
    }
  }

  lemma {:induction false} PutInodesSame(b: Block, ips: seq<Inode>, jps: seq<Inode>, base: nat, k: nat)
    requires k <= IPB && AllStorable(ips) && AllStorable(jps)
    requires |ips| == |jps| && forall i: nat | base <= i < base + k && i < |ips| :: ips[i] == jps[i]
    ensures PutInodes(b, ips, base, k) == PutInodes(b, jps, base, k)
  {
    hide ReadInode, PutInode, AllStorable;
    if k > 0 {
      PutInodesSame(b, ips, jps, base, k - 1);
    }
  }

  /** The blocks of a disk with the inodes in their places. */
  ghost function Flat(sb: Superblock, bs: seq<Block>, ips: seq<Inode>): (d: seq<Block>)
    requires AllStorable(ips)
    ensures |d| == |bs|
    ensures forall b: nat | b < |bs| && !(sb.inodestart <= b < sb.bmapstart) :: d[b] == bs[b]
  {
    seq(|bs|, b requires 0 <= b < |bs| =>
      if sb.inodestart <= b < sb.bmapstart then PutInodes(bs[b], ips, (b - sb.inodestart) * IPB, IPB) else bs[b])
  }

  /** The inodes of a disk. */
  ghost function InodesOf(sb: Superblock, d: seq<Block>): (ips: seq<Inode>)
    requires sb.Wf() && |d| == sb.size
    ensures |ips| == sb.ninodes
  {
    seq(sb.ninodes, i requires 0 <= i < sb.ninodes => InodeOn(sb, d, i))
  }

  ghost function InodeOn(sb: Superblock, d: seq<Block>, i: nat): (ip: Inode)
    requires sb.Wf() && |d| == sb.size && i < sb.ninodes
    ensures |ip.addrs| == NADDRS
  {
    InBounds(sb, i);
    ReadInode(d[sb.IBlock(i)], i % IPB)
  }

  lemma InBounds(sb: Superblock, i: nat)
    requires sb.Wf() && i < sb.ninodes
    ensures sb.inodestart <= sb.IBlock(i) < sb.bmapstart < sb.First()
  {
    assert sb.BBlock(0) < sb.First();
  }

  /** Reading back what is stored. */
  lemma FlatInodes(sb: Superblock, bs: seq<Block>, ips: seq<Inode>)
    requires sb.Wf() && |bs| == sb.size && |ips| == sb.ninodes && AllStorable(ips)
    ensures InodesOf(sb, Flat(sb, bs, ips)) == ips
  {
    hide ReadInode, PutInodes;
    var d := Flat(sb, bs, ips);
    forall i: nat | i < sb.ninodes ensures InodeOn(sb, d, i) == ips[i] {
      InBounds(sb, i);
      var b := sb.IBlock(i);
      assert (b - sb.inodestart) * IPB + i % IPB == i;
      assert d[b] == PutInodes(bs[b], ips, (b - sb.inodestart) * IPB, IPB);
      PutInodesRead(bs[b], ips, (b - sb.inodestart) * IPB, IPB, i % IPB);
    }
  }

  /** A block whose bytes and inodes are the same is the same on disk. */
  lemma FlatSame(sb: Superblock, bs: seq<Block>, ips: seq<Inode>, cs: seq<Block>, jps: seq<Inode>, x: nat)
    requires AllStorable(ips) && AllStorable(jps)
    requires |bs| == |cs| && |ips| == |jps| && x < |bs| && bs[x] == cs[x]
    requires forall i: nat | i < |ips| && sb.IBlock(i) == x :: ips[i] == jps[i]
    ensures Flat(sb, bs, ips)[x] == Flat(sb, cs, jps)[x]
  {
    hide PutInodes, AllStorable;
    if sb.inodestart <= x < sb.bmapstart {
      var base := (x - sb.inodestart) * IPB;
      forall i: nat | base <= i < base + IPB && i < |ips| ensures ips[i] == jps[i] {
        assert sb.IBlock(i) == x;
      }
      PutInodesSame(bs[x], ips, jps, base, IPB);
    }
  }
}
