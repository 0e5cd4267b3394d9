/** The file system on top of the log (fs.c, file.c, log.c): a crash anywhere in the commit of an
    operation leaves, after recovery, a disk that is a valid image, with every file as it was before
    the operation or as it is after it. */
module DurableFs {
  import opened Blocks
  import opened Bitmap
  import opened Inodes
  import opened FileBytes
  import opened Truncate
  import opened FileSystem
  import opened FileWrite
  import opened BufferCache
  import opened RedoLog
  import opened Log
  import opened InodeBlocks

  // ----- what a disk says

  /** The image that a disk holds: the inodes are read from their blocks. */
  ghost function ImageOf(sb: Superblock, d: Disk): (m: Image)
    requires sb.Wf() && |d| == sb.size
  {
    Image(d, InodesOf(sb, d), sb.First(), sb.size)
  }

  /** A disk without errors: bits are set for the owned blocks alone, each block has one owner, and
      no file has holes. */
  ghost predicate Sound(sb: Superblock, d: Disk, own: map<nat, Owner>) {
    && sb.Wf() && |d| == sb.size && Bits(sb, d, own.Keys)
    && ImageOf(sb, d).Owned(own)
    && forall i: nat | i < sb.ninodes :: ImageOf(sb, d).NoHoles(i, InodesOf(sb, d)[i].size)
  }

  ghost predicate ValidDisk(sb: Superblock, d: Disk) {
    exists own: map<nat, Owner> :: Sound(sb, d, own)
  }

  lemma Readable(sb: Superblock, d: Disk, i: nat)
    requires ValidDisk(sb, d) && i < sb.ninodes
    ensures sb.Wf() && |d| == sb.size && ImageOf(sb, d).Wf() && ImageOf(sb, d).SlotsInRange(i)
    ensures InodesOf(sb, d)[i].size <= MAXBYTES
  {
    var own: map<nat, Owner> :| Sound(sb, d, own);
    OwnedInRange(ImageOf(sb, d), own);
  }

  /** The contents of file i on a disk. */
  ghost function FileOn(sb: Superblock, d: Disk, i: nat): (c: seq<Byte>)
    requires ValidDisk(sb, d) && i < sb.ninodes
  {
    Readable(sb, d, i);
    ImageOf(sb, d).Content(i)
  }

  /** A disk with these inodes, and with the free map and the data of bs, is as sound as they are. */
  lemma Transfer(sb: Superblock, bs: seq<Block>, ips: seq<Inode>, d: Disk, own: map<nat, Owner>)
    requires Bits(sb, bs, own.Keys) && |d| == sb.size && |ips| == sb.ninodes && InodesOf(sb, d) == ips
    requires forall b: nat | sb.bmapstart <= b < sb.size :: d[b] == bs[b]
    requires var m := Image(bs, ips, sb.First(), sb.size);
             m.Owned(own) && forall i: nat | i < sb.ninodes :: m.NoHoles(i, ips[i].size)
    ensures Sound(sb, d, own)
    ensures forall i: nat | i < sb.ninodes ::
              && Image(bs, ips, sb.First(), sb.size).SlotsInRange(i) && ips[i].size <= MAXBYTES
              && FileOn(sb, d, i) == Image(bs, ips, sb.First(), sb.size).Content(i)
  {
    hide GetWord, BitAt, Image.Owned, Image.Slot, Image.ByteAt, Image.NoHoles, SameFile;
    var m, w := Image(bs, ips, sb.First(), sb.size), ImageOf(sb, d);
    assert sb.BBlock(0) < sb.First();
    BitsSame(sb, bs, d, own.Keys);
    SameDataOwned(m, own, d);
    assert w == m.(bs := d);
    forall i: nat | i < sb.ninodes
      ensures m.SlotsInRange(i) && w.SlotsInRange(i) && ips[i].size <= MAXBYTES && w.NoHoles(i, ips[i].size)
      ensures w.Content(i) == m.Content(i)
    {
      DataSameFile(m, own, w, own, i);
      SameContent(m, w, i);
    }
    assert Sound(sb, d, own);
  }

  lemma BitsSame(sb: Superblock, bs: seq<Block>, cs: seq<Block>, alloc: set<nat>)
    requires Bits(sb, bs, alloc) && |cs| == sb.size
    requires forall b: nat | sb.bmapstart <= b < sb.size :: cs[b] == bs[b]
    ensures Bits(sb, cs, alloc)
  {
    hide BlockBit;
    forall b: nat | b < sb.size ensures BitAt(sb, cs, b) <==> BitAt(sb, bs, b) {
      assert sb.bmapstart <= sb.BBlock(b) < sb.First();
    }
  }

  // ----- the disk of a file system

  /** The log lies before the inodes and the free map. */
  predicate LogFirst(sb: Superblock, l: Layout) {
    l.start + l.size <= sb.inodestart <= sb.bmapstart
  }

  /** So it does on the disk that mkfs lays out. */
  lemma ShippedLogFirst()
    ensures LogFirst(SHIPPED, Layout(2, LOGSIZE))
  {
  }

  /** Disks that differ in the log alone hold the same files. */
  lemma SameFiles(sb: Superblock, l: Layout, d: Disk, e: Disk)
    requires ValidDisk(sb, d) && LogFirst(sb, l) && SameHome(d, e, l)
    ensures ValidDisk(sb, e) && forall i: nat | i < sb.ninodes :: FileOn(sb, e, i) == FileOn(sb, d, i)
  {
    hide GetWord, BitAt, Image.Owned, Image.NoHoles, Bits, ReadInode;
    var own: map<nat, Owner> :| Sound(sb, d, own);
    forall i: nat | i < sb.ninodes ensures InodeOn(sb, e, i) == InodeOn(sb, d, i) {
      InBounds(sb, i);
    }
    assert InodesOf(sb, e) == InodesOf(sb, d);
    Transfer(sb, d, InodesOf(sb, d), e, own);
  }

  lemma ValidStorable(fs: Fs)
    requires fs.Valid()
    ensures AllStorable(fs.dips)
  {
    forall i: nat | i < |fs.dips| ensures Storable(fs.dips[i]) {
      assert fs.Img().NoHoles(i, fs.ips[i].size);
      assert forall t: nat | t < NADDRS && fs.ips[i].addrs[t] != 0 :: fs.Img().InData(fs.ips[i].addrs[t]);
    }
  }

  /** What is on disk once the log of a file system is installed. */
  ghost function DiskOf(fs: Fs): (d: Disk)
    requires fs.Valid()
    reads fs
  {
    ValidStorable(fs);
    Flat(fs.sb, fs.bs, fs.dips)
  }

  /** A valid file system is a valid disk with the same files. */
  lemma FsOnDisk(fs: Fs)
    requires fs.Valid()
    ensures ValidDisk(fs.sb, DiskOf(fs)) && |fs.ips| == fs.sb.ninodes
    ensures forall i: nat | i < fs.sb.ninodes :: FileOn(fs.sb, DiskOf(fs), i) == fs.File(i)
  {
    assert |fs.bs| == fs.sb.size;
    hide GetWord, BitAt, Image.Owned, Image.NoHoles, Flat, Bits;
    ValidStorable(fs);
    FlatInodes(fs.sb, fs.bs, fs.dips);
    Transfer(fs.sb, fs.bs, fs.dips, DiskOf(fs), fs.own);
  }

  // ----- free blocks

  /** The data blocks that a disk marks as used. */
  ghost function UsedOn(sb: Superblock, d: Disk): (used: set<nat>)
    requires sb.Wf() && |d| == sb.size
  {
    set b: nat | sb.First() <= b < sb.size && BitAt(sb, d, b)
  }

  /** There are fewer free blocks than it takes to write file i up to `end`. */
  ghost predicate Crowded(sb: Superblock, d: Disk, i: nat, end: nat)
    requires ValidDisk(sb, d) && i < sb.ninodes
  {
    Readable(sb, d, i);
    var size := |FileOn(sb, d, i)|;
    |UsedOn(sb, d)| + FileBlocks(Max(size, end)) - FileBlocks(size) > sb.nblocks
  }

  lemma UsedIsAlloc(fs: Fs)
    requires fs.Valid()
    ensures |DiskOf(fs)| == fs.sb.size && UsedOn(fs.sb, DiskOf(fs)) == fs.alloc
  {
    ValidStorable(fs);
    hide BlockBit, AllStorable;
    var d := DiskOf(fs);
    forall b: nat | b < fs.sb.size ensures BitAt(fs.sb, d, b) <==> BitAt(fs.sb, fs.bs, b) {
      assert fs.sb.bmapstart <= fs.sb.BBlock(b) < fs.sb.First();
    }
  }

  lemma CrowdedIs(fs: Fs, i: nat, end: nat)
    requires fs.Valid() && i < |fs.ips|
    ensures ValidDisk(fs.sb, DiskOf(fs)) && i < fs.sb.ninodes && fs.sb.Wf()
    ensures Crowded(fs.sb, DiskOf(fs), i, end) <==> fs.Taken(fs.Img(), i, |fs.alloc|, end) > fs.sb.nblocks
  {
    FsOnDisk(fs);
    UsedIsAlloc(fs);
    hide ValidDisk, FileOn, DiskOf, FileBlocks, UsedOn, Bits, Image.Owned, Image.NoHoles, Image.Wf;
    assert FileOn(fs.sb, DiskOf(fs), i) == fs.File(i);
  }

  lemma SameUsed(sb: Superblock, l: Layout, d: Disk, e: Disk)
    requires sb.Wf() && |d| == sb.size && LogFirst(sb, l) && SameHome(d, e, l)
    ensures UsedOn(sb, e) == UsedOn(sb, d)
  {
    hide BlockBit;
    forall b: nat | b < sb.size ensures BitAt(sb, e, b) <==> BitAt(sb, d, b) {
      assert sb.bmapstart <= sb.BBlock(b) < sb.First();
    }
  }

  lemma ValidShape(sb: Superblock, d: Disk)
    requires ValidDisk(sb, d)
    ensures sb.Wf() && |d| == sb.size
  {
  }

  /** What is crowded is so whatever is in the log. */
  lemma SameCrowd(sb: Superblock, l: Layout, d: Disk, e: Disk, i: nat, end: nat)
    requires ValidDisk(sb, d) && LogFirst(sb, l) && SameHome(d, e, l) && i < sb.ninodes
    ensures ValidDisk(sb, e) && (Crowded(sb, e, i, end) <==> Crowded(sb, d, i, end))
  {
    hide ValidDisk, FileOn, FileBlocks, UsedOn, SameHome;
    SameFiles(sb, l, d, e);
    ValidShape(sb, d);
    SameUsed(sb, l, d, e);
  }

  // ----- crashes

  /** A transaction that takes its blocks from a disk. */
  ghost predicate Records(t: Transaction, view: Disk, logged: set<nat>) {
    && |t.blocks| == |t.datas| && ToSet(t.blocks) == logged
    && forall i: nat | i < |t.blocks| :: t.blocks[i] < |view| && t.datas[i] == view[t.blocks[i]]
  }

  /** With all that changed in the transaction, its effect is the new disk. */
  lemma EffectIsNew(d: Disk, l: Layout, t: Transaction, before: Disk, after: Disk, logged: set<nat>)
    requires SameHome(d, before, l) && |before| == |after| && Records(t, after, logged)
    requires forall b: nat | b < |before| && b !in logged :: after[b] == before[b]
    ensures InRange(d, InstallWrites(t.blocks, t.datas))
    ensures SameHome(Effect(d, t), after, l)
  {
    var ws := InstallWrites(t.blocks, t.datas);
    forall b: nat | b < |d| && !l.InLog(b) ensures Effect(d, t)[b] == after[b] {
      if b in logged {
        var i :| 0 <= i < |t.blocks| && t.blocks[i] == b;
        assert ws[i].blockno == b;
        ApplyUniform(d, ws, |ws|, b, after[b]);
      } else {
        ApplyUntouched(d, ws, |ws|, b);
      }
    }
  }

  /** After a crash and recovery the disk is valid and holds the files of `was`. */
  ghost predicate HoldsFiles(sb: Superblock, d: Disk, was: Disk)
    requires ValidDisk(sb, was)
  {
    ValidDisk(sb, d) && forall i: nat | i < sb.ninodes :: FileOn(sb, d, i) == FileOn(sb, was, i)
  }

  /** One operation, from one valid disk to another: wherever its commit stops, recovery leaves a valid
      disk with the files of the one or, from the commit point on, of the other. */
  lemma OperationCrash(sb: Superblock, l: Layout, d: Disk, t: Transaction, k: nat, before: Disk, after: Disk,
                       logged: set<nat>)
    requires ValidDisk(sb, before) && ValidDisk(sb, after) && LogFirst(sb, l)
    requires EmptyLog(d, l) && SameHome(d, before, l) && |before| == |after|
    requires forall b: nat | b < |before| && b !in logged :: after[b] == before[b]
    requires Records(t, after, logged) && ValidTransaction(d, l, t) && k <= |CommitWrites(d, l, t)|
    ensures WellFormed(Apply(d, CommitWrites(d, l, t), k), l)
    ensures HoldsFiles(sb, Recovered(Apply(d, CommitWrites(d, l, t), k), l), if Durable(t, k) then after else before)
  {
    hide ValidDisk, WellFormed, Recovered, CommitWrites, Apply, ValidTransaction, FileOn, Effect;
    CommitCrash(d, l, t, k);
    var r := Recovered(Apply(d, CommitWrites(d, l, t), k), l);
    EffectIsNew(d, l, t, before, after, logged);
    SameHomeTrans(r, if Durable(t, k) then Effect(d, t) else d, if Durable(t, k) then after else before, l);
    SameFiles(sb, l, if Durable(t, k) then after else before, r);
  }

  lemma SameHomeTrans(a: Disk, b: Disk, c: Disk, l: Layout)
    requires SameHome(a, b, l) && SameHome(b, c, l)
    ensures SameHome(c, a, l)
  {
  }

  /** A transaction that takes at most as many home blocks as the log has slots can be recorded. */
  lemma Recordable(d: Disk, l: Layout, view: Disk, logged: set<nat>) returns (t: Transaction)
    requires Fits(d, l) && |view| == |d| && |logged| <= LOGSIZE && |logged| < l.size
    requires forall b | b in logged :: b < |d| && !l.InLog(b)
    ensures Records(t, view, logged) && ValidTransaction(d, l, t)
  {
    var blocks := InOrder(logged);
    assert forall i | 0 <= i < |blocks| :: blocks[i] in ToSet(blocks);
    t := Transaction(blocks, Gather(view, blocks), Header(d[l.start], blocks));
  }

  /** A set as a sequence. */
  lemma {:induction false} InOrder(xs: set<nat>) returns (s: seq<nat>)
    ensures ToSet(s) == xs && |s| == |xs|
    decreases |xs|
  {
    if xs == {} {
      s := [];
    } else {
      var x :| x in xs;
      var rest := InOrder(xs - {x});
      s := rest + [x];
      assert ToSet(s) == ToSet(rest) + {x};
    }
  }

  /** Whichever disk an operation starts on, however its blocks are ordered in the log, and wherever the
      commit stops: the files are those of before or those of after. */
  ghost predicate CrashSafe(sb: Superblock, l: Layout, before: Disk, after: Disk, logged: set<nat>)
    requires ValidDisk(sb, before) && ValidDisk(sb, after)
  {
    forall d: Disk, t: Transaction, k: nat
      | EmptyLog(d, l) && SameHome(d, before, l) && Records(t, after, logged) && ValidTransaction(d, l, t)
        && k <= |CommitWrites(d, l, t)| ::
      && WellFormed(Apply(d, CommitWrites(d, l, t), k), l)
      && HoldsFiles(sb, Recovered(Apply(d, CommitWrites(d, l, t), k), l), if Durable(t, k) then after else before)
  }

  lemma OperationSafe(sb: Superblock, l: Layout, before: Disk, after: Disk, logged: set<nat>)
    requires ValidDisk(sb, before) && ValidDisk(sb, after) && LogFirst(sb, l) && |before| == |after|
    requires forall b: nat | b < |before| && b !in logged :: after[b] == before[b]
    ensures CrashSafe(sb, l, before, after, logged)
  {
    hide ValidDisk, WellFormed, Recovered, CommitWrites, Apply, ValidTransaction, HoldsFiles;
    forall d: Disk, t: Transaction, k: nat
      | EmptyLog(d, l) && SameHome(d, before, l) && Records(t, after, logged) && ValidTransaction(d, l, t)
        && k <= |CommitWrites(d, l, t)|
      ensures WellFormed(Apply(d, CommitWrites(d, l, t), k), l)
      ensures HoldsFiles(sb, Recovered(Apply(d, CommitWrites(d, l, t), k), l), if Durable(t, k) then after else before)
    {
      OperationCrash(sb, l, d, t, k, before, after, logged);
    }
  }

  /** What an operation on inode i did not log is the same on disk. */
  lemma RecordedSame(fs: Fs, bs: seq<Block>, dips: seq<Inode>, i: nat, x: nat)
    requires fs.Valid() && fs.Recorded(bs, dips, {}, i) && AllStorable(dips) && x < |bs| && x !in fs.logged
    ensures DiskOf(fs)[x] == Flat(fs.sb, bs, dips)[x]
  {
    hide Flat, AllStorable, Fs.Valid;
    ValidStorable(fs);
    FlatSame(fs.sb, bs, dips, fs.bs, fs.dips, x);
  }

  /** The blocks that an operation logs lie outside the log. */
  lemma LoggedHome(fs: Fs, bs: seq<Block>, dips: seq<Inode>, i: nat, l: Layout)
    requires fs.Valid() && fs.Recorded(bs, dips, {}, i) && LogFirst(fs.sb, l)
    ensures forall b | b in fs.logged :: b < fs.sb.size && !l.InLog(b)
  {
    hide Fs.Consistent;
    FsOnDisk(fs);
    InBounds(fs.sb, i);
  }

  lemma AcrossOperation(fs: Fs, bs: seq<Block>, dips: seq<Inode>, i: nat, l: Layout)
    requires fs.Valid() && fs.Recorded(bs, dips, {}, i) && AllStorable(dips) && LogFirst(fs.sb, l)
    requires ValidDisk(fs.sb, Flat(fs.sb, bs, dips))
    ensures ValidDisk(fs.sb, DiskOf(fs))
    ensures CrashSafe(fs.sb, l, Flat(fs.sb, bs, dips), DiskOf(fs), fs.logged)
    ensures forall b: nat | b < |bs| && b !in fs.logged :: DiskOf(fs)[b] == Flat(fs.sb, bs, dips)[b]
  {
    hide Fs.Valid, ValidDisk, FileOn, CrashSafe, Fs.File, AllStorable;
    FsOnDisk(fs);
    ValidStorable(fs);
    var before, after := Flat(fs.sb, bs, dips), DiskOf(fs);
    forall b: nat | b < |before| && b !in fs.logged ensures after[b] == before[b] {
      RecordedSame(fs, bs, dips, i, b);
    }
    OperationSafe(fs.sb, l, before, after, fs.logged);
  }

  /** An operation that leaves c in file i, and all other files alone, has survived every crash. */
  ghost predicate Survives(sb: Superblock, l: Layout, before: Disk, after: Disk, logged: set<nat>, i: nat,
                           c: seq<Byte>) {
    && ValidDisk(sb, before) && ValidDisk(sb, after) && CrashSafe(sb, l, before, after, logged)
    && i < sb.ninodes && FileOn(sb, after, i) == c
    && (forall j: nat | j < sb.ninodes && j != i :: FileOn(sb, after, j) == FileOn(sb, before, j))
    && (forall b | b in logged :: b < |before| == |after| && !l.InLog(b))
    && |before| == |after| && forall b: nat | b < |before| && b !in logged :: after[b] == before[b]
  }

  /** One chunk of filewrite survives crashes: the write is there as a whole or not at all. */
  method WriteChunkSafely(f: File, fs: Fs, src: seq<Byte>, ghost l: Layout) returns (r: FileSystem.WriteResult)
    requires fs.Valid() && f.inum < |fs.ips| && 0 < |src| <= CHUNK && LogFirst(fs.sb, l)
    modifies f, fs
    ensures r.Wrote? ==> fs.Valid() && old(f.off) <= |old(fs.File(f.inum))|
    ensures r.Wrote? ==> Survives(fs.sb, l, old(DiskOf(fs)), DiskOf(fs), fs.logged, f.inum,
                                  Splice(old(fs.File(f.inum)), old(f.off), src))
    ensures r.Wrote? && fs.sb.size <= BPB ==> |fs.logged| <= 17
    ensures r.Refused? <==> old(f.off) > |old(fs.File(f.inum))| || old(f.off) + |src| > MAXBYTES
    ensures r.Refused? ==> fs.Valid() && DiskOf(fs) == old(DiskOf(fs))
    ensures r.OutOfBlocks? ==> fs.Full()
    ensures ValidDisk(fs.sb, old(DiskOf(fs))) && f.inum < fs.sb.ninodes
    ensures r.OutOfBlocks? <==> !r.Refused? && Crowded(fs.sb, old(DiskOf(fs)), f.inum, old(f.off) + |src|)
  {
    hide Fs.Valid, ValidDisk, FileOn, CrashSafe, Splice, Fs.File, Flat;
    FsOnDisk(fs);
    ValidStorable(fs);
    CrowdedIs(fs, f.inum, f.off + |src|);
    ghost var bs, dips := fs.bs, fs.dips;
    r := f.WriteChunk(fs, src);
    if r.Wrote? {
      FsOnDisk(fs);
      AcrossOperation(fs, bs, dips, f.inum, l);
      LoggedHome(fs, bs, dips, f.inum, l);
    }
  }

  /** So does itrunc. */
  method TruncateSafely(fs: Fs, i: nat, ghost l: Layout)
    requires fs.Valid() && i < |fs.ips| && LogFirst(fs.sb, l)
    modifies fs
    ensures fs.Valid() && Survives(fs.sb, l, old(DiskOf(fs)), DiskOf(fs), fs.logged, i, [])
    ensures fs.sb.size <= BPB ==> |fs.logged| <= 2
  {
    hide Fs.Valid, ValidDisk, FileOn, CrashSafe, Fs.File, Flat;
    FsOnDisk(fs);
    ValidStorable(fs);
    ghost var bs, dips := fs.bs, fs.dips;
    fs.BeginOp();
    var ok := fs.Itrunc(i);
    FsOnDisk(fs);
    AcrossOperation(fs, bs, dips, i, l);
    LoggedHome(fs, bs, dips, i, l);
    if fs.sb.size <= BPB {
      TwoLogged(fs, i);
    }
  }

  /** With one bitmap block, the inode block and that block are all that itrunc logs. */
  lemma TwoLogged(fs: Fs, i: nat)
    requires fs.sb.size <= BPB && fs.LogsOnly({}, fs.sb.IBlock(i), 0)
    ensures |fs.logged| <= 2
  {
    forall x | x in fs.logged ensures x in {fs.sb.IBlock(i), fs.sb.bmapstart} {
      assert fs.IsBBlock(x) ==> x == fs.sb.bmapstart;
    }
    SubsetSize(fs.logged, {fs.sb.IBlock(i), fs.sb.bmapstart});
  }

  // ----- through the log and the buffer cache

  /** The blocks of an operation go through the cache to the log. */
  method LogBlocks(kl: KernelLog, blocks: seq<nat>, after: Disk, ghost held: set<nat>)
    requires kl.Shape() && kl.Quiet(0, held) && kl.outstanding >= 1 && |after| == |kl.bc.disk|
    requires kl.n + |blocks| < kl.l.size && kl.n + |blocks| <= LOGSIZE && kl.n + |blocks| + |held| < NBUF
    requires forall i: nat | i < |blocks| :: blocks[i] < |after| && !kl.l.InLog(blocks[i]) && blocks[i] !in held
    modifies kl`n, kl.block, kl.bc, kl.bc.buf
    ensures kl.Shape() && kl.Quiet(0, held) && kl.n <= old(kl.n) + |blocks|
    ensures kl.bc.disk == old(kl.bc.disk) && kl.bc.writes == old(kl.bc.writes)
    ensures |kl.bc.view| == |after| && forall b: nat | b < |after| ::
              kl.bc.view[b] == if b in blocks then after[b] else old(kl.bc.view)[b]
  {
    hide Bcache.Valid, KernelLog.Quiet, KernelLog.Shape, HomeBlocks;
    kl.SameBlocks();
    var i := 0;
    while i < |blocks|
      invariant 0 <= i <= |blocks| && kl.Shape() && kl.Quiet(0, held) && kl.n <= old(kl.n) + i
      invariant kl.bc.disk == old(kl.bc.disk) && kl.bc.writes == old(kl.bc.writes) && |kl.bc.view| == |after|
      invariant forall b: nat | b < |after| ::
                  kl.bc.view[b] == if b in blocks[..i] then after[b] else old(kl.bc.view)[b]
    {
      assert blocks[..i + 1] == blocks[..i] + [blocks[i]];
      var r := kl.Update(blocks[i], after[blocks[i]], held);
      i := i + 1;
    }
    assert blocks[..i] == blocks;
  }

  /** With the blocks of an operation in the log, wherever commit stops, recovery leaves the files of
      before or the files that clients see now. */
  lemma CommitSurvives(kl: KernelLog, sb: Superblock, before: Disk, after: Disk, k: nat, held: set<nat>)
    requires ValidDisk(sb, before) && ValidDisk(sb, after) && LogFirst(sb, kl.l)
    requires kl.Shape() && kl.Quiet(0, held) && EmptyLog(kl.bc.disk, kl.l)
    requires SameHome(kl.bc.disk, before, kl.l) && SameHome(kl.bc.view, after, kl.l)
    requires ValidTransaction(kl.bc.disk, kl.l, kl.Current()) && k <= |CommitWrites(kl.bc.disk, kl.l, kl.Current())|
    ensures WellFormed(Apply(kl.bc.disk, CommitWrites(kl.bc.disk, kl.l, kl.Current()), k), kl.l)
    ensures HoldsFiles(sb, Recovered(Apply(kl.bc.disk, CommitWrites(kl.bc.disk, kl.l, kl.Current()), k), kl.l),
                       if Durable(kl.Current(), k) then after else before)
  {
    hide ValidDisk, WellFormed, Recovered, CommitWrites, Apply, ValidTransaction, FileOn, KernelLog.Quiet, Bcache.Valid;
    kl.CommitIsAtomic(k, held);
    var t, r := kl.Current(), Recovered(Apply(kl.bc.disk, CommitWrites(kl.bc.disk, kl.l, kl.Current()), k), kl.l);
    SameHomeTrans(r, if Durable(t, k) then kl.bc.view else kl.bc.disk, if Durable(t, k) then after else before, kl.l);
    SameFiles(sb, kl.l, if Durable(t, k) then after else before, r);
  }

  // ----- whole runs

  /** The transactions that reach their commit point keep the disk valid, as file system operations do. */
  ghost predicate KeepsValid(sb: Superblock, d: Disk, es: seq<Event>)
    requires Applicable(d, es)
    decreases |es|
  {
    ValidDisk(sb, d) && (es != [] ==> KeepsValid(sb, Ideal(d, es[0]), es[1..]))
  }

  lemma {:induction false} IdealValid(sb: Superblock, d: Disk, es: seq<Event>)
    requires Applicable(d, es) && KeepsValid(sb, d, es)
    ensures ValidDisk(sb, IdealFinal(d, es))
    decreases |es|
  {
    if es != [] {
      IdealValid(sb, Ideal(d, es[0]), es[1..]);
    }
  }

  /** Over every run of commits and recoveries, finished or crashed: recovery gives a valid disk whose
      files are those that the committed operations, in order and each as a whole, have made. */
  lemma FilesSurvive(sb: Superblock, m: Machine, l: Layout, es: seq<Event>, d: Disk)
    requires Good(m, l) && Run(m, l, es) && SameHome(Recovered(m.disk, l), d, l) && LogFirst(sb, l)
    requires Applicable(d, es) && KeepsValid(sb, d, es)
    ensures ValidDisk(sb, IdealFinal(d, es)) && HoldsFiles(sb, Recovered(Final(m, l, es).disk, l), IdealFinal(d, es))
  {
    hide ValidDisk, Recovered, Run, Final, IdealFinal, KeepsValid, FileOn;
    CrashAtomicity(m, l, es, d);
    IdealValid(sb, d, es);
    SameHomeTrans(Recovered(Final(m, l, es).disk, l), IdealFinal(d, es), IdealFinal(d, es), l);
    SameFiles(sb, l, IdealFinal(d, es), Recovered(Final(m, l, es).disk, l));
  }
}
