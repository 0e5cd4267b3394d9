/** filewrite on an inode (file.c): the chunking loop, and how much log each chunk needs. */
module FileWrite {
  import opened Blocks
  import opened Bitmap
  import opened Inodes
  import opened FileBytes
  import opened FileSystem
  import opened RedoLog

  /** `max = ((LOGSIZE-1-1-2) / 2) * 512` */
  const CHUNK: nat := (LOGSIZE - 1 - 1 - 2) / 2 * 512

  /** Two adjacent writes are one. */
  lemma SpliceTwice(c: seq<Byte>, off: nat, a: seq<Byte>, b: seq<Byte>)
    requires off <= |c|
    ensures off + |a| <= |Splice(c, off, a)|
    ensures Splice(Splice(c, off, a), off + |a|, b) == Splice(c, off, a + b)
  {
  }

  /** A chunk at any offset lies in at most 14 blocks. */
  lemma ChunkSpan(off: nat, n: nat)
    requires n <= CHUNK
    ensures Span(off, n) <= 14
  {
    if n > 0 {
      assert CHUNK == 13 * BSIZE;
      assert (off + n - 1) / BSIZE <= (off + 13 * BSIZE) / BSIZE == off / BSIZE + 13;
    }
  }

  /** The next chunk extends what has been written so far. */
  lemma ChunkJoins(c: seq<Byte>, off: nat, src: seq<Byte>, i: nat, n: nat)
    requires i + n <= |src| && off <= |c|
    ensures i == 0 ==> Splice(c, off, src[i..i + n]) == Splice(c, off, src[..i + n])
    ensures off + i <= |Splice(c, off, src[..i])|
    ensures Splice(Splice(c, off, src[..i]), off + i, src[i..i + n]) == Splice(c, off, src[..i + n])
  {
    assert src[..i] + src[i..i + n] == src[..i + n];
    SpliceTwice(c, off, src[..i], src[i..i + n]);
  }

  lemma Reached(c: seq<Byte>, off: nat, src: seq<Byte>, i: nat, now: seq<Byte>)
    requires i <= |src| && if i == 0 then now == c else off <= |c| && now == Splice(c, off, src[..i])
    ensures i > 0 ==> off + i <= |now|
  {
    if i > 0 {
      ChunkJoins(c, off, src, i, 0);
    }
  }

  lemma Joined(c: seq<Byte>, off: nat, src: seq<Byte>, i: nat, n: nat, now: seq<Byte>, later: seq<Byte>)
    requires i + n <= |src| && 0 < n && if i == 0 then now == c else off <= |c| && now == Splice(c, off, src[..i])
    requires off + i <= |now| && later == Splice(now, off + i, src[i..i + n])
    ensures off <= |c| && later == Splice(c, off, src[..i + n])
  {
    ChunkJoins(c, off, src, i, n);
  }

  lemma {:induction false} SubsetSize(a: set<nat>, b: set<nat>)
    requires a <= b
    ensures |a| <= |b|
    decreases b
  {
    if x :| x in a {
      SubsetSize(a - {x}, b - {x});
    }
  }

  /** With one bitmap block, a write that touches t data blocks logs at most |t| + 3 blocks. */
  lemma FewLogged(fs: Fs, t: set<nat>, i: nat)
    requires fs.sb.size <= BPB && i < |fs.ips| && fs.LogsWithin({}, t + {fs.sb.IBlock(i)}, i)
    ensures |fs.logged| <= |t| + 3
  {
    var few := t + {fs.sb.IBlock(i)} + {fs.ips[i].addrs[NDIRECT]} + {fs.sb.bmapstart};
    forall x | x in fs.logged ensures x in few {
      assert fs.IsBBlock(x) ==> x == fs.sb.bmapstart;
    }
    SubsetSize(fs.logged, few);
  }

  /** The contents of the first n files. */
  ghost function Contents(fs: Fs, n: nat): (cs: seq<seq<Byte>>)
    requires fs.Valid() && n <= |fs.ips|
    reads fs
    ensures |cs| == n && forall j: nat | j < n :: cs[j] == fs.File(j)
  {
    if n == 0 then [] else Contents(fs, n - 1) + [fs.File(n - 1)]
  }

  /** Inodes and contents of all files but one are as they were. */
  ghost predicate OthersSame(fs: Fs, ips: seq<Inode>, cs: seq<seq<Byte>>, inum: nat)
    requires fs.Valid()
    reads fs
  {
    && |fs.ips| == |ips| == |cs|
    && forall j: nat | j < |cs| && j != inum :: fs.ips[j] == ips[j] && fs.File(j) == cs[j]
  }

  /** The first i bytes of src have been written at off to a file that held c. */
  ghost predicate Progress(fs: Fs, inum: nat, c: seq<Byte>, off: nat, src: seq<Byte>, i: nat)
    requires fs.Valid() && inum < |fs.ips| && i <= |src|
    reads fs
  {
    if i == 0 then fs.File(inum) == c
    else off <= |c| && fs.File(inum) == Splice(c, off, src[..i])
  }

  class File {
    const inum: nat
    var off: Word

    constructor (inum: nat)
      ensures this.inum == inum && off == 0
    {
      this.inum := inum;
      off := 0;
    }

    /** One chunk inside its own transaction. On a file system with one bitmap block, of a lone
        writer, it logs at most 17 distinct blocks: 14 data, bitmap, indirect, inode. */
    method WriteChunk(fs: Fs, src: seq<Byte>) returns (r: WriteResult)
      requires fs.Valid() && inum < |fs.ips| && 0 < |src| <= CHUNK
      modifies this, fs
      ensures r.Refused? <==> old(off) > old(fs.ips)[inum].size || old(off) + |src| > MAXBYTES
      ensures !r.OutOfBlocks? ==> fs.Valid() && |fs.ips| == |old(fs.ips)|
      ensures r.Refused? ==> off == old(off) && fs.bs == old(fs.bs) && fs.dips == old(fs.dips)
      ensures r.Refused? ==> forall j: nat | j < |fs.ips| ::
                fs.ips[j] == old(fs.ips)[j] && fs.File(j) == old(fs.File(j))
      ensures r.Wrote? ==> r.n == |src| && off == old(off) + |src|
      ensures r.Wrote? ==> fs.File(inum) == Splice(old(fs.File(inum)), old(off), src)
      ensures r.Wrote? ==> forall j: nat | j < |fs.ips| && j != inum ::
                fs.ips[j] == old(fs.ips)[j] && fs.File(j) == old(fs.File(j))
      ensures r.Wrote? && fs.sb.size <= BPB ==> |fs.logged| <= 17 < LOGSIZE - 1
      ensures r.Wrote? ==> fs.Recorded(old(fs.bs), old(fs.dips), {}, inum)
      ensures r.OutOfBlocks? ==> fs.Full() && off == old(off)
      ensures r.OutOfBlocks? <==>
                !r.Refused? && fs.Taken(old(fs.Img()), inum, |old(fs.alloc)|, old(off) + |src|) > fs.sb.nblocks
    {
      hide Fs.Consistent, Image.NoHoles, Fs.File;
      fs.BeginOp();
      ghost var touched;
      r, touched := fs.Writei(inum, off, src);
      if r.Wrote? {
        ChunkSpan(off, |src|);
        if fs.sb.size <= BPB {
          FewLogged(fs, touched, inum);
        }
        off := off + r.n;
      }
    }

    /** filewrite: on success the whole of src is written at the old offset, as one write would.
        Otherwise a prefix of whole chunks is, and the next chunk was refused. */
    method Write(fs: Fs, src: seq<Byte>) returns (r: int, ghost done: nat)
      requires fs.Valid() && inum < |fs.ips| && |src| < TWO32
      modifies this, fs
      ensures r == |src| || r == -1 || r == -2
      ensures r == -2 ==> fs.Full()
      ensures r != -2 ==> fs.Valid() && |fs.ips| == |old(fs.ips)| && done <= |src| && off == old(off) + done
      ensures r != -2 ==> done == 0 || old(off) <= |old(fs.File(inum))|
      ensures r != -2 && done > 0 ==> fs.File(inum) == Splice(old(fs.File(inum)), old(off), src[..done])
      ensures r != -2 && done == 0 ==> fs.File(inum) == old(fs.File(inum))
      ensures r != -2 ==> forall j: nat | j < |fs.ips| && j != inum ::
                fs.ips[j] == old(fs.ips)[j] && fs.File(j) == old(fs.File(j))
      ensures r == |src| ==> done == |src|
      ensures r == -1 ==> done < |src| && done % CHUNK == 0
                          && (old(off) > |old(fs.File(inum))| || off + Min(CHUNK, |src| - done) > MAXBYTES)
    {
      hide Fs.Valid, Fs.Full, Fs.File, Splice, Progress, OthersSame;
      var i := 0;
      done := 0;
      ghost var c, ips, cs := fs.File(inum), fs.ips, Contents(fs, |fs.ips|);
      Begun(fs, ips, cs, c, off, src);
      var w := Wrote(0);
      while i < |src| && w.Wrote?
        invariant 0 <= i <= |src| && off == old(off) + i && (i < |src| ==> i % CHUNK == 0)
        invariant w.OutOfBlocks? ==> fs.Full()
        invariant !w.OutOfBlocks? ==>
                    && fs.Valid() && |fs.ips| == |ips| && OthersSame(fs, ips, cs, inum) &&
                         Progress(fs, inum, c, old(off), src, i)
        invariant w.Refused? ==> i < |src| && (old(off) > |c| || off + Min(CHUNK, |src| - i) > MAXBYTES)
        decreases |src| - i, if w.Wrote? then 1 else 0
      {
        w := WriteNext(fs, src, i, old(off), c, ips, cs);
        if w.Wrote? {
          i := i + Min(|src| - i, CHUNK);
        }
      }
      if w.OutOfBlocks? {
        return -2, 0;
      }
      done := i;
      Ended(fs, ips, cs, c, old(off), src, i);
      r := if i == |src| then |src| else -1;
    }

    lemma Begun(fs: Fs, ips: seq<Inode>, cs: seq<seq<Byte>>, c: seq<Byte>, at: nat, src: seq<Byte>)
      requires fs.Valid() && inum < |fs.ips| && ips == fs.ips && cs == Contents(fs, |ips|) && c == fs.File(inum)
      ensures OthersSame(fs, ips, cs, inum) && Progress(fs, inum, c, at, src, 0)
    {
    }

    lemma Ended(fs: Fs, ips: seq<Inode>, cs: seq<seq<Byte>>, c: seq<Byte>, at: nat, src: seq<Byte>, i: nat)
      requires fs.Valid() && inum < |fs.ips| && OthersSame(fs, ips, cs, inum) && i <= |src| &&
               Progress(fs, inum, c, at, src, i)
      ensures i > 0 ==> at <= |c| && fs.File(inum) == Splice(c, at, src[..i])
      ensures i == 0 ==> fs.File(inum) == c
      ensures |ips| == |cs| == |fs.ips| && forall j: nat | j < |cs| && j != inum ::
                fs.ips[j] == ips[j] && fs.File(j) == cs[j]
    {
    }

    /** One round of filewrite's loop. */
    method WriteNext(fs: Fs, src: seq<Byte>, i: nat, ghost at: nat, ghost c: seq<Byte>, ghost ips: seq<Inode>,
                     ghost cs: seq<seq<Byte>>) returns (w: WriteResult)
      requires fs.Valid() && inum < |fs.ips| && i < |src| < TWO32 && off == at + i
      requires OthersSame(fs, ips, cs, inum) && Progress(fs, inum, c, at, src, i)
      modifies this, fs
      ensures var n := Min(|src| - i, CHUNK);
              match w
              case OutOfBlocks => fs.Full() && off == old(off)
              case Refused =>
                && fs.Valid() && |fs.ips| == |ips| && OthersSame(fs, ips, cs, inum) && inum < |fs.ips| &&
                     Progress(fs, inum, c, at, src, i)
                && off == old(off) && (at > |c| || off + n > MAXBYTES)
              case Wrote(_) =>
                && fs.Valid() && |fs.ips| == |ips| && OthersSame(fs, ips, cs, inum) && inum < |fs.ips| &&
                     Progress(fs, inum, c, at, src, i + n)
                && off == old(off) + n
    {
      hide Fs.Valid, Fs.Full, Fs.File, Splice, Fs.LogsWithin;
      var n := Min(|src| - i, CHUNK);
      ghost var before := fs.File(inum);
      Reached(c, at, src, i, before);
      w := WriteChunk(fs, src[i..i + n]);
      if w.Wrote? {
        Joined(c, at, src, i, n, before, fs.File(inum));
      }
    }
  }
}
