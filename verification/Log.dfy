/** The log as a data structure over the buffer cache (log.c): commit and recovery
    issue exactly the writes whose crash behaviour RedoLog analyses. */
module Log {
  import opened Blocks
  import opened BufferCache
  import opened RedoLog

  ghost function ToSet(s: seq<nat>): (r: set<nat>) {
    set x | x in s
  }

  /** A sequence has at most as many distinct elements as positions. */
  lemma {:induction false} DistinctAtMost(s: seq<nat>)
    ensures |ToSet(s)| <= |s|
  {
    if s == [] {
      assert ToSet(s) == {};
    } else {
      var k := |s| - 1;
      DistinctAtMost(s[..k]);
      assert ToSet(s) == ToSet(s[..k]) + {s[k]};
    }
  }

  /** The contents of the given blocks. */
  ghost function Gather(view: Disk, blocks: seq<nat>): (datas: seq<Block>)
    requires forall i | 0 <= i < |blocks| :: blocks[i] < |view|
    ensures |datas| == |blocks| && forall i | 0 <= i < |blocks| :: datas[i] == view[blocks[i]]
  {
    seq(|blocks|, i requires 0 <= i < |blocks| => view[blocks[i]])
  }

  /** The first k writes of ws have gone through the cache to the disk. */
  ghost predicate Replay(d0: Disk, v0: Disk, w0: seq<Write>, ws: seq<Write>, k: nat, d: Disk, v: Disk, w: seq<Write>)
    requires InRange(d0, ws) && InRange(v0, ws) && k <= |ws|
  {
    w == w0 + ws[..k] && d == Apply(d0, ws, k) && v == Apply(v0, ws, k)
  }

  lemma ReplayNone(d: Disk, v: Disk, w: seq<Write>, ws: seq<Write>)
    requires InRange(d, ws) && InRange(v, ws)
    ensures Replay(d, v, w, ws, 0, d, v, w)
  {
  }

  lemma ReplayStep(d0: Disk, v0: Disk, w0: seq<Write>, ws: seq<Write>, k: nat, d: Disk, v: Disk, w: seq<Write>)
    requires InRange(d0, ws) && InRange(v0, ws) && k < |ws| && Replay(d0, v0, w0, ws, k, d, v, w)
    ensures var x := ws[k];
            x.blockno < |d| == |d0| && |v| == |v0| && x.blockno < |v| &&
              Replay(d0, v0, w0, ws, k + 1, d[x.blockno := x.data], v[x.blockno := x.data], w + [x])
  {
    assert ws[..k + 1] == ws[..k] + [ws[k]];
  }

  lemma ReplayAll(d0: Disk, v0: Disk, w0: seq<Write>, ws: seq<Write>, d: Disk, v: Disk, w: seq<Write>)
    requires InRange(d0, ws) && InRange(v0, ws) && Replay(d0, v0, w0, ws, |ws|, d, v, w)
    ensures w == w0 + ws && d == ApplyAll(d0, ws) && v == ApplyAll(v0, ws)
  {
    assert ws[..|ws|] == ws;
  }

  datatype WriteResult = Logged | TooBig | OutsideTransaction

  /** Log absorption: a block is recorded once per transaction. */
  ghost function Absorb(blocks: seq<nat>, b: nat): (r: seq<nat>)
    ensures blocks <= r && ToSet(r) == ToSet(blocks) + {b} && (b in blocks ==> |r| == |blocks|)
    ensures (forall i, j | 0 <= i < j < |blocks| :: blocks[i] != blocks[j]) ==>
              forall i, j | 0 <= i < j < |r| :: r[i] != r[j]
  {
    if b in blocks then blocks else blocks + [b]
  }

  class KernelLog {
    const bc: Bcache
    const l: Layout
    var n: nat                 // lh.n
    const block: array<nat>    // lh.block
    var outstanding: nat
    var committing: bool

    /** The transaction that a commit would write: logged blocks with their latest contents. */
    ghost function Current(): (t: Transaction)
      reads this, block, bc, bc.buf
      requires Shape()
    {
      Transaction(block[..n], Gather(bc.view, block[..n]), Header(bc.view[l.start], block[..n]))
    }

    /** The image has at most NBUF log blocks (mkfs.c: nlog = LOGSIZE = NBUF). */
    ghost predicate Shape()
      reads this, block, bc, bc.buf
    {
      && bc.Valid()
      && block.Length == LOGSIZE
      && Fits(bc.disk, l) && l.size <= NBUF
      && n <= LOGSIZE
      && HomeBlocks(bc.disk, l, block[..n])
    }

    /** Buffer i is held by a process that only reads, such as fileread outside any transaction. */
    ghost predicate Reader(i: nat, held: set<nat>)
      reads this, block, bc, bc.buf
      requires Shape() && i < NBUF
    {
      var b := bc.buf[i];
      b.blockno in held && !b.dirty && (b.valid ==> b.blockno < |bc.disk| && b.data == bc.disk[b.blockno])
    }

    /** Buffers are held by readers of the given blocks only, none of them logged, and only logged blocks
        from position `from` on are dirty. */
    ghost predicate Quiet(from: nat, held: set<nat>)
      reads this, block, bc, bc.buf
      requires Shape() && from <= n
    {
      && (forall x | x in held :: !l.InLog(x) && x !in block[..n])
      && forall i: nat | i < NBUF ::
           && (bc.buf[i].busy ==> Reader(i, held))
           && (bc.buf[i].dirty ==> bc.buf[i].blockno in block[from..n])
    }

    /** The readers leave enough buffers, so that bget does not panic. */
    ghost predicate Room(held: set<nat>)
      reads this
    {
      n + |held| < NBUF
    }

    /** The cache and the disk have the same blocks. */
    lemma SameBlocks()
      requires Shape()
      ensures |bc.view| == |bc.disk|
    {
    }

    /** initlog: recovery runs before anything else. */
    constructor (bc: Bcache, l: Layout)
      requires bc.Valid() && WellFormed(bc.disk, l) && l.size <= NBUF
      requires forall i | 0 <= i < NBUF :: Clean(bc.buf[i])
      modifies bc, bc.buf
      ensures this.bc == bc && this.l == l && n == 0 && outstanding == 0 && !committing
      ensures fresh(block) && Shape() && Quiet(0, {}) && EmptyLog(bc.disk, l)
      ensures bc.disk == Recovered(old(bc.disk), l) && bc.view == bc.disk
      ensures bc.writes == old(bc.writes) + RecoveryWrites(old(bc.disk), l)
    {
      this.bc := bc;
      this.l := l;
      n := 0;
      block := new nat[LOGSIZE](_ => 0);
      outstanding := 0;
      committing := false;
      new;
      hide Bcache.Inv, LoggedN, LoggedBlocks, Recovered, RecoveryWrites;
      RecoveredHome(bc.disk, l);
      Recover();
    }

    /** bread with no other holder of the block and few enough pinned blocks: it cannot
        sleep and cannot run out of buffers. */
    method Take(b: nat, ghost pinned: set<nat>) returns (i: nat)
      requires bc.Valid() && b < |bc.disk|
      requires bc.Cached(ROOTDEV, b) ||
               (|pinned| < NBUF && forall j | 0 <= j < NBUF && !Clean(bc.buf[j]) :: bc.buf[j].blockno in pinned)
      requires forall j | 0 <= j < NBUF && bc.buf[j].busy :: bc.buf[j].blockno != b
      modifies bc`disk, bc`writes, bc.buf
      ensures bc.Valid() && bc.disk == old(bc.disk) && bc.writes == old(bc.writes)
      ensures i < NBUF && bc.buf[i].busy && bc.buf[i].valid && bc.buf[i].blockno == b && bc.buf[i].data == bc.view[b]
      ensures bc.buf[i].dirty ==> old(bc.buf[i]).dirty && old(bc.buf[i]).blockno == b
      ensures bc.buf[i].dirty || bc.buf[i].data == bc.disk[b]
      ensures !old(bc.buf[i]).busy
      ensures forall j | 0 <= j < NBUF && j != i :: bc.buf[j] == old(bc.buf[j])
    {
      if !bc.Cached(ROOTDEV, b) {
        SomeRecyclable(bc.buf[..], |bc.disk|, pinned);
      }
      var r := bc.Bread(ROOTDEV, b);
      i := r.i;
    }

    /** Buffer i holds slot `tail`, buffer h its home block, and only readers hold others. */
    ghost predicate Holding(i: nat, h: nat, tail: nat, from: nat, held: set<nat>)
      reads this, block, bc, bc.buf
      requires Shape() && from <= tail < n
    {
      && i < NBUF && h < NBUF && i != h
      && bc.buf[i].busy && bc.buf[i].valid && bc.buf[i].blockno == l.start + 1 + tail
      && bc.buf[h].busy && bc.buf[h].valid && bc.buf[h].blockno == block[tail]
      && bc.buf[i].data == bc.view[l.start + 1 + tail] && bc.buf[h].data == bc.view[block[..n][tail]]
      && !bc.buf[i].dirty && bc.buf[i].data == bc.disk[l.start + 1 + tail]
      && (bc.buf[h].dirty || bc.buf[h].data == bc.disk[block[..n][tail]])
      && (forall x | x in held :: !l.InLog(x) && x !in block[..n])
      && forall j: nat | j < NBUF && j != i && j != h ::
           && (bc.buf[j].busy ==> Reader(j, held))
           && (bc.buf[j].dirty ==> bc.buf[j].blockno in block[from..n] && bc.buf[j].blockno != block[tail])
    }

    /** The two breads that write_log and install_trans start with. Only logged blocks are
        pinned, and there are fewer of them than buffers, so neither can fail. */
    method TakePair(tail: nat, ghost from: nat, ghost held: set<nat>) returns (i: nat, h: nat)
      requires Shape() && from <= tail < n && Quiet(from, held) && Room(held)
      modifies bc`disk, bc`writes, bc.buf
      ensures Shape() && Holding(i, h, tail, from, held)
      ensures bc.disk == old(bc.disk) && bc.writes == old(bc.writes)
    {
      hide Bcache.Inv, ToSet;
      ghost var pinned := Pinned(from, tail, held);
      i := Take(l.start + 1 + tail, pinned);
      h := Take(block[tail], pinned - {block[tail]} + {l.start + 1 + tail});
      bc.SoleHolder(h);
    }

    lemma AllPinned(held: set<nat>) returns (pinned: set<nat>)
      requires Shape() && Quiet(0, held) && Room(held)
      ensures |pinned| < NBUF && forall j | 0 <= j < NBUF && !Clean(bc.buf[j]) :: bc.buf[j].blockno in pinned
    {
      hide Bcache.Inv;
      pinned := ToSet(block[0..n]) + held;
      DistinctAtMost(block[0..n]);
    }

    /** The blocks of buffers that are dirty or held: fewer than there are buffers, none in the log. */
    lemma Pinned(from: nat, tail: nat, held: set<nat>) returns (pinned: set<nat>)
      requires Shape() && from <= tail < n && Quiet(from, held) && Room(held)
      ensures |pinned| < NBUF && block[tail] in pinned && block[tail] < |bc.disk| &&
              (forall x | x in pinned :: !l.InLog(x))
      ensures forall j | 0 <= j < NBUF && !Clean(bc.buf[j]) :: bc.buf[j].blockno in pinned
    {
      hide Bcache.Inv;
      pinned := ToSet(block[from..n]) + held;
      DistinctAtMost(block[from..n]);
      assert block[from..n][tail - from] == block[tail] == block[..n][tail];
      forall x | x in block[from..n] ensures !l.InLog(x) {
        var k :| 0 <= k < n - from && block[from..n][k] == x;
        assert block[..n][from + k] == x;
      }
    }

    /** memmove into a held buffer, then bwrite. */
    method Store(i: nat, data: Block)
      requires bc.Valid() && i < NBUF && bc.buf[i].busy && bc.buf[i].valid
      modifies bc`view, bc`disk, bc`writes, bc.buf
      ensures bc.Valid()
      ensures bc.buf[i] == old(bc.buf[i]).(data := data, dirty := false)
      ensures forall j | 0 <= j < NBUF && j != i :: bc.buf[j] == old(bc.buf[j])
      ensures bc.buf[i].blockno < |old(bc.disk)|
      ensures bc.view == old(bc.view)[bc.buf[i].blockno := data]
      ensures bc.disk == old(bc.disk)[bc.buf[i].blockno := data]
      ensures bc.writes == old(bc.writes) + [Write(bc.buf[i].blockno, data)]
    {
      hide Bcache.Inv;
      bc.SetData(i, data);
      bc.Bwrite(i);
    }

    /** Buffers i and h can be given back: what they hold is on disk, or they are dirty and logged. */
    ghost predicate Settled(i: nat, h: nat, from: nat, held: set<nat>)
      reads this, block, bc, bc.buf
      requires Shape() && from <= n
    {
      && i < NBUF && h < NBUF && i != h
      && (forall x | x in held :: !l.InLog(x) && x !in block[..n])
      && (forall j: nat | j == i || j == h ::
            var b := bc.buf[j];
            && b.busy && b.valid && b.blockno < |bc.disk|
            && if b.dirty then b.blockno in block[from..n] else b.data == bc.disk[b.blockno])
      && forall j: nat | j < NBUF && j != i && j != h ::
           && (bc.buf[j].busy ==> Reader(j, held))
           && (bc.buf[j].dirty ==> bc.buf[j].blockno in block[from..n])
    }

    /** The two brelses that both loops end with. */
    method ReleasePair(i: nat, h: nat, ghost from: nat, ghost held: set<nat>)
      requires Shape() && from <= n && Settled(i, h, from, held)
      modifies bc, bc.buf
      ensures Shape() && Quiet(from, held)
      ensures bc.view == old(bc.view) && bc.disk == old(bc.disk) && bc.writes == old(bc.writes)
    {
      hide Bcache.Inv, ToSet, LoggedBlocks, GetWord;
      bc.Brelse(i);
      bc.Brelse(h);
    }

    /** Body of write_log's loop: cache block to log slot. */
    method WriteSlot(tail: nat, ghost held: set<nat>)
      requires Shape() && Quiet(0, held) && Room(held) && tail < n
      modifies bc, bc.buf
      ensures Shape() && Quiet(0, held)
      ensures bc.view == old(bc.view)[l.start + 1 + tail := old(bc.view)[block[tail]]]
      ensures bc.disk == old(bc.disk)[l.start + 1 + tail := old(bc.view)[block[tail]]]
      ensures bc.writes == old(bc.writes) + [Write(l.start + 1 + tail, old(bc.view)[block[tail]])]
    {
      hide Bcache.Inv, ToSet, LoggedBlocks, GetWord;
      assert block[0..n] == block[..n] && block[..n][tail] == block[tail];
      var to, from := TakePair(tail, 0, held);
      Store(to, bc.buf[from].data);
      ReleasePair(from, to, 0, held);
    }

    /** write_log: copy every logged block from the cache to its slot. */
    method WriteLog(ghost held: set<nat>)
      requires Shape() && Quiet(0, held) && Room(held)
      modifies bc, bc.buf
      ensures Shape() && Quiet(0, held)
      ensures InRange(old(bc.disk), LogSlotWrites(l, old(Current().datas)))
      ensures bc.writes == old(bc.writes) + LogSlotWrites(l, old(Current().datas))
      ensures bc.disk == ApplyAll(old(bc.disk), LogSlotWrites(l, old(Current().datas)))
      ensures bc.view == ApplyAll(old(bc.view), LogSlotWrites(l, old(Current().datas)))
    {
      hide Bcache.Valid, Header, KernelLog.Quiet, GetWord, Replay;
      SameBlocks();
      ghost var datas := Current().datas;
      ghost var d0, v0, w0, ws := bc.disk, bc.view, bc.writes, LogSlotWrites(l, datas);
      ReplayNone(d0, v0, w0, ws);
      var tail := 0;
      while tail < n
        invariant 0 <= tail <= n && Shape() && Quiet(0, held) && |bc.view| == |v0|
        invariant forall i | 0 <= i < n :: bc.view[block[i]] == datas[i]
        invariant Replay(d0, v0, w0, ws, tail, bc.disk, bc.view, bc.writes)
      {
        ReplayStep(d0, v0, w0, ws, tail, bc.disk, bc.view, bc.writes);
        assert forall i | 0 <= i < n :: block[i] == block[..n][i];
        WriteSlot(tail, held);
        tail := tail + 1;
      }
      ReplayAll(d0, v0, w0, ws, bc.disk, bc.view, bc.writes);
    }

    /** Body of install_trans's loop: log slot to home block. */
    method InstallSlot(tail: nat, ghost held: set<nat>)
      requires Shape() && tail < n && Quiet(tail, held) && Room(held)
      modifies bc, bc.buf
      ensures Shape() && Quiet(tail + 1, held)
      ensures bc.view == old(bc.view)[block[tail] := old(bc.view)[l.start + 1 + tail]]
      ensures bc.disk == old(bc.disk)[block[tail] := old(bc.view)[l.start + 1 + tail]]
      ensures bc.writes == old(bc.writes) + [Write(block[tail], old(bc.view)[l.start + 1 + tail])]
    {
      hide Bcache.Inv;
      var lbuf, dbuf := TakePair(tail, tail, held);
      assert block[tail..n] == [block[tail]] + block[tail + 1..n];
      Store(dbuf, bc.buf[lbuf].data);
      ReleasePair(lbuf, dbuf, tail + 1, held);
    }

    /** install_trans: copy every slot to its home block. */
    method InstallTrans(ghost held: set<nat>)
      requires Shape() && Quiet(0, held) && Room(held)
      modifies bc, bc.buf
      ensures Shape() && Quiet(n, held)
      ensures var ws := InstallWrites(block[..n], Slots(old(bc.view), l, n));
              && InRange(old(bc.disk), ws) && bc.writes == old(bc.writes) + ws
              && bc.disk == ApplyAll(old(bc.disk), ws) && bc.view == ApplyAll(old(bc.view), ws)
    {
      hide Bcache.Valid, Header, KernelLog.Quiet, GetWord, Replay;
      SameBlocks();
      ghost var d0, v0, w0 := bc.disk, bc.view, bc.writes;
      ghost var ws := InstallWrites(block[..n], Slots(v0, l, n));
      ReplayNone(d0, v0, w0, ws);
      var tail := 0;
      while tail < n
        invariant 0 <= tail <= n && Shape() && Quiet(tail, held) && |bc.view| == |v0|
        invariant forall b: nat | l.InLog(b) :: bc.view[b] == v0[b]
        invariant Replay(d0, v0, w0, ws, tail, bc.disk, bc.view, bc.writes)
      {
        ReplayStep(d0, v0, w0, ws, tail, bc.disk, bc.view, bc.writes);
        assert block[tail] == block[..n][tail];
        assert ws[tail] == Write(block[tail], bc.view[l.start + 1 + tail]);
        InstallSlot(tail, held);
        tail := tail + 1;
      }
      ReplayAll(d0, v0, w0, ws, bc.disk, bc.view, bc.writes);
    }

    /** The in-memory header stored over a block. */
    method HeadBlock(b: Block) returns (hb: Block)
      requires Shape()
      ensures hb == Header(b, block[..n])
    {
      hide Bcache.Valid, PutWord, GetWord;
      ghost var blocks := block[..n];
      hb := PutWord(b, 0, n);
      ghost var hb0 := hb;
      var i := 0;
      while i < n
        invariant 0 <= i <= n && hb == PutBlocks(hb0, blocks, i)
      {
        assert block[i] == blocks[i];
        hb := PutWord(hb, 1 + i, block[i]);
        i := i + 1;
      }
    }

    /** write_head: store the in-memory header and write it; the commit point. */
    method WriteHead(ghost held: set<nat>)
      requires Shape() && Quiet(0, held) && Room(held)
      modifies bc, bc.buf
      ensures Shape() && Quiet(0, held)
      ensures var h := Header(old(bc.view)[l.start], block[..n]);
              && bc.view == old(bc.view)[l.start := h] && bc.disk == old(bc.disk)[l.start := h]
              && bc.writes == old(bc.writes) + [Write(l.start, h)]
    {
      hide Bcache.Inv, Header, GetWord, PutWord, ToSet, LoggedBlocks;
      ghost var pinned := AllPinned(held);
      var buf := Take(l.start, pinned);
      var hb := HeadBlock(bc.buf[buf].data);
      Store(buf, hb);
      bc.Brelse(buf);
    }

    /** read_head: load the header of a well-formed log. */
    method ReadHead()
      requires Shape() && Quiet(0, {}) && n == 0 && WellFormed(bc.view, l)
      modifies this`n, block, bc, bc.buf
      ensures Shape() && Quiet(n, {})
      ensures bc.view == old(bc.view) && bc.disk == old(bc.disk) && bc.writes == old(bc.writes)
      ensures n == LoggedN(bc.view[l.start]) && block[..n] == LoggedBlocks(bc.view[l.start])
    {
      hide Bcache.Inv, LoggedN, LoggedBlocks;
      var buf := Take(l.start, {});
      LoadHead(bc.buf[buf].data);
      bc.Brelse(buf);
    }

    /** read_head's loop. */
    method LoadHead(lh: Block)
      requires block.Length == LOGSIZE && LoggedN(lh) <= LOGSIZE
      modifies this`n, block
      ensures n == LoggedN(lh) && block[..n] == LoggedBlocks(lh)
    {
      hide GetWord;
      ghost var blocks := LoggedBlocks(lh);
      n := GetWord(lh, 0);
      var i := 0;
      while i < n
        invariant 0 <= i <= n == |blocks| && block[..i] == blocks[..i]
      {
        EntryAt(lh, n, i);
        block[i] := GetWord(lh, 1 + i);
        i := i + 1;
      }
      assert block[..n] == blocks;
    }

    /** Blocks that are not dirty read the same from the cache and from the disk. */
    lemma ViewIsDisk(from: nat, held: set<nat>)
      requires Shape() && from <= n && Quiet(from, held)
      ensures forall b: nat | b < |bc.disk| && b !in block[from..n] :: bc.view[b] == bc.disk[b]
      ensures forall b: nat | l.InLog(b) :: bc.view[b] == bc.disk[b]
    {
      hide InList;
      forall b: nat | b < |bc.disk| && b !in block[from..n] ensures bc.view[b] == bc.disk[b] {
        if CachedIn(bc.buf[..], b) {
          var i :| 0 <= i < NBUF && bc.buf[..][i].valid && bc.buf[..][i].blockno == b;
          assert bc.buf[i].busy ==> Reader(i, held);
          assert Clean(bc.buf[..][i]) || bc.buf[i].busy;
        }
      }
      forall k | from <= k < n ensures !l.InLog(block[k]) {
        assert block[..n][k] == block[k];
      }
    }

    /** First half of commit: fill the slots, then write the header. */
    method LogAndMark(ghost held: set<nat>)
      requires Shape() && Quiet(0, held) && Room(held)
      modifies bc, bc.buf
      ensures Shape() && Quiet(0, held)
      ensures ValidTransaction(old(bc.disk), l, old(Current()))
      ensures bc.disk == CommitPoint(old(bc.disk), l, old(Current()))
      ensures bc.view == CommitPoint(old(bc.view), l, old(Current()))
      ensures bc.writes == old(bc.writes) + MarkWrites(old(bc.disk), l, old(Current()))
    {
      hide Bcache.Inv, Header, PutWord, GetWord, KernelLog.Quiet;
      ghost var t, v, d := Current(), bc.view, bc.disk;
      WriteLog(held);
      ApplyUntouched(v, LogSlotWrites(l, t.datas), n, l.start);
      WriteHead(held);
      AtCommitPoint(v, l, t);
      AtCommitPoint(d, l, t);
    }

    /** Second half of commit, and all of recovery: install what is in the log and clear it. */
    method InstallAndClear(ghost held: set<nat>)
      requires Shape() && Quiet(0, held) && Room(held)
      requires WellFormed(bc.view, l) && WellFormed(bc.disk, l) && Pending(bc.view, l) == Pending(bc.disk, l)
      requires bc.view[l.start] == bc.disk[l.start] && block[..n] == LoggedBlocks(bc.disk[l.start])
      modifies this`n, bc, bc.buf
      ensures Shape() && n == 0 && Quiet(0, held)
      ensures bc.disk == Recovered(old(bc.disk), l) && bc.view == Recovered(old(bc.view), l)
      ensures bc.writes == old(bc.writes) + RecoveryWrites(old(bc.disk), l)
    {
      hide Bcache.Inv, PutWord, GetWord;
      ghost var v, d := bc.view, bc.disk;
      InstallTrans(held);
      HomeWritesKeepLog(v, l, Pending(v, l), n);
      n := 0;
      WriteHead(held);
      RecoveredHome(v, l);
      RecoveredHome(d, l);
    }

    /** recover_from_log, on a cache that holds nothing yet. */
    method Recover()
      requires Shape() && Quiet(0, {}) && n == 0 && WellFormed(bc.disk, l)
      modifies this`n, block, bc, bc.buf
      ensures Shape() && n == 0 && Quiet(0, {})
      ensures bc.disk == Recovered(old(bc.disk), l) && bc.view == bc.disk
      ensures bc.writes == old(bc.writes) + RecoveryWrites(old(bc.disk), l)
    {
      hide Bcache.Inv, PutWord, GetWord;
      ViewIsDisk(0, {});
      assert bc.view == bc.disk;
      ReadHead();
      InstallAndClear({});
    }

    /** commit: exactly the writes of `CommitWrites`, ending with an empty log, and with no
        change to what clients see. */
    method Commit(ghost held: set<nat>)
      requires Shape() && Quiet(0, held) && Room(held)
      modifies this`n, bc, bc.buf
      ensures Shape() && n == 0 && Quiet(0, held)
      ensures SameHome(bc.view, old(bc.view), l)
      ensures ValidTransaction(old(bc.disk), l, old(Current()))
      ensures bc.writes == old(bc.writes) + CommitWrites(old(bc.disk), l, old(Current()))
      ensures bc.disk == ApplyAll(old(bc.disk), CommitWrites(old(bc.disk), l, old(Current())))
    {
      hide Bcache.Inv, GetWord, Header, CommitPoint, Pending, RecoveryWrites, Recovered, MarkWrites, InstallWrites;
      ghost var t, v, d := Current(), bc.view, bc.disk;
      if n > 0 {
        LogAndMark(held);
        CommitPointHeader(v, l, t);
        CommitPointHeader(d, l, t);
        InstallAndClear(held);
        CommitStages(d, l, t);
        CommitKeepsView(v, l, t);
      }
    }

    /** The whole transaction applied to the disk is what clients see now. */
    lemma EffectIsView(held: set<nat>)
      requires Shape() && Quiet(0, held)
      ensures ValidTransaction(bc.disk, l, Current())
      ensures SameHome(Effect(bc.disk, Current()), bc.view, l)
    {
      hide Bcache.Inv, GetWord, Header, Apply;
      var t := Current();
      var ws := InstallWrites(t.blocks, t.datas);
      ViewIsDisk(0, held);
      forall b: nat | b < |bc.disk| && !l.InLog(b) ensures Effect(bc.disk, t)[b] == bc.view[b] {
        if b in block[0..n] {
          var k :| 0 <= k < n && block[k] == b;
          assert ws[k].blockno == b;
          ApplyUniform(bc.disk, ws, |ws|, b, bc.view[b]);
        } else {
          assert forall i | 0 <= i < |ws| :: ws[i].blockno in block[0..n];
          ApplyUntouched(bc.disk, ws, |ws|, b);
        }
      }
    }

    /** Crash atomicity of the running log: wherever commit() stops, recovery brings back
        either the disk from before or everything that clients see. */
    lemma CommitIsAtomic(k: nat, held: set<nat>)
      requires Shape() && Quiet(0, held) && EmptyLog(bc.disk, l)
      requires ValidTransaction(bc.disk, l, Current()) && k <= |CommitWrites(bc.disk, l, Current())|
      ensures WellFormed(Apply(bc.disk, CommitWrites(bc.disk, l, Current()), k), l)
      ensures SameHome(Recovered(Apply(bc.disk, CommitWrites(bc.disk, l, Current()), k), l),
                       if Durable(Current(), k) then bc.view else bc.disk, l)
    {
      hide Bcache.Inv, GetWord, Header, Apply, CommitWrites, WellFormed, Recovered, Effect;
      EffectIsView(held);
      CommitCrash(bc.disk, l, Current(), k);
    }

    /** log_write: record the block once and pin its buffer, unless the log is full. */
    method LogWrite(i: nat) returns (r: WriteResult)
      requires Shape() && i < NBUF && bc.buf[i].busy && bc.buf[i].valid && !l.InLog(bc.buf[i].blockno)
      modifies this`n, block, bc.buf
      ensures Shape()
      ensures r.TooBig? <==> old(n) >= LOGSIZE || old(n) >= l.size - 1
      ensures r.OutsideTransaction? ==> outstanding < 1
      ensures r.Logged? ==> outstanding >= 1
      ensures r.Logged? ==> block[..n] == Absorb(old(block[..n]), old(bc.buf[i]).blockno)
      ensures r.Logged? ==> bc.buf[..] == old(bc.buf[..])[i := old(bc.buf[i]).(dirty := true)]
      ensures !r.Logged? ==> n == old(n) && block[..] == old(block[..]) && bc.buf[..] == old(bc.buf[..])
    {
      hide Bcache.Inv;
      if n >= LOGSIZE || n >= l.size - 1 {
        return TooBig;
      }
      if outstanding < 1 {
        return OutsideTransaction;
      }
      ghost var blocks, b := block[..n], bc.buf[i].blockno;
      var k := 0;
      while k < n && block[k] != bc.buf[i].blockno
        invariant 0 <= k <= n && b !in blocks[..k]
      {
        k := k + 1;
      }
      block[k] := bc.buf[i].blockno;
      if k == n {
        assert blocks[..k] == blocks;
        n := n + 1;
        assert block[..n] == blocks + [b];
      } else {
        assert blocks[k] == b;
        assert block[..n] == blocks;
      }
      bc.MarkDirty(i);
      return Logged;
    }

    /** A block is read, changed, logged and released, as every operation of the file system does it:
        only logged blocks are dirty again, and clients see the new contents although no block has
        been written. */
    method Update(b: nat, data: Block, ghost held: set<nat>) returns (r: WriteResult)
      requires Shape() && Quiet(0, held) && Room(held) && b < |bc.disk| && !l.InLog(b) && b !in held
      modifies this`n, block, bc, bc.buf
      ensures Shape() && bc.disk == old(bc.disk) && bc.writes == old(bc.writes)
      ensures r.TooBig? <==> old(n) >= LOGSIZE || old(n) >= l.size - 1
      ensures r.OutsideTransaction? ==> outstanding < 1
      ensures r.Logged? ==> outstanding >= 1 && Quiet(0, held) && block[..n] == Absorb(old(block[..n]), b)
      ensures r.Logged? ==> n <= old(n) + 1 && bc.view == old(bc.view)[b := data]
    {
      hide Bcache.Valid, HomeBlocks, KernelLog.Quiet, KernelLog.Editing;
      var i := Fetch(b, data, held);
      r := LogAndRelease(i, b, held);
    }

    /** Buffer i holds block b for a writer; only readers hold others, and all others that are dirty are
        logged. */
    ghost predicate Editing(i: nat, b: nat, held: set<nat>)
      reads this, block, bc, bc.buf
      requires Shape()
    {
      && i < NBUF && bc.buf[i].busy && bc.buf[i].valid && bc.buf[i].blockno == b && !l.InLog(b) && b !in held
      && (forall x | x in held :: !l.InLog(x) && x !in block[..n])
      && forall j: nat | j < NBUF && j != i ::
           && (bc.buf[j].busy ==> Reader(j, held))
           && (bc.buf[j].dirty ==> bc.buf[j].blockno in block[..n])
    }

    /** bread, and the stores into the buffer. */
    method Fetch(b: nat, data: Block, ghost held: set<nat>) returns (i: nat)
      requires Shape() && Quiet(0, held) && Room(held) && b < |bc.disk| && !l.InLog(b) && b !in held
      modifies bc, bc.buf
      ensures Shape() && Editing(i, b, held) && bc.disk == old(bc.disk) && bc.writes == old(bc.writes)
      ensures bc.view == old(bc.view)[b := data]
    {
      hide Bcache.Inv, GetWord, LoggedBlocks;
      ghost var pinned := AllPinned(held);
      assert block[0..n] == block[..n];
      i := Take(b, pinned);
      bc.SetData(i, data);
    }

    /** log_write and brelse. */
    method LogAndRelease(i: nat, b: nat, ghost held: set<nat>) returns (r: WriteResult)
      requires Shape() && Editing(i, b, held)
      modifies this`n, block, bc, bc.buf
      ensures Shape() && bc.disk == old(bc.disk) && bc.writes == old(bc.writes) && bc.view == old(bc.view)
      ensures r.TooBig? <==> old(n) >= LOGSIZE || old(n) >= l.size - 1
      ensures r.OutsideTransaction? ==> outstanding < 1
      ensures r.Logged? ==> outstanding >= 1 && Quiet(0, held) && block[..n] == Absorb(old(block[..n]), b)
      ensures r.Logged? ==> n <= old(n) + 1
    {
      hide Bcache.Inv, HomeBlocks, GetWord, LoggedBlocks;
      r := LogWrite(i);
      if r.Logged? {
        assert block[0..n] == block[..n];
        bc.Brelse(i);
      }
    }

    /** begin_op: one pass of its loop; false means sleep and try again. */
    method BeginOp() returns (admitted: bool)
      modifies this`outstanding
      ensures admitted <==> !committing && n + (old(outstanding) + 1) * MAXOPBLOCKS <= LOGSIZE
      ensures outstanding == if admitted then old(outstanding) + 1 else old(outstanding)
    {
      if committing {
        return false;
      } else if n + (outstanding + 1) * MAXOPBLOCKS > LOGSIZE {
        return false;
      }
      outstanding := outstanding + 1;
      return true;
    }

    /** end_op: the last outstanding operation commits. */
    method EndOp(ghost held: set<nat>)
      requires Shape() && outstanding > 0 && !committing && (outstanding == 1 ==> Quiet(0, held) && Room(held))
      modifies this`outstanding, this`committing, this`n, bc, bc.buf
      ensures Shape() && !committing && outstanding == old(outstanding) - 1
      ensures ValidTransaction(old(bc.disk), l, old(Current()))
      ensures bc.writes == old(bc.writes)
                           + if outstanding == 0 then CommitWrites(old(bc.disk), l, old(Current())) else []
      ensures SameHome(bc.view, old(bc.view), l)
      ensures if outstanding == 0 then n == 0 && Quiet(0, held) else n == old(n)
    {
      hide Bcache.Inv, GetWord, Header, CommitWrites;
      outstanding := outstanding - 1;
      if outstanding == 0 {
        committing := true;
        Commit(held);
        committing := false;
      }
    }
  }
}
