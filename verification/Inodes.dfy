/** Inodes as block maps (fs.c, fs.h): direct slots, the indirect block and its entries;
    which slot owns which data block; and the bytes a file holds. */
module Inodes {
  import opened Blocks

  const NDIRECT: nat := 12
  const NINDIRECT: nat := NWORDS
  const MAXFILE: nat := NDIRECT + NINDIRECT
  const NADDRS: nat := NDIRECT + 1
  /** NDIRECT direct slots, the indirect pointer, then the entries of the indirect block. */
  const NSLOTS: nat := NADDRS + NINDIRECT

  datatype Inode = Inode(size: nat, addrs: seq<nat>)

  /** Owner of a data block: an inode number and a slot of that inode. */
  datatype Owner = Owner(inum: nat, slot: nat)

  /** The slot that maps file block bn. */
  function FileSlot(bn: nat): (s: nat)
    requires bn < MAXFILE
    ensures s < NSLOTS && s != NDIRECT
  {
    if bn < NDIRECT then bn else bn + 1
  }

  /** Block contents, inodes, and the data area [first, last). */
  datatype Image = Image(bs: seq<Block>, ips: seq<Inode>, first: nat, last: nat) {

    predicate InData(b: nat) {
      first <= b < last
    }

    ghost predicate Wf() {
      && 0 < first <= last <= |bs| < TWO32
      && (forall i: nat | i < |ips| :: |ips[i].addrs| == NADDRS)
      && (forall i: nat, t: nat | i < |ips| && t < NADDRS && ips[i].addrs[t] != 0 :: InData(ips[i].addrs[t]))
    }

    /** The block number in a slot, 0 if the slot is empty. */
    ghost function Slot(i: nat, s: nat): (b: nat)
      requires Wf() && i < |ips| && s < NSLOTS
    {
      if s < NADDRS then ips[i].addrs[s]
      else if ips[i].addrs[NDIRECT] == 0 then 0
      else GetWord(bs[ips[i].addrs[NDIRECT]], s - NADDRS)
    }

    /** Slots name blocks of the disk. */
    ghost predicate SlotsInRange(i: nat)
      requires Wf() && i < |ips|
    {
      forall s: nat | s < NSLOTS :: Slot(i, s) < |bs|
    }

    /** File byte p, in the block of its slot. */
    ghost function ByteAt(i: nat, p: nat): (x: Byte)
      requires Wf() && i < |ips| && SlotsInRange(i) && p < MAXFILE * BSIZE
    {
      assert p / BSIZE < MAXFILE;
      bs[Slot(i, FileSlot(p / BSIZE))][p % BSIZE]
    }

    /** What the file holds. */
    ghost function Content(i: nat): (c: seq<Byte>)
      requires Wf() && i < |ips| && SlotsInRange(i) && ips[i].size <= MAXFILE * BSIZE
      ensures |c| == ips[i].size && forall p | 0 <= p < |c| :: c[p] == ByteAt(i, p)
    {
      seq(ips[i].size, p requires 0 <= p < ips[i].size => ByteAt(i, p))
    }

    /** Exactly the blocks below `limit` bytes are mapped, and the indirect block if needed. */
    ghost predicate NoHoles(i: nat, limit: nat)
      requires Wf() && i < |ips|
    {
      && limit <= MAXFILE * BSIZE
      && (forall bn: nat | bn < MAXFILE :: Slot(i, FileSlot(bn)) != 0 <==> bn * BSIZE < limit)
      && (ips[i].addrs[NDIRECT] != 0 <==> NDIRECT * BSIZE < limit)
    }

    /** Every non-empty slot owns its block, and every owned block is in its owner's slot. */
    ghost predicate Owned(own: map<nat, Owner>) {
      && Wf()
      && (forall i: nat, s: nat | i < |ips| && s < NSLOTS && Slot(i, s) != 0 ::
            Slot(i, s) in own && own[Slot(i, s)] == Owner(i, s))
      && (forall b | b in own :: InData(b) && own[b].inum < |ips| && own[b].slot < NSLOTS
                                 && Slot(own[b].inum, own[b].slot) == b)
    }
  }

  /** No block is in two slots. */
  lemma OneOwner(m: Image, own: map<nat, Owner>, i: nat, s: nat, j: nat, t: nat)
    requires m.Owned(own)
    requires i < |m.ips| && j < |m.ips| && s < NSLOTS && t < NSLOTS
    requires m.Slot(i, s) == m.Slot(j, t) != 0
    ensures i == j && s == t
  {
    assert own[m.Slot(i, s)] == Owner(i, s) && own[m.Slot(j, t)] == Owner(j, t);
  }

  lemma OwnedInData(m: Image, own: map<nat, Owner>)
    requires m.Owned(own)
    ensures forall b | b in own :: m.InData(b)
  {
  }

  lemma OwnedInRange(m: Image, own: map<nat, Owner>)
    requires m.Owned(own)
    ensures m.Wf() && forall i: nat | i < |m.ips| :: m.SlotsInRange(i)
  {
  }

  /** Slots depend on the inodes and on the contents of indirect blocks only. */
  lemma SlotsKept(m: Image, cs: seq<Block>, own: map<nat, Owner>)
    requires m.Owned(own) && |cs| == |m.bs|
    requires forall i: nat | i < |m.ips| && m.ips[i].addrs[NDIRECT] != 0 ::
               cs[m.ips[i].addrs[NDIRECT]] == m.bs[m.ips[i].addrs[NDIRECT]]
    ensures m.(bs := cs).Owned(own)
    ensures forall i: nat, s: nat | i < |m.ips| && s < NSLOTS :: m.(bs := cs).Slot(i, s) == m.Slot(i, s)
  {
    hide GetWord;
    var c := m.(bs := cs);
    assert c.Wf();
    forall i: nat, s: nat | i < |m.ips| && s < NSLOTS ensures c.Slot(i, s) == m.Slot(i, s) {
    }
  }

  /** Blocks that nobody owns, and blocks outside the data area, hold no slots. */
  lemma UnownedWrite(m: Image, cs: seq<Block>, own: map<nat, Owner>)
    requires m.Owned(own) && |cs| == |m.bs|
    requires forall b: nat | b in own :: cs[b] == m.bs[b]
    ensures m.(bs := cs).Owned(own)
    ensures forall i: nat, s: nat | i < |m.ips| && s < NSLOTS :: m.(bs := cs).Slot(i, s) == m.Slot(i, s)
  {
    hide GetWord;
    forall i: nat | i < |m.ips| && m.ips[i].addrs[NDIRECT] != 0 ensures m.ips[i].addrs[NDIRECT] in own {
      assert m.Slot(i, NDIRECT) != 0;
    }
    SlotsKept(m, cs, own);
  }

  /** Writing file data into a block whose owner is not an indirect pointer changes no slot. */
  lemma DataWrite(m: Image, b: nat, data: Block, own: map<nat, Owner>)
    requires m.Owned(own) && b in own && own[b].slot != NDIRECT
    ensures m.(bs := m.bs[b := data]).Owned(own)
    ensures forall i: nat, s: nat | i < |m.ips| && s < NSLOTS :: m.(bs := m.bs[b := data]).Slot(i, s) == m.Slot(i, s)
  {
    hide GetWord;
    forall i: nat | i < |m.ips| && m.ips[i].addrs[NDIRECT] != 0 ensures m.ips[i].addrs[NDIRECT] != b {
      assert m.Slot(i, NDIRECT) == m.ips[i].addrs[NDIRECT];
    }
    SlotsKept(m, m.bs[b := data], own);
  }

  /** Linking a fresh block into an empty direct slot. */
  lemma LinkDirect(m: Image, i: nat, t: nat, b: nat, own: map<nat, Owner>)
    requires m.Owned(own) && i < |m.ips| && t < NDIRECT && m.ips[i].addrs[t] == 0
    requires m.InData(b) && b !in own
    ensures var r := m.(ips := m.ips[i := m.ips[i].(addrs := m.ips[i].addrs[t := b])]);
            && r.Owned(own[b := Owner(i, t)])
            && forall j: nat, s: nat | j < |m.ips| && s < NSLOTS :: r.Slot(j, s) == if j == i && s == t then b
                 else m.Slot(j, s)
  {
    hide GetWord;
    var r := m.(ips := m.ips[i := m.ips[i].(addrs := m.ips[i].addrs[t := b])]);
    assert r.Wf();
    forall j: nat, s: nat | j < |m.ips| && s < NSLOTS
      ensures r.Slot(j, s) == if j == i && s == t then b else m.Slot(j, s)
    {
    }
  }

  /** Linking a fresh, zeroed block as the indirect block: its entries are still empty. */
  lemma LinkIndirect(m: Image, i: nat, b: nat, own: map<nat, Owner>)
    requires m.Owned(own) && i < |m.ips| && m.ips[i].addrs[NDIRECT] == 0
    requires m.InData(b) && b !in own && m.bs[b] == ZeroBlock()
    ensures var r := m.(ips := m.ips[i := m.ips[i].(addrs := m.ips[i].addrs[NDIRECT := b])]);
            && r.Owned(own[b := Owner(i, NDIRECT)])
            && forall j: nat, s: nat | j < |m.ips| && s < NSLOTS ::
                 r.Slot(j, s) == if j == i && s == NDIRECT then b else m.Slot(j, s)
  {
    var r := m.(ips := m.ips[i := m.ips[i].(addrs := m.ips[i].addrs[NDIRECT := b])]);
    assert r.Wf();
    forall e: nat | e < NINDIRECT ensures GetWord(r.bs[b], e) == 0 {
      ZeroWords(e);
    }
    hide GetWord;
    forall j: nat, s: nat | j < |m.ips| && s < NSLOTS
      ensures r.Slot(j, s) == if j == i && s == NDIRECT then b else m.Slot(j, s)
    {
    }
  }

  /** Linking a fresh block into an empty entry of the indirect block. */
  lemma LinkEntry(m: Image, i: nat, e: nat, b: nat, own: map<nat, Owner>)
    requires m.Owned(own) && i < |m.ips| && e < NINDIRECT && m.ips[i].addrs[NDIRECT] != 0 && m.Slot(i, NADDRS + e) == 0
    requires m.InData(b) && b !in own
    ensures var ind := m.ips[i].addrs[NDIRECT];
            var r := m.(bs := m.bs[ind := PutWord(m.bs[ind], e, b)]);
            && r.Owned(own[b := Owner(i, NADDRS + e)])
            && forall j: nat, s: nat | j < |m.ips| && s < NSLOTS ::
                 r.Slot(j, s) == if j == i && s == NADDRS + e then b else m.Slot(j, s)
  {
    hide GetWord, PutWord;
    var ind := m.ips[i].addrs[NDIRECT];
    var r := m.(bs := m.bs[ind := PutWord(m.bs[ind], e, b)]);
    assert r.Wf();
    assert m.Slot(i, NDIRECT) == ind;
    forall j: nat, s: nat | j < |m.ips| && s < NSLOTS
      ensures r.Slot(j, s) == if j == i && s == NADDRS + e then b else m.Slot(j, s)
    {
      assert m.Slot(j, NDIRECT) == m.ips[j].addrs[NDIRECT];
    }
  }

  /** What bmap may do to map block bn of inode i: fill that slot with a zeroed block, and the
      indirect pointer if it was empty. Nothing else moves, and no file data changes. */
  ghost predicate Maps(m: Image, own: map<nat, Owner>, r: Image, ran: map<nat, Owner>, i: nat, bn: nat)
    requires m.Owned(own) && r.Owned(ran) && i < |m.ips| && bn < MAXFILE
  {
    && |r.ips| == |m.ips| && |r.bs| == |m.bs| && r.first == m.first && r.last == m.last
    && (forall j: nat | j < |m.ips| && j != i :: r.ips[j] == m.ips[j])
    && r.ips[i].size == m.ips[i].size
    && (forall j: nat, s: nat | j < |m.ips| && s < NSLOTS && !(j == i && (s == FileSlot(bn) || s == NDIRECT)) ::
          r.Slot(j, s) == m.Slot(j, s))
    && (m.Slot(i, NDIRECT) != 0 || bn < NDIRECT ==> r.Slot(i, NDIRECT) == m.Slot(i, NDIRECT))
    && (bn >= NDIRECT ==> r.Slot(i, NDIRECT) != 0)
    && r.Slot(i, FileSlot(bn)) != 0
    && (forall b | b in own :: b in ran && ran[b] == own[b])
    && (forall b | b in own && own[b].slot != NDIRECT :: r.bs[b] == m.bs[b])
    && (m.Slot(i, FileSlot(bn)) != 0 ==> r == m && ran == own)
    && (m.Slot(i, FileSlot(bn)) == 0 ==> r.bs[r.Slot(i, FileSlot(bn))] == ZeroBlock())
  }

  /** What balloc does: some unowned data block is now zeroed, the rest is as before. */
  ghost predicate Allocates(m: Image, c: Image, own: map<nat, Owner>, b: nat)
    requires m.Owned(own)
  {
    && c == m.(bs := c.bs) && |c.bs| == |m.bs|
    && m.InData(b) && b !in own && c.bs[b] == ZeroBlock()
    && (forall x | x in own :: c.bs[x] == m.bs[x])
  }

  lemma AllocatesKeeps(m: Image, c: Image, own: map<nat, Owner>, b: nat)
    requires m.Owned(own) && Allocates(m, c, own, b)
    ensures c.Wf() && c.Owned(own)
    ensures forall i: nat, s: nat | i < |m.ips| && s < NSLOTS :: c.Slot(i, s) == m.Slot(i, s)
  {
    UnownedWrite(m, c.bs, own);
  }

  ghost function SetAddr(m: Image, i: nat, t: nat, b: nat): (r: Image)
    requires m.Wf() && i < |m.ips| && t < NADDRS
  {
    m.(ips := m.ips[i := m.ips[i].(addrs := m.ips[i].addrs[t := b])])
  }

  ghost function SetEntry(m: Image, i: nat, e: nat, b: nat): (r: Image)
    requires m.Wf() && i < |m.ips| && e < NINDIRECT && m.ips[i].addrs[NDIRECT] != 0 && m.InData(b)
  {
    var ind := m.ips[i].addrs[NDIRECT];
    m.(bs := m.bs[ind := PutWord(m.bs[ind], e, b)])
  }

  lemma MapsAlready(m: Image, own: map<nat, Owner>, i: nat, bn: nat)
    requires m.Owned(own) && i < |m.ips| && bn < MAXFILE && m.Slot(i, FileSlot(bn)) != 0
    ensures Maps(m, own, m, own, i, bn)
  {
  }

  lemma MapDirect(m: Image, c: Image, own: map<nat, Owner>, i: nat, bn: nat, b: nat)
    requires m.Owned(own) && Allocates(m, c, own, b) && c.Wf() && i < |m.ips| && bn < NDIRECT && m.ips[i].addrs[bn] == 0
    ensures SetAddr(c, i, bn, b).Wf() && SetAddr(c, i, bn, b).Owned(own[b := Owner(i, bn)])
    ensures Maps(m, own, SetAddr(c, i, bn, b), own[b := Owner(i, bn)], i, bn)
    ensures SetAddr(c, i, bn, b).Slot(i, bn) == b
  {
    hide GetWord, Image.Owned;
    AllocatesKeeps(m, c, own, b);
    LinkDirect(c, i, bn, b, own);
  }

  /** The first half of bmap on an indirect block: the pointer is there, all else is as before. */
  ghost predicate Points(m: Image, own: map<nat, Owner>, p: Image, pwn: map<nat, Owner>, i: nat)
    requires m.Owned(own) && p.Owned(pwn) && i < |m.ips|
  {
    && |p.ips| == |m.ips| && p.first == m.first && p.last == m.last && |p.bs| == |m.bs|
    && (forall j: nat | j < |m.ips| && j != i :: p.ips[j] == m.ips[j])
    && p.ips[i].size == m.ips[i].size && p.ips[i].addrs[NDIRECT] != 0
    && (forall j: nat, s: nat | j < |m.ips| && s < NSLOTS && !(j == i && s == NDIRECT) :: p.Slot(j, s) == m.Slot(j, s))
    && (forall b | b in own :: b in pwn && pwn[b] == own[b] && p.bs[b] == m.bs[b])
    && (m.ips[i].addrs[NDIRECT] != 0 ==> p == m && pwn == own)
  }

  lemma MapIndirect(m: Image, c: Image, own: map<nat, Owner>, i: nat, b: nat)
    requires m.Owned(own) && Allocates(m, c, own, b) && c.Wf() && i < |m.ips| && m.ips[i].addrs[NDIRECT] == 0
    ensures SetAddr(c, i, NDIRECT, b).Wf() && SetAddr(c, i, NDIRECT, b).Owned(own[b := Owner(i, NDIRECT)])
    ensures Points(m, own, SetAddr(c, i, NDIRECT, b), own[b := Owner(i, NDIRECT)], i)
  {
    hide GetWord, Image.Owned;
    AllocatesKeeps(m, c, own, b);
    LinkIndirect(c, i, b, own);
  }

  lemma MapEntry(m: Image, c: Image, own: map<nat, Owner>, i: nat, bn: nat, b: nat)
    requires m.Owned(own) && Allocates(m, c, own, b) && c.Wf() && i < |m.ips| && NDIRECT <= bn < MAXFILE
    requires m.ips[i].addrs[NDIRECT] != 0 && m.Slot(i, FileSlot(bn)) == 0
    ensures SetEntry(c, i, bn - NDIRECT, b).Wf() && SetEntry(c, i, bn - NDIRECT, b).Owned(own[b := Owner(i, bn + 1)])
    ensures Maps(m, own, SetEntry(c, i, bn - NDIRECT, b), own[b := Owner(i, bn + 1)], i, bn)
    ensures SetEntry(c, i, bn - NDIRECT, b).Slot(i, bn + 1) == b
  {
    hide GetWord, PutWord, Image.Owned;
    AllocatesKeeps(m, c, own, b);
    LinkEntry(c, i, bn - NDIRECT, b, own);
    IndirectOwner(m, own, i);
    var r, ind := SetEntry(c, i, bn - NDIRECT, b), m.ips[i].addrs[NDIRECT];
    OwnedInData(m, own);
    assert c.Slot(i, NDIRECT) == ind && r.Slot(i, NDIRECT) == ind && m.Slot(i, NDIRECT) == ind;
  }

  lemma IndirectOwner(m: Image, own: map<nat, Owner>, i: nat)
    requires m.Owned(own) && i < |m.ips| && m.ips[i].addrs[NDIRECT] != 0
    ensures m.ips[i].addrs[NDIRECT] in own && own[m.ips[i].addrs[NDIRECT]] == Owner(i, NDIRECT)
  {
    assert m.Slot(i, NDIRECT) != 0;
  }

  /** First the pointer, then the entry: together one mapping step. */
  lemma MapBoth(m: Image, own: map<nat, Owner>, p: Image, pwn: map<nat, Owner>, r: Image, ran: map<nat, Owner>,
                i: nat, bn: nat)
    requires m.Owned(own) && p.Owned(pwn) && r.Owned(ran) && i < |m.ips| && NDIRECT <= bn < MAXFILE
    requires Points(m, own, p, pwn, i) && Maps(p, pwn, r, ran, i, bn)
    ensures Maps(m, own, r, ran, i, bn)
  {
    hide GetWord;
    if m.ips[i].addrs[NDIRECT] == 0 {
      assert m.Slot(i, FileSlot(bn)) == 0;
      assert m.Slot(i, NDIRECT) == 0 && p.Slot(i, NDIRECT) != 0;
    }
  }

  lemma PointsAlready(m: Image, own: map<nat, Owner>, i: nat)
    requires m.Owned(own) && i < |m.ips| && m.ips[i].addrs[NDIRECT] != 0
    ensures Points(m, own, m, own, i)
  {
  }

  /** A mapped block had its indirect pointer before. */
  lemma PointsFacts(m: Image, own: map<nat, Owner>, p: Image, pwn: map<nat, Owner>, i: nat, bn: nat)
    requires m.Owned(own) && p.Owned(pwn) && i < |m.ips| && NDIRECT <= bn < MAXFILE && Points(m, own, p, pwn, i)
    ensures |p.ips| == |m.ips| && p.ips[i].addrs[NDIRECT] != 0
    ensures p.Slot(i, FileSlot(bn)) == m.Slot(i, FileSlot(bn))
    ensures m.Slot(i, FileSlot(bn)) != 0 ==> m.ips[i].addrs[NDIRECT] != 0
  {
    hide GetWord;
  }

  lemma MapsFacts(m: Image, own: map<nat, Owner>, r: Image, ran: map<nat, Owner>, i: nat, bn: nat)
    requires m.Owned(own) && r.Owned(ran) && i < |m.ips| && bn < MAXFILE && Maps(m, own, r, ran, i, bn)
    ensures |r.ips| == |m.ips| && |r.ips[i].addrs| == |m.ips[i].addrs| == NADDRS && r.Slot(i, FileSlot(bn)) != 0
    ensures m.ips[i].addrs[NDIRECT] != 0 ==> r.ips[i].addrs[NDIRECT] == m.ips[i].addrs[NDIRECT]
  {
    hide GetWord;
    assert m.Slot(i, NDIRECT) == m.ips[i].addrs[NDIRECT] && r.Slot(i, NDIRECT) == r.ips[i].addrs[NDIRECT];
  }
}
