/** What mapping a block and storing into it do to the bytes of files. */
module FileBytes {
  import opened Blocks
  import opened Inodes

  const MAXBYTES: nat := MAXFILE * BSIZE

  /** Byte p of file i lies in a mapped block. */
  ghost predicate MappedAt(m: Image, i: nat, p: nat)
    requires m.Wf() && i < |m.ips| && p < MAXBYTES
  {
    m.Slot(i, FileSlot(p / BSIZE)) != 0
  }

  /** Mapping a block changes no byte that was mapped before. */
  lemma MapKeepsBytes(m: Image, own: map<nat, Owner>, r: Image, ran: map<nat, Owner>, i: nat, bn: nat, j: nat, p: nat)
    requires m.Owned(own) && r.Owned(ran) && i < |m.ips| && bn < MAXFILE && Maps(m, own, r, ran, i, bn)
    requires j < |m.ips| && p < MAXBYTES && MappedAt(m, j, p)
    ensures m.SlotsInRange(j) && r.SlotsInRange(j)
    ensures r.Slot(j, FileSlot(p / BSIZE)) == m.Slot(j, FileSlot(p / BSIZE)) && r.ByteAt(j, p) == m.ByteAt(j, p)
  {
    hide GetWord;
    OwnedInRange(m, own);
    OwnedInRange(r, ran);
    var s := FileSlot(p / BSIZE);
    assert own[m.Slot(j, s)] == Owner(j, s);
  }

  /** Block contents with `chunk` stored at offset o. */
  function Store(b: Block, o: nat, chunk: seq<Byte>): (r: Block)
    requires o + |chunk| <= BSIZE
    ensures forall k | 0 <= k < BSIZE :: r[k] == if o <= k < o + |chunk| then chunk[k - o] else b[k]
  {
    b[..o] + chunk + b[o + |chunk|..]
  }

  ghost function StoreIn(m: Image, i: nat, bn: nat, o: nat, chunk: seq<Byte>): (w: Image)
    requires m.Wf() && i < |m.ips| && bn < MAXFILE && o + |chunk| <= BSIZE && m.Slot(i, FileSlot(bn)) < |m.bs|
  {
    var b := m.Slot(i, FileSlot(bn));
    m.(bs := m.bs[b := Store(m.bs[b], o, chunk)])
  }

  /** Storing into block bn of file i changes those bytes of that file and nothing else. */
  lemma StoreBytes(m: Image, own: map<nat, Owner>, i: nat, bn: nat, o: nat, chunk: seq<Byte>)
    requires m.Owned(own) && i < |m.ips| && bn < MAXFILE && o + |chunk| <= BSIZE && m.Slot(i, FileSlot(bn)) != 0
    ensures m.Slot(i, FileSlot(bn)) < |m.bs|
    ensures StoreIn(m, i, bn, o, chunk).Wf() && StoreIn(m, i, bn, o, chunk).Owned(own)
    ensures forall j: nat, s: nat | j < |m.ips| && s < NSLOTS :: StoreIn(m, i, bn, o, chunk).Slot(j, s) == m.Slot(j, s)
    ensures forall j: nat | j < |m.ips| :: m.SlotsInRange(j) && StoreIn(m, i, bn, o, chunk).SlotsInRange(j)
    ensures forall j: nat, p: nat | j < |m.ips| && p < MAXBYTES && MappedAt(m, j, p) ::
              StoreIn(m, i, bn, o, chunk).ByteAt(j, p)
              == if j == i && p / BSIZE == bn && o <= p % BSIZE < o + |chunk| then chunk[p % BSIZE - o]
                else m.ByteAt(j, p)
  {
    hide GetWord;
    OwnedInRange(m, own);
    var b := m.Slot(i, FileSlot(bn));
    assert own[b] == Owner(i, FileSlot(bn));
    var w := StoreIn(m, i, bn, o, chunk);
    DataWrite(m, b, w.bs[b], own);
    OwnedInRange(w, own);
    forall j: nat, p: nat | j < |m.ips| && p < MAXBYTES && MappedAt(m, j, p)
      ensures w.ByteAt(j, p)
              == if j == i && p / BSIZE == bn && o <= p % BSIZE < o + |chunk| then chunk[p % BSIZE - o]
                else m.ByteAt(j, p)
    {
      if m.Slot(j, FileSlot(p / BSIZE)) == b {
        OneOwner(m, own, i, FileSlot(bn), j, FileSlot(p / BSIZE));
      }
    }
  }

  ghost function Max(a: nat, b: nat): (r: nat) {
    if a < b then b else a
  }

  /** One pass of writei's loop on the file that it writes. */
  ghost predicate Advances(m: Image, w: Image, i: nat, limit: nat, off: nat, chunk: seq<Byte>)
    requires m.Wf() && w.Wf() && i < |m.ips| == |w.ips| && m.SlotsInRange(i) && w.SlotsInRange(i)
    requires off + |chunk| <= MAXBYTES && limit <= MAXBYTES
  {
    && w.ips[i].size == m.ips[i].size
    && w.NoHoles(i, Max(limit, off + |chunk|))
    && (m.ips[i].addrs[NDIRECT] != 0 ==> w.ips[i].addrs[NDIRECT] == m.ips[i].addrs[NDIRECT])
    && (off + |chunk| <= limit ==> w.ips == m.ips)
    && forall p: nat | p < Max(limit, off + |chunk|) ::
         w.ByteAt(i, p) == if off <= p < off + |chunk| then chunk[p - off] else m.ByteAt(i, p)
  }

  /** Every other file keeps its inode, its slots and its bytes. */
  ghost predicate SameFile(m: Image, w: Image, j: nat)
    requires m.Wf() && w.Wf() && j < |m.ips| == |w.ips| && m.SlotsInRange(j) && w.SlotsInRange(j)
  {
    && w.ips[j] == m.ips[j]
    && (forall s: nat | s < NSLOTS :: w.Slot(j, s) == m.Slot(j, s))
    && (forall p: nat | p < MAXBYTES && MappedAt(m, j, p) :: w.ByteAt(j, p) == m.ByteAt(j, p))
  }

  /** Mapping block bn extends a hole-free file by at most that block. */
  lemma MapNoHoles(m: Image, own: map<nat, Owner>, r: Image, ran: map<nat, Owner>, i: nat, limit: nat, off: nat, k: nat)
    requires m.Owned(own) && r.Owned(ran) && i < |m.ips| && limit <= MAXBYTES && off <= limit
    requires 0 < k && off % BSIZE + k <= BSIZE && off + k <= MAXBYTES
    requires m.NoHoles(i, limit) && Maps(m, own, r, ran, i, off / BSIZE)
    ensures |r.ips| == |m.ips| && r.NoHoles(i, Max(limit, off + k))
    ensures m.ips[i].addrs[NDIRECT] != 0 ==> r.ips[i].addrs[NDIRECT] == m.ips[i].addrs[NDIRECT]
    ensures off + k <= limit ==> r.ips == m.ips
  {
    hide GetWord, Image.Owned;
    OwnedInRange(m, own);
    OwnedInRange(r, ran);
    var bn, top := off / BSIZE, Max(limit, off + k);
    forall c: nat | c < MAXFILE ensures r.Slot(i, FileSlot(c)) != 0 <==> c * BSIZE < top {
      assert c != bn ==> r.Slot(i, FileSlot(c)) == m.Slot(i, FileSlot(c));
      assert bn * BSIZE <= off < off + k <= (bn + 1) * BSIZE;
      assert c > bn && limit < off + k ==> c * BSIZE >= (bn + 1) * BSIZE;
      assert m.Slot(i, FileSlot(c)) != 0 <==> c * BSIZE < limit;
    }
    IndirectIsSlot(m, i);
    IndirectIsSlot(r, i);
    assert off + k <= limit ==> m.Slot(i, FileSlot(bn)) != 0;
  }

  lemma IndirectIsSlot(m: Image, i: nat)
    requires m.Wf() && i < |m.ips|
    ensures m.Slot(i, NDIRECT) == m.ips[i].addrs[NDIRECT]
  {
  }

  /** The written file after one pass of writei's loop. */
  lemma WriteStep(m: Image, own: map<nat, Owner>, r: Image, ran: map<nat, Owner>, i: nat, limit: nat, off: nat,
                  chunk: seq<Byte>)
    requires m.Owned(own) && r.Owned(ran) && i < |m.ips| && limit <= MAXBYTES && off <= limit
    requires 0 < |chunk| && off % BSIZE + |chunk| <= BSIZE && off + |chunk| <= MAXBYTES
    requires m.NoHoles(i, limit) && Maps(m, own, r, ran, i, off / BSIZE)
    ensures r.Slot(i, FileSlot(off / BSIZE)) < |r.bs|
    ensures var w := StoreIn(r, i, off / BSIZE, off % BSIZE, chunk);
            && w.Wf() && w.Owned(ran) && |w.ips| == |m.ips| && m.SlotsInRange(i) && w.SlotsInRange(i)
            && Advances(m, w, i, limit, off, chunk)
  {
    hide GetWord, Image.Owned;
    OwnedInRange(m, own);
    OwnedInRange(r, ran);
    var bn, top := off / BSIZE, Max(limit, off + |chunk|);
    MapNoHoles(m, own, r, ran, i, limit, off, |chunk|);
    StoreBytes(r, ran, i, bn, off % BSIZE, chunk);
    var w := StoreIn(r, i, bn, off % BSIZE, chunk);
    SameSlotsNoHoles(r, w, i, top);
    forall p: nat | p < top
      ensures w.ByteAt(i, p) == if off <= p < off + |chunk| then chunk[p - off] else m.ByteAt(i, p)
    {
      assert p / BSIZE * BSIZE <= p;
      assert r.Slot(i, FileSlot(p / BSIZE)) != 0;
      assert MappedAt(r, i, p);
      if !(off <= p < off + |chunk|) {
        assert MappedAt(m, i, p);
        MapKeepsBytes(m, own, r, ran, i, bn, i, p);
      }
    }
  }

  lemma SameSlotsNoHoles(r: Image, w: Image, i: nat, top: nat)
    requires r.Wf() && w.Wf() && i < |r.ips| == |w.ips| && r.NoHoles(i, top)
    requires forall s: nat | s < NSLOTS :: w.Slot(i, s) == r.Slot(i, s)
    ensures w.NoHoles(i, top)
  {
    hide GetWord;
    IndirectIsSlot(r, i);
    IndirectIsSlot(w, i);
  }

  /** Any other file after one pass of writei's loop. */
  lemma WriteStepOthers(m: Image, own: map<nat, Owner>, r: Image, ran: map<nat, Owner>, i: nat, bn: nat, o: nat,
                        chunk: seq<Byte>, j: nat)
    requires m.Owned(own) && r.Owned(ran) && i < |m.ips| && j < |m.ips| && j != i && bn < MAXFILE &&
             o + |chunk| <= BSIZE
    requires Maps(m, own, r, ran, i, bn)
    ensures r.Slot(i, FileSlot(bn)) < |r.bs|
    ensures var w := StoreIn(r, i, bn, o, chunk);
            w.Wf() && w.Owned(ran) && |w.ips| == |m.ips| && m.SlotsInRange(j) && w.SlotsInRange(j) && SameFile(m, w, j)
  {
    hide GetWord, Image.Owned;
    OwnedInRange(m, own);
    OwnedInRange(r, ran);
    StoreBytes(r, ran, i, bn, o, chunk);
    var w := StoreIn(r, i, bn, o, chunk);
    forall p: nat | p < MAXBYTES && MappedAt(m, j, p) ensures w.ByteAt(j, p) == m.ByteAt(j, p) {
      MapKeepsBytes(m, own, r, ran, i, bn, j, p);
      assert MappedAt(r, j, p);
    }
  }

  /** Two passes in a row are one longer pass. */
  lemma AdvancesAdd(m: Image, v: Image, w: Image, i: nat, limit: nat, off: nat, a: seq<Byte>, b: seq<Byte>)
    requires m.Wf() && v.Wf() && w.Wf() && i < |m.ips| == |v.ips| == |w.ips|
    requires m.SlotsInRange(i) && v.SlotsInRange(i) && w.SlotsInRange(i)
    requires off <= limit <= MAXBYTES && off + |a + b| <= MAXBYTES
    requires Advances(m, v, i, limit, off, a) && Advances(v, w, i, Max(limit, off + |a|), off + |a|, b)
    ensures Advances(m, w, i, limit, off, a + b)
  {
    hide Image.NoHoles, Image.ByteAt, Image.Slot;
    assert Max(Max(limit, off + |a|), off + |a| + |b|) == Max(limit, off + |a + b|);
  }

  lemma SameFileTrans(m: Image, v: Image, w: Image, j: nat)
    requires m.Wf() && v.Wf() && w.Wf() && j < |m.ips| == |v.ips| == |w.ips|
    requires m.SlotsInRange(j) && v.SlotsInRange(j) && w.SlotsInRange(j)
    requires SameFile(m, v, j) && SameFile(v, w, j)
    ensures SameFile(m, w, j)
  {
    hide Image.ByteAt, Image.Slot;
    forall p: nat | p < MAXBYTES && MappedAt(m, j, p) ensures w.ByteAt(j, p) == m.ByteAt(j, p) {
      assert MappedAt(v, j, p);
    }
  }

  /** The byte sequence c with src written at offset off <= |c|. */
  ghost function Splice(c: seq<Byte>, off: nat, src: seq<Byte>): (r: seq<Byte>)
    requires off <= |c|
    ensures |r| == Max(|c|, off + |src|)
    ensures forall k | 0 <= k < |r| :: r[k] == if off <= k < off + |src| then src[k - off] else c[k]
  {
    c[..off] + src + if off + |src| <= |c| then c[off + |src|..] else []
  }

  /** The contents after all passes, once the size is set. */
  lemma AdvancedContent(m: Image, w: Image, f: Image, i: nat, off: nat, src: seq<Byte>)
    requires m.Wf() && w.Wf() && f.Wf() && i < |m.ips| == |w.ips| == |f.ips|
    requires m.SlotsInRange(i) && w.SlotsInRange(i) && f.SlotsInRange(i)
    requires off <= m.ips[i].size <= MAXBYTES && off + |src| <= MAXBYTES
    requires Advances(m, w, i, m.ips[i].size, off, src)
    requires f.ips[i].size == Max(m.ips[i].size, off + |src|)
    requires forall p: nat | p < MAXBYTES :: f.ByteAt(i, p) == w.ByteAt(i, p)
    ensures f.Content(i) == Splice(m.Content(i), off, src)
  {
    hide Image.ByteAt, Image.Slot, Image.NoHoles;
  }

  /** Setting the size moves no slot and no byte. */
  lemma SetSize(m: Image, own: map<nat, Owner>, i: nat, size: nat)
    requires m.Owned(own) && i < |m.ips|
    ensures var f := m.(ips := m.ips[i := m.ips[i].(size := size)]);
            && f.Wf() && f.Owned(own)
            && (forall j: nat, s: nat | j < |m.ips| && s < NSLOTS :: f.Slot(j, s) == m.Slot(j, s))
            && (forall j: nat | j < |m.ips| :: m.SlotsInRange(j) && f.SlotsInRange(j))
            && (forall j: nat, p: nat | j < |m.ips| && p < MAXBYTES :: f.ByteAt(j, p) == m.ByteAt(j, p))
  {
    hide GetWord;
    OwnedInRange(m, own);
    var f := m.(ips := m.ips[i := m.ips[i].(size := size)]);
    forall j: nat, s: nat | j < |m.ips| && s < NSLOTS ensures f.Slot(j, s) == m.Slot(j, s) {
    }
    assert f.Owned(own);
    OwnedInRange(f, own);
  }

  /** A hole-free file whose bytes are kept keeps its contents. */
  lemma SameContent(m: Image, w: Image, j: nat)
    requires m.Wf() && w.Wf() && j < |m.ips| == |w.ips| && m.SlotsInRange(j) && w.SlotsInRange(j)
    requires m.NoHoles(j, m.ips[j].size) && SameFile(m, w, j)
    ensures m.ips[j].size <= MAXBYTES && w.NoHoles(j, w.ips[j].size) && w.Content(j) == m.Content(j)
  {
    hide GetWord;
    SameSlotsNoHoles(m, w, j, m.ips[j].size);
    forall p: nat | p < m.ips[j].size ensures w.ByteAt(j, p) == m.ByteAt(j, p) {
      assert p / BSIZE * BSIZE <= p;
      assert MappedAt(m, j, p);
    }
  }

  lemma SlotInData(m: Image, own: map<nat, Owner>, i: nat, s: nat)
    requires m.Owned(own) && i < |m.ips| && s < NSLOTS && m.Slot(i, s) != 0
    ensures m.InData(m.Slot(i, s))
  {
  }

  /** Below the size of a hole-free file every block is mapped. */
  lemma MappedBelow(m: Image, i: nat, p: nat)
    requires m.Wf() && i < |m.ips| && m.NoHoles(i, m.ips[i].size) && p < m.ips[i].size
    ensures p < MAXBYTES && m.Slot(i, FileSlot(p / BSIZE)) != 0
  {
    assert p / BSIZE * BSIZE <= p;
  }

  /** The part of one block that readi copies is the next part of the contents. */
  lemma ReadStep(m: Image, i: nat, at: nat, k: nat)
    requires m.Wf() && i < |m.ips| && m.SlotsInRange(i) && m.ips[i].size <= MAXBYTES
    requires at + k <= m.ips[i].size && at % BSIZE + k <= BSIZE && 0 < k
    ensures m.Slot(i, FileSlot(at / BSIZE)) < |m.bs|
    ensures m.bs[m.Slot(i, FileSlot(at / BSIZE))][at % BSIZE..at % BSIZE + k] == m.Content(i)[at..at + k]
  {
    hide Image.Slot;
    var part := m.bs[m.Slot(i, FileSlot(at / BSIZE))][at % BSIZE..at % BSIZE + k];
    forall x | 0 <= x < k ensures part[x] == m.Content(i)[at..at + k][x] {
      assert (at + x) / BSIZE == at / BSIZE && (at + x) % BSIZE == at % BSIZE + x;
      assert m.Content(i)[at + x] == m.ByteAt(i, at + x);
    }
  }

  /** The image once the size of file i is set after writing n bytes at off. */
  ghost function Finished(w: Image, i: nat, size: nat): (f: Image)
    requires i < |w.ips|
  {
    w.(ips := w.ips[i := w.ips[i].(size := size)])
  }

  /** All passes together are a splice of the contents; other files keep theirs. */
  lemma FinishWritten(m: Image, w: Image, own: map<nat, Owner>, i: nat, off: nat, src: seq<Byte>)
    requires m.Wf() && w.Owned(own) && i < |m.ips| == |w.ips|
    requires m.SlotsInRange(i) && w.SlotsInRange(i)
    requires off <= m.ips[i].size <= MAXBYTES && off + |src| <= MAXBYTES && Advances(m, w, i, m.ips[i].size, off, src)
    ensures var f := Finished(w, i, Max(m.ips[i].size, off + |src|));
            && f.Wf() && f.Owned(own) && f.SlotsInRange(i) && f.NoHoles(i, f.ips[i].size)
            && f.Content(i) == Splice(m.Content(i), off, src)
  {
    hide GetWord, Image.Owned, Image.Slot;
    var size := Max(m.ips[i].size, off + |src|);
    SetSize(w, own, i, size);
    var f := Finished(w, i, size);
    OwnedInRange(w, own);
    SameSlotsNoHoles(w, f, i, size);
    AdvancedContent(m, w, f, i, off, src);
  }

  lemma FinishOther(m: Image, w: Image, own: map<nat, Owner>, i: nat, size: nat, j: nat)
    requires m.Wf() && w.Owned(own) && i < |m.ips| == |w.ips| && j < |m.ips| && j != i
    requires m.SlotsInRange(j) && w.SlotsInRange(j) && m.NoHoles(j, m.ips[j].size) && SameFile(m, w, j)
    ensures var f := Finished(w, i, size);
            && f.Wf() && f.Owned(own) && f.SlotsInRange(j) && f.ips[j] == m.ips[j] && f.NoHoles(j, f.ips[j].size)
            && f.Content(j) == m.Content(j)
  {
    hide GetWord, Image.Owned, Image.Slot, Image.NoHoles;
    SetSize(w, own, i, size);
    OwnedInRange(w, own);
    var f := Finished(w, i, size);
    assert SameFile(m, f, j);
    SameContent(m, f, j);
  }

  /** A file whose inode and data area are unchanged is the same file. */
  lemma DataSameFile(m: Image, own: map<nat, Owner>, f: Image, fwn: map<nat, Owner>, j: nat)
    requires m.Owned(own) && f.Owned(fwn) && j < |m.ips| == |f.ips| && f.ips[j] == m.ips[j]
    requires |f.bs| == |m.bs| && f.first == m.first && f.last == m.last
    requires forall c: nat | m.first <= c < m.last :: f.bs[c] == m.bs[c]
    ensures m.SlotsInRange(j) && f.SlotsInRange(j) && SameFile(m, f, j)
  {
    hide GetWord;
    OwnedInRange(m, own);
    OwnedInRange(f, fwn);
    assert forall s: nat | s < NSLOTS :: f.Slot(j, s) == m.Slot(j, s);
    forall p: nat | p < MAXBYTES && MappedAt(m, j, p) ensures f.ByteAt(j, p) == m.ByteAt(j, p) {
      SlotInData(m, own, j, FileSlot(p / BSIZE));
    }
  }

  /** An inode with all slots empty is a hole-free empty file. */
  lemma EmptyNoHoles(m: Image, i: nat)
    requires m.Wf() && i < |m.ips| && forall t: nat | t < NADDRS :: m.ips[i].addrs[t] == 0
    ensures m.NoHoles(i, 0)
  {
  }
}
