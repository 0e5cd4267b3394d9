/** The buffer cache (bio.c) over a disk that performs one block write at a time
    (memide.c). Critical sections under bcache.lock are atomic steps; a `bget`
    that would sleep reports it, and the caller retries from the start. */
module BufferCache {
  import opened Blocks

  const NBUF: nat := 30
  /** Index of the list head `bcache.head`, one past the buffers. */
  const HEAD: nat := NBUF
  const ROOTDEV: nat := 1
  /** `b->dev = -1` in binit, stored in an unsigned field. */
  const NODEV: nat := TWO32 - 1

  datatype Buf = Buf(busy: bool, valid: bool, dirty: bool, dev: nat, blockno: nat,
                     prev: nat, next: nat, data: Block)

  /** One atomic block write. */
  datatype Write = Write(blockno: nat, data: Block)

  datatype Found =
    | Hit(i: nat)        // cached and not busy
    | Recycled(i: nat)   // not cached; a clean buffer was taken over
    | MustSleep(i: nat)  // cached but busy
    | NoBuffers          // panic "bget: no buffers"

  /** The circular list, written out from head to head. */
  ghost function Ring(order: seq<nat>): (r: seq<nat>) {
    [HEAD] + order + [HEAD]
  }

  /** Indices below NBUF, each at most once. */
  ghost predicate Distinct(order: seq<nat>) {
    && (forall k | 0 <= k < |order| :: order[k] < NBUF)
    && (forall k, l | 0 <= k < l < |order| :: order[k] != order[l])
  }

  ghost predicate Permutation(order: seq<nat>) {
    && |order| == NBUF
    && Distinct(order)
    && (forall i: nat | i < NBUF :: i in order)
  }

  /** ring[k] and ring[k + 1] point at each other. */
  ghost predicate LinkAt(s: seq<Buf>, ring: seq<nat>, k: nat)
    requires |s| == NBUF + 1 && k + 1 < |ring|
  {
    ring[k] <= NBUF && ring[k + 1] <= NBUF && s[ring[k]].next == ring[k + 1] && s[ring[k + 1]].prev == ring[k]
  }

  /** next and prev walk the buffers of `order`, from the head back to the head. */
  ghost predicate Linked(s: seq<Buf>, order: seq<nat>)
    requires |s| == NBUF + 1
  {
    && Distinct(order)
    && (forall k | 0 <= k <= |order| :: LinkAt(s, Ring(order), k))
  }

  /** Equal in everything but the list links. */
  ghost predicate SameBut(b: Buf, c: Buf) {
    && b.busy == c.busy && b.valid == c.valid && b.dirty == c.dirty
    && b.dev == c.dev && b.blockno == c.blockno && b.data == c.data
  }

  /** The first two link assignments of brelse. */
  function Unlink(s: seq<Buf>, i: nat): (t: seq<Buf>)
    requires |s| == NBUF + 1 && i <= NBUF && s[i].next <= NBUF && s[i].prev <= NBUF
    ensures |t| == |s| && forall j | 0 <= j <= NBUF :: SameBut(t[j], s[j])
  {
    var t := s[s[i].next := s[s[i].next].(prev := s[i].prev)];
    t[t[i].prev := t[t[i].prev].(next := t[i].next)]
  }

  /** The last four link assignments of brelse, also the loop body of binit. */
  function PushFront(s: seq<Buf>, i: nat): (t: seq<Buf>)
    requires |s| == NBUF + 1 && i < NBUF && s[HEAD].next <= NBUF
    ensures |t| == |s| && forall j | 0 <= j <= NBUF :: SameBut(t[j], s[j])
  {
    var t := s[i := s[i].(next := s[HEAD].next, prev := HEAD)];
    var u := t[t[HEAD].next := t[t[HEAD].next].(prev := i)];
    u[HEAD := u[HEAD].(next := i)]
  }

  lemma UnlinkKeeps(s: seq<Buf>, order: seq<nat>, k: nat)
    requires |s| == NBUF + 1 && Linked(s, order) && k < |order|
    ensures s[order[k]].next <= NBUF && s[order[k]].prev <= NBUF
    ensures Linked(Unlink(s, order[k]), order[..k] + order[k + 1..])
  {
    var r := Ring(order);
    var i := order[k];
    assert LinkAt(s, r, k) && LinkAt(s, r, k + 1);
    assert r[k + 1] == i;
    var o := order[..k] + order[k + 1..];
    var q := Ring(o);
    var t := Unlink(s, i);
    forall l | 0 <= l <= |o| ensures LinkAt(t, q, l) {
      if l < k {
        assert LinkAt(s, r, l);
        assert q[l] == r[l] && q[l + 1] == r[l + 1];
      } else if l == k {
        assert q[l] == r[l] && q[l + 1] == r[l + 2];
      } else {
        assert LinkAt(s, r, l + 1);
        assert q[l] == r[l + 1] && q[l + 1] == r[l + 2];
      }
    }
  }

  lemma PushFrontKeeps(s: seq<Buf>, order: seq<nat>, i: nat)
    requires |s| == NBUF + 1 && Linked(s, order) && i < NBUF && i !in order
    ensures s[HEAD].next <= NBUF
    ensures Linked(PushFront(s, i), [i] + order)
  {
    var r := Ring(order);
    assert LinkAt(s, r, 0);
    var q := Ring([i] + order);
    var t := PushFront(s, i);
    forall l | 0 <= l <= |order| + 1 ensures LinkAt(t, q, l) {
      if l >= 2 {
        assert LinkAt(s, r, l - 1);
        assert q[l] == r[l - 1] && q[l + 1] == r[l];
      } else {
        assert q[0] == HEAD && q[1] == i && q[2] == r[1];
      }
    }
  }

  /** Buffers earlier in the list were released later. */
  ghost predicate ByRelease(order: seq<nat>, stamp: seq<int>, clock: nat) {
    && |stamp| == NBUF
    && Permutation(order)
    && (forall i | 0 <= i < NBUF :: stamp[i] < clock)
    && (forall k, l | 0 <= k < l < NBUF :: stamp[order[k]] > stamp[order[l]])
  }

  predicate Caches(b: Buf, dev: nat, blockno: nat) {
    b.dev == dev && b.blockno == blockno
  }

  ghost predicate Clean(b: Buf) {
    !b.busy && !b.dirty
  }

  /** The flags and devices a buffer can have. */
  ghost predicate Sane(b: Buf, size: nat) {
    && (b.dev == ROOTDEV || b.dev == NODEV)
    && (b.dev == ROOTDEV ==> b.blockno < size)
    && (b.valid || b.dirty || b.busy ==> b.dev == ROOTDEV)
    && (b.dirty ==> b.valid)
  }

  ghost predicate Unique(s: seq<Buf>)
    requires |s| == NBUF + 1
  {
    forall i, j | 0 <= i < j < NBUF && s[i].dev == ROOTDEV && s[j].dev == ROOTDEV :: s[i].blockno != s[j].blockno
  }

  ghost predicate CachedIn(s: seq<Buf>, b: nat)
    requires |s| == NBUF + 1
  {
    exists i :: 0 <= i < NBUF && s[i].valid && s[i].blockno == b
  }

  /** Cache and disk together hold one block map `view`. */
  ghost predicate Coherent(s: seq<Buf>, disk: seq<Block>, view: seq<Block>)
    requires |s| == NBUF + 1
  {
    && |view| == |disk|
    && (forall i | 0 <= i < NBUF :: Sane(s[i], |disk|))
    && Unique(s)
    && (forall i | 0 <= i < NBUF && s[i].valid :: view[s[i].blockno] == s[i].data)
    && (forall i | 0 <= i < NBUF && s[i].valid && Clean(s[i]) :: disk[s[i].blockno] == s[i].data)
    && (forall b | 0 <= b < |disk| && !CachedIn(s, b) :: view[b] == disk[b])
  }

  /** Any state without busy or dirty buffers: the disk alone already holds the view. */
  lemma QuiescentDiskIsView(s: seq<Buf>, disk: seq<Block>, view: seq<Block>)
    requires |s| == NBUF + 1 && Coherent(s, disk, view)
    requires forall i | 0 <= i < NBUF :: Clean(s[i])
    ensures view == disk
  {
    forall b | 0 <= b < |disk| ensures view[b] == disk[b] {
      if CachedIn(s, b) {
        var i :| 0 <= i < NBUF && s[i].valid && s[i].blockno == b;
        assert Clean(s[i]);
      }
    }
  }

  /** If fewer than NBUF blocks can be dirty or busy, some buffer can be recycled. */
  lemma SomeRecyclable(s: seq<Buf>, size: nat, pinned: set<nat>)
    requires |s| == NBUF + 1 && Unique(s) && (forall i | 0 <= i < NBUF :: Sane(s[i], size))
    requires |pinned| < NBUF
    requires forall i | 0 <= i < NBUF && !Clean(s[i]) :: s[i].blockno in pinned
    ensures exists i :: 0 <= i < NBUF && Clean(s[i])
  {
    if forall i | 0 <= i < NBUF :: !Clean(s[i]) {
      PinnedCount(s, size, NBUF, pinned);
    }
  }

  lemma {:induction false} PinnedCount(s: seq<Buf>, size: nat, n: nat, pinned: set<nat>)
    requires |s| == NBUF + 1 && n <= NBUF && Unique(s) && (forall i | 0 <= i < NBUF :: Sane(s[i], size))
    requires forall i | 0 <= i < n :: !Clean(s[i]) && s[i].blockno in pinned
    ensures n <= |pinned|
  {
    if n > 0 {
      var b := s[n - 1].blockno;
      forall i | 0 <= i < n - 1 ensures s[i].blockno in pinned - {b} {
        assert s[i].dev == ROOTDEV && s[n - 1].dev == ROOTDEV;
      }
      PinnedCount(s, size, n - 1, pinned - {b});
    }
  }

  /** Changing a buffer's non-link fields keeps the list. */
  lemma LinksKept(s: seq<Buf>, order: seq<nat>, i: nat, b: Buf)
    requires |s| == NBUF + 1 && Linked(s, order) && i < NBUF
    requires b.prev == s[i].prev && b.next == s[i].next
    ensures Linked(s[i := b], order)
  {
    var t, r := s[i := b], Ring(order);
    forall k | 0 <= k <= |order| ensures LinkAt(t, r, k) {
      assert LinkAt(s, r, k);
    }
  }

  /** Marking a cached buffer busy keeps the view. */
  lemma BusyKeeps(s: seq<Buf>, disk: seq<Block>, view: seq<Block>, i: nat)
    requires |s| == NBUF + 1 && Coherent(s, disk, view)
    requires i < NBUF && s[i].dev == ROOTDEV
    ensures Coherent(s[i := s[i].(busy := true)], disk, view)
  {
    var t := s[i := s[i].(busy := true)];
    forall b | 0 <= b < |disk| && CachedIn(s, b) ensures CachedIn(t, b) {
      var j :| 0 <= j < NBUF && s[j].valid && s[j].blockno == b;
      assert t[j].valid && t[j].blockno == b;
    }
  }

  /** Taking over a clean buffer for an uncached block keeps the view: the evicted
      contents are on disk, and the new block is not valid yet. */
  lemma RecycleKeeps(s: seq<Buf>, disk: seq<Block>, view: seq<Block>, i: nat, blockno: nat)
    requires |s| == NBUF + 1 && Coherent(s, disk, view)
    requires i < NBUF && Clean(s[i]) && blockno < |disk|
    requires forall j | 0 <= j < NBUF :: !Caches(s[j], ROOTDEV, blockno)
    ensures var t := s[i := s[i].(dev := ROOTDEV, blockno := blockno, busy := true, valid := false, dirty := false)];
            Coherent(t, disk, view)
  {
    var t := s[i := s[i].(dev := ROOTDEV, blockno := blockno, busy := true, valid := false, dirty := false)];
    forall b | 0 <= b < |disk| && CachedIn(s, b) ensures CachedIn(t, b) || view[b] == disk[b] {
      var j :| 0 <= j < NBUF && s[j].valid && s[j].blockno == b;
      if j != i {
        assert t[j].valid && t[j].blockno == b;
      }
    }
  }

  /** Writing a dirty buffer to its home block keeps the view. */
  lemma FlushKeeps(s: seq<Buf>, disk: seq<Block>, view: seq<Block>, i: nat)
    requires |s| == NBUF + 1 && Coherent(s, disk, view)
    requires i < NBUF && s[i].busy && s[i].dirty
    ensures Coherent(s[i := s[i].(dirty := false, valid := true)], disk[s[i].blockno := s[i].data], view)
  {
    var t := s[i := s[i].(dirty := false, valid := true)];
    forall b | 0 <= b < |disk| && CachedIn(s, b) ensures CachedIn(t, b) {
      var j :| 0 <= j < NBUF && s[j].valid && s[j].blockno == b;
      assert t[j].valid && t[j].blockno == b;
    }
    assert t[i].valid && CachedIn(t, s[i].blockno);
  }

  /** Reading a block that no buffer holds yet keeps the view. */
  lemma FillKeeps(s: seq<Buf>, disk: seq<Block>, view: seq<Block>, i: nat)
    requires |s| == NBUF + 1 && Coherent(s, disk, view)
    requires i < NBUF && s[i].busy && !s[i].valid
    ensures disk[s[i].blockno] == view[s[i].blockno]
    ensures Coherent(s[i := s[i].(valid := true, data := disk[s[i].blockno])], disk, view)
  {
    var t := s[i := s[i].(valid := true, data := disk[s[i].blockno])];
    assert !CachedIn(s, s[i].blockno) by {
      forall j | 0 <= j < NBUF && s[j].valid ensures s[j].blockno != s[i].blockno {
        assert s[j].dev == ROOTDEV && s[i].dev == ROOTDEV;
      }
    }
    forall b | 0 <= b < |disk| && CachedIn(s, b) ensures CachedIn(t, b) {
      var j :| 0 <= j < NBUF && s[j].valid && s[j].blockno == b;
      assert t[j].valid && t[j].blockno == b;
    }
  }

  /** New data in a busy buffer changes the view at its block only. */
  lemma SetDataKeeps(s: seq<Buf>, disk: seq<Block>, view: seq<Block>, i: nat, nb: Buf)
    requires |s| == NBUF + 1 && Coherent(s, disk, view)
    requires i < NBUF && s[i].busy && s[i].valid
    requires nb.busy && nb.valid && nb.dev == s[i].dev && nb.blockno == s[i].blockno
    ensures Coherent(s[i := nb], disk, view[nb.blockno := nb.data])
  {
    var t := s[i := nb];
    forall b | 0 <= b < |disk| && CachedIn(s, b) ensures CachedIn(t, b) {
      var j :| 0 <= j < NBUF && s[j].valid && s[j].blockno == b;
      assert t[j].valid && t[j].blockno == b;
    }
    assert t[i].valid && CachedIn(t, nb.blockno);
    forall j | 0 <= j < NBUF && t[j].valid ensures view[nb.blockno := nb.data][t[j].blockno] == t[j].data {
      assert j != i ==> s[j].valid && s[j].dev == ROOTDEV;
      assert s[i].dev == ROOTDEV;
    }
    forall j | 0 <= j < NBUF && t[j].valid && Clean(t[j]) ensures disk[t[j].blockno] == t[j].data {
      assert j != i;
    }
  }

  /** Releasing a buffer whose clean contents are on disk keeps the view. */
  lemma ReleaseKeeps(s: seq<Buf>, t: seq<Buf>, disk: seq<Block>, view: seq<Block>, i: nat)
    requires |s| == NBUF + 1 && |t| == NBUF + 1 && Coherent(s, disk, view) && i < NBUF
    requires s[i].valid && !s[i].dirty ==> s[i].data == disk[s[i].blockno]
    requires forall j | 0 <= j < NBUF && j != i :: SameBut(t[j], s[j])
    requires SameBut(t[i], s[i].(busy := false))
    ensures Coherent(t, disk, view)
  {
    forall j | 0 <= j < NBUF
      ensures t[j].valid == s[j].valid && t[j].blockno == s[j].blockno && t[j].data == s[j].data
      ensures t[j].dirty == s[j].dirty && t[j].dev == s[j].dev && (t[j].busy ==> s[j].busy)
      ensures j != i ==> t[j].busy == s[j].busy
    {
      assert j != i ==> SameBut(t[j], s[j]);
    }
    forall b | 0 <= b < |disk| && CachedIn(s, b) ensures CachedIn(t, b) {
      var j :| 0 <= j < NBUF && s[j].valid && s[j].blockno == b;
      assert t[j].valid && t[j].blockno == b;
    }
  }

  /** The k-th element moved to the front. */
  ghost function ToFront(order: seq<nat>, k: nat): (o: seq<nat>)
    requires k < |order|
    ensures |o| == |order| && o[0] == order[k]
    ensures forall l | 1 <= l <= k :: o[l] == order[l - 1]
    ensures forall l | k < l < |order| :: o[l] == order[l]
  {
    [order[k]] + (order[..k] + order[k + 1..])
  }

  lemma ToFrontPermutation(order: seq<nat>, k: nat)
    requires Permutation(order) && k < NBUF
    ensures Permutation(ToFront(order, k))
  {
    var o := ToFront(order, k);
    forall j: nat | j < NBUF ensures j in o {
      assert j in order;
      var l :| 0 <= l < NBUF && order[l] == j;
      assert o[if l == k then 0 else if l < k then l + 1 else l] == j;
    }
  }

  /** Moving the k-th buffer to the front with a fresh stamp keeps the release order. */
  lemma MovedToFront(order: seq<nat>, stamp: seq<int>, clock: nat, k: nat)
    requires ByRelease(order, stamp, clock) && k < NBUF
    ensures ByRelease(ToFront(order, k), stamp[order[k] := clock], clock + 1)
  {
    ToFrontPermutation(order, k);
    var o, st := ToFront(order, k), stamp[order[k] := clock];
    forall a, b | 0 <= a < b < NBUF ensures st[o[a]] > st[o[b]] {
      var a' := if a <= k then a - 1 else a;
      var b' := if b <= k then b - 1 else b;
      assert o[b] == order[b'] && order[b'] != order[k];
      assert a > 0 ==> o[a] == order[a'] && a' < b';
    }
  }

  /** The list part of the cache invariant. */
  ghost predicate InList(s: seq<Buf>, order: seq<nat>, stamp: seq<int>, clock: nat)
    requires |s| == NBUF + 1
  {
    Permutation(order) && Linked(s, order) && ByRelease(order, stamp, clock)
  }

  /** The buffers after brelse. */
  ghost function Released(s: seq<Buf>, i: nat): (t: seq<Buf>)
    requires |s| == NBUF + 1 && i < NBUF && s[i].next <= NBUF && s[i].prev <= NBUF
    requires Unlink(s, i)[HEAD].next <= NBUF
    ensures |t| == |s|
    ensures forall j | 0 <= j < NBUF && j != i :: SameBut(t[j], s[j])
    ensures SameBut(t[i], s[i].(busy := false))
  {
    var t := PushFront(Unlink(s, i), i);
    t[i := t[i].(busy := false)]
  }

  lemma ReleasedInList(s: seq<Buf>, order: seq<nat>, stamp: seq<int>, clock: nat, k: nat)
    requires |s| == NBUF + 1 && InList(s, order, stamp, clock) && k < NBUF
    ensures s[order[k]].next <= NBUF && s[order[k]].prev <= NBUF && Unlink(s, order[k])[HEAD].next <= NBUF
    ensures InList(Released(s, order[k]), ToFront(order, k), stamp[order[k] := clock], clock + 1)
  {
    var i, rest := order[k], order[..k] + order[k + 1..];
    UnlinkKeeps(s, order, k);
    PushFrontKeeps(Unlink(s, i), rest, i);
    var t := PushFront(Unlink(s, i), i);
    LinksKept(t, [i] + rest, i, t[i].(busy := false));
    MovedToFront(order, stamp, clock, k);
  }

  lemma PlaceOf(order: seq<nat>, i: nat) returns (k: nat)
    requires |order| == NBUF && Permutation(order) && i < NBUF
    ensures k < NBUF && order[k] == i
  {
    assert i in order;
    k :| 0 <= k < NBUF && order[k] == i;
  }

  class Bcache {
    const buf: array<Buf>
    var disk: seq<Block>
    /** Buffers from most to least recently released. */
    ghost var order: seq<nat>
    /** The single block map that clients see. */
    ghost var view: seq<Block>
    /** Every disk write so far, in order. */
    ghost var writes: seq<Write>
    ghost var stamp: seq<int>
    ghost var clock: nat

    ghost predicate Valid()
      reads this, buf
    {
      && buf.Length == NBUF + 1
      && |order| == |stamp| == NBUF && |view| == |disk|
      && (forall i | 0 <= i < NBUF :: Sane(buf[i], |disk|))
      && Inv()
    }

    ghost predicate Inv()
      reads this, buf
      requires buf.Length == NBUF + 1
    {
      InList(buf[..], order, stamp, clock) && Coherent(buf[..], disk, view)
    }

    /** binit: push every buffer on the list, empty. */
    constructor (disk: seq<Block>)
      ensures Valid() && fresh(buf)
      ensures this.disk == disk && view == disk && writes == []
      ensures forall i | 0 <= i < NBUF :: Clean(buf[i]) && !buf[i].valid
    {
      var a := new Buf[NBUF + 1](_ => Buf(false, false, false, 0, 0, HEAD, HEAD, ZeroBlock()));
      ghost var o: seq<nat> := [];
      var b := 0;
      while b < NBUF
        invariant 0 <= b <= NBUF && |o| == b
        invariant fresh(a)
        invariant forall k | 0 <= k < b :: o[k] == b - 1 - k
        invariant Linked(a[..], o)
        invariant forall i | 0 <= i < b :: a[i].dev == NODEV
        invariant forall i | 0 <= i <= NBUF :: !a[i].busy && !a[i].valid && !a[i].dirty
      {
        PushFrontKeeps(a[..], o, b);
        ghost var s := a[..];
        a[b] := a[b].(next := a[HEAD].next);
        a[b] := a[b].(prev := HEAD);
        a[a[HEAD].next] := a[a[HEAD].next].(prev := b);
        a[HEAD] := a[HEAD].(next := b);
        assert a[..] == PushFront(s, b);
        o := [b] + o;
        LinksKept(a[..], o, b, a[b].(dev := NODEV));
        s := a[..];
        a[b] := a[b].(dev := NODEV);
        assert a[..] == s[b := a[b]];
        b := b + 1;
      }
      forall i: nat | i < NBUF ensures i in o {
        assert o[NBUF - 1 - i] == i;
      }
      this.disk := disk;
      buf := a;
      order := o;
      view := disk;
      writes := [];
      stamp := seq(NBUF, i => i - NBUF);
      clock := 0;
    }

    /** Has some buffer for (dev, blockno), whether valid or not. */
    ghost predicate Cached(dev: nat, blockno: nat)
      reads this, buf
      requires buf.Length == NBUF + 1
    {
      exists i :: 0 <= i < NBUF && Caches(buf[i], dev, blockno)
    }

    /** No other buffer in use holds the block of buffer h. */
    lemma SoleHolder(h: nat)
      requires Valid() && h < NBUF && buf[h].valid
      ensures forall j | 0 <= j < NBUF && j != h && (buf[j].dirty || buf[j].busy) :: buf[j].blockno != buf[h].blockno
    {
      forall j | 0 <= j < NBUF && j != h && (buf[j].dirty || buf[j].busy) ensures buf[j].blockno != buf[h].blockno {
        assert Sane(buf[..][j], |disk|) && Sane(buf[..][h], |disk|);
        assert buf[..][j].dev == ROOTDEV && buf[..][h].dev == ROOTDEV;
      }
    }

    /** First loop of bget: walk the list forwards for the block. */
    method FindCached(dev: nat, blockno: nat) returns (b: nat)
      requires Valid()
      ensures b <= NBUF
      ensures b != HEAD ==> Caches(buf[b], dev, blockno)
      ensures b == HEAD ==> !Cached(dev, blockno)
    {
      ghost var ring := Ring(order);
      ghost var k := 1;
      assert LinkAt(buf[..], ring, 0);
      b := buf[HEAD].next;
      while b != HEAD && !Caches(buf[b], dev, blockno)
        invariant 1 <= k <= NBUF + 1 && b == ring[k]
        invariant forall l | 1 <= l < k :: !Caches(buf[ring[l]], dev, blockno)
        decreases NBUF + 1 - k
      {
        assert LinkAt(buf[..], ring, k);
        b := buf[b].next;
        k := k + 1;
      }
      if b == HEAD {
        forall i: nat | i < NBUF ensures !Caches(buf[i], dev, blockno) {
          assert i in order;
          var l :| 0 <= l < NBUF && order[l] == i;
          assert ring[l + 1] == i;
        }
      }
    }

    /** Second loop of bget: walk the list backwards for a clean buffer. */
    method FindClean() returns (b: nat)
      requires Valid()
      ensures b <= NBUF
      ensures b != HEAD ==> Clean(buf[b]) && forall j | 0 <= j < NBUF && stamp[j] < stamp[b] :: !Clean(buf[j])
      ensures b == HEAD ==> forall j | 0 <= j < NBUF :: !Clean(buf[j])
    {
      ghost var ring := Ring(order);
      ghost var k: nat := NBUF;
      assert LinkAt(buf[..], ring, NBUF);
      b := buf[HEAD].prev;
      while b != HEAD && (buf[b].busy || buf[b].dirty)
        invariant 0 <= k <= NBUF && b == ring[k]
        invariant forall l | k < l <= NBUF :: !Clean(buf[ring[l]])
        decreases k
      {
        assert LinkAt(buf[..], ring, k - 1);
        b := buf[b].prev;
        k := k - 1;
      }
      if b != HEAD {
        assert order[k - 1] == b;
      }
      forall j: nat | j < NBUF && (b == HEAD || stamp[j] < stamp[b]) ensures !Clean(buf[j]) {
        assert j in order;
        var l :| 0 <= l < NBUF && order[l] == j;
        assert ring[l + 1] == j;
      }
    }

    /** bget: find the block or take over the least recently released clean buffer. */
    method Bget(dev: nat, blockno: nat) returns (r: Found)
      requires Valid() && dev == ROOTDEV && blockno < |disk|
      modifies buf
      ensures Valid()
      ensures r.NoBuffers? || r.i < NBUF
      ensures r.Hit? ==> Caches(old(buf[r.i]), dev, blockno) && !old(buf[r.i]).busy
      ensures r.Hit? ==> buf[..] == old(buf[..])[r.i := old(buf[r.i]).(busy := true)]
      ensures r.Recycled? ==> !old(Cached(dev, blockno)) && old(Clean(buf[r.i]))
      ensures r.Recycled? ==> forall j | 0 <= j < NBUF && stamp[j] < stamp[r.i] :: !Clean(old(buf[..])[j])
      ensures r.Recycled? ==>
                buf[..] == old(buf[..])[r.i := old(buf[r.i]).(dev := dev, blockno := blockno, busy := true,
                                                              valid := false, dirty := false)]
      ensures r.MustSleep? ==> buf[..] == old(buf[..]) && Caches(buf[r.i], dev, blockno) && buf[r.i].busy
      ensures r.NoBuffers? ==>
                buf[..] == old(buf[..]) && !Cached(dev, blockno) && forall j | 0 <= j < NBUF :: !Clean(buf[j])
    {
      var b := FindCached(dev, blockno);
      if b != HEAD {
        if buf[b].busy {
          return MustSleep(b);
        }
        LinksKept(buf[..], order, b, buf[b].(busy := true));
        BusyKeeps(buf[..], disk, view, b);
        buf[b] := buf[b].(busy := true);
        assert buf[..] == old(buf[..])[b := old(buf[b]).(busy := true)];
        return Hit(b);
      }
      b := FindClean();
      if b == HEAD {
        return NoBuffers;
      }
      ghost var t := buf[b].(dev := dev, blockno := blockno, busy := true, valid := false, dirty := false);
      LinksKept(buf[..], order, b, t);
      RecycleKeeps(buf[..], disk, view, b, blockno);
      buf[b] := buf[b].(dev := dev, blockno := blockno, busy := true, valid := false, dirty := false);
      assert buf[..] == old(buf[..])[b := t];
      return Recycled(b);
    }

    /** iderw (memide.c): write a dirty buffer, or fill one that is not valid. */
    method Iderw(i: nat)
      requires Valid() && i < NBUF && buf[i].busy && (buf[i].dirty || !buf[i].valid)
      modifies this`disk, this`writes, buf
      ensures Valid()
      ensures old(buf[i]).dirty ==>
                && disk == old(disk)[old(buf[i]).blockno := old(buf[i]).data]
                && writes == old(writes) + [Write(old(buf[i]).blockno, old(buf[i]).data)]
                && buf[..] == old(buf[..])[i := old(buf[i]).(dirty := false, valid := true)]
      ensures !old(buf[i]).dirty ==>
                && disk == old(disk) && writes == old(writes)
                && buf[..] == old(buf[..])[i := old(buf[i]).(valid := true, data := view[old(buf[i]).blockno])]
    {
      if buf[i].dirty {
        FlushKeeps(buf[..], disk, view, i);
        buf[i] := buf[i].(dirty := false);
        writes := writes + [Write(buf[i].blockno, buf[i].data)];
        disk := disk[buf[i].blockno := buf[i].data];
      } else {
        FillKeeps(buf[..], disk, view, i);
        buf[i] := buf[i].(data := disk[buf[i].blockno]);
      }
      buf[i] := buf[i].(valid := true);
      LinksKept(old(buf[..]), order, i, buf[i]);
      assert buf[..] == old(buf[..])[i := buf[i]];
    }

    /** bread: a busy buffer holding the latest contents of the block. */
    method Bread(dev: nat, blockno: nat) returns (r: Found)
      requires Valid() && dev == ROOTDEV && blockno < |disk|
      modifies this`disk, this`writes, buf
      ensures Valid() && disk == old(disk) && writes == old(writes)
      ensures r.NoBuffers? || r.i < NBUF
      ensures r.Hit? ==> Caches(old(buf[r.i]), dev, blockno) && !old(buf[r.i]).busy
      ensures r.Hit? ==>
                buf[..] == old(buf[..])[r.i := old(buf[r.i]).(busy := true, valid := true, data := view[blockno])]
      ensures r.Recycled? ==> !old(Cached(dev, blockno)) && old(Clean(buf[r.i]))
      ensures r.Recycled? ==>
                buf[..] == old(buf[..])[r.i := old(buf[r.i]).(dev := dev, blockno := blockno, busy := true,
                                                              valid := true, dirty := false, data := view[blockno])]
      ensures r.MustSleep? ==> buf[..] == old(buf[..]) && Caches(buf[r.i], dev, blockno) && buf[r.i].busy
      ensures r.NoBuffers? ==>
                buf[..] == old(buf[..]) && !Cached(dev, blockno) && forall j | 0 <= j < NBUF :: !Clean(buf[j])
    {
      r := Bget(dev, blockno);
      if r.MustSleep? || r.NoBuffers? {
        return;
      }
      if !buf[r.i].valid {
        Iderw(r.i);
      }
    }

    /** bwrite: write the buffer through to disk. */
    method Bwrite(i: nat)
      requires Valid() && i < NBUF && buf[i].busy && buf[i].valid
      modifies this`disk, this`writes, buf
      ensures Valid()
      ensures buf[..] == old(buf[..])[i := old(buf[i]).(dirty := false)]
      ensures disk == old(disk)[buf[i].blockno := buf[i].data]
      ensures writes == old(writes) + [Write(buf[i].blockno, buf[i].data)]
    {
      MarkDirty(i);
      Iderw(i);
      assert buf[..] == old(buf[..])[i := old(buf[i]).(dirty := false)];
    }

    /** `b->flags |= B_DIRTY`: from here on the buffer cannot be recycled. */
    method MarkDirty(i: nat)
      requires Valid() && i < NBUF && buf[i].busy && buf[i].valid
      modifies buf
      ensures Valid()
      ensures buf[..] == old(buf[..])[i := old(buf[i]).(dirty := true)]
    {
      SetDataKeeps(buf[..], disk, view, i, buf[i].(dirty := true));
      assert view == view[buf[i].blockno := buf[i].data];
      LinksKept(buf[..], order, i, buf[i].(dirty := true));
      buf[i] := buf[i].(dirty := true);
      assert buf[..] == old(buf[..])[i := old(buf[i]).(dirty := true)];
    }

    /** The holder of a busy buffer stores into `b->data`. */
    method SetData(i: nat, data: Block)
      requires Valid() && i < NBUF && buf[i].busy && buf[i].valid
      modifies this`view, buf
      ensures Valid()
      ensures buf[..] == old(buf[..])[i := old(buf[i]).(data := data)]
      ensures view == old(view)[buf[i].blockno := data]
    {
      SetDataKeeps(buf[..], disk, view, i, buf[i].(data := data));
      LinksKept(buf[..], order, i, buf[i].(data := data));
      buf[i] := buf[i].(data := data);
      view := view[buf[i].blockno := data];
      assert buf[..] == old(buf[..])[i := old(buf[i]).(data := data)];
    }

    /** brelse: move the buffer to the front of the list and clear B_BUSY. A holder that
        changed the data has called bwrite or log_write before. */
    method Brelse(i: nat)
      requires Valid() && i < NBUF && buf[i].busy
      requires buf[i].valid && !buf[i].dirty ==> buf[i].data == disk[buf[i].blockno]
      modifies this`order, this`stamp, this`clock, buf
      ensures Valid()
      ensures order[0] == i && stamp == old(stamp)[i := old(clock)]
      ensures forall j | 0 <= j < NBUF && j != i :: SameBut(buf[j], old(buf[j]))
      ensures SameBut(buf[i], old(buf[i]).(busy := false))
    {
      hide Linked, Permutation, ByRelease, Coherent;
      ghost var k := PlaceOf(order, i);
      ghost var s := buf[..];
      ReleasedInList(s, order, stamp, clock, k);
      ReleaseKeeps(s, Released(s, i), disk, view, i);
      MoveAndClear(i);
      order := ToFront(order, k);
      stamp := stamp[i := clock];
      clock := clock + 1;
    }

    /** The six link assignments and the flag update of brelse. */
    method MoveAndClear(i: nat)
      requires buf.Length == NBUF + 1 && i < NBUF && buf[i].next <= NBUF && buf[i].prev <= NBUF
      requires Unlink(buf[..], i)[HEAD].next <= NBUF
      modifies buf
      ensures buf[..] == Released(old(buf[..]), i)
    {
      UnlinkInPlace(i);
      PushInPlace(i);
      ghost var t := buf[..];
      buf[i] := buf[i].(busy := false);
      assert buf[..] == t[i := t[i].(busy := false)];
    }

    /** Take the buffer out of the list. */
    method UnlinkInPlace(i: nat)
      requires buf.Length == NBUF + 1 && i < NBUF && buf[i].next <= NBUF && buf[i].prev <= NBUF
      modifies buf
      ensures buf[..] == Unlink(old(buf[..]), i)
    {
      ghost var s := buf[..];
      buf[buf[i].next] := buf[buf[i].next].(prev := buf[i].prev);
      ghost var t := s[s[i].next := s[s[i].next].(prev := s[i].prev)];
      assert buf[..] == t;
      buf[buf[i].prev] := buf[buf[i].prev].(next := buf[i].next);
      assert buf[..] == t[t[i].prev := t[t[i].prev].(next := t[i].next)];
    }

    /** Put the buffer right behind the head. */
    method PushInPlace(i: nat)
      requires buf.Length == NBUF + 1 && i < NBUF && buf[HEAD].next <= NBUF
      modifies buf
      ensures buf[..] == PushFront(old(buf[..]), i)
    {
      ghost var s := buf[..];
      buf[i] := buf[i].(next := buf[HEAD].next);
      buf[i] := buf[i].(prev := HEAD);
      ghost var t := s[i := s[i].(next := s[HEAD].next, prev := HEAD)];
      assert buf[..] == t;
      buf[buf[HEAD].next] := buf[buf[HEAD].next].(prev := i);
      ghost var u := t[t[HEAD].next := t[t[HEAD].next].(prev := i)];
      assert buf[..] == u;
      buf[HEAD] := buf[HEAD].(next := i);
      assert buf[..] == u[HEAD := u[HEAD].(next := i)];
    }
  }
}
