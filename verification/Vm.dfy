/** The page allocator (kalloc.c) and address spaces (vm.c) on physical memory. Frame numbers stand
    for addresses; 0 is the null pointer. */
module Vm {

  import opened Blocks
  import opened PageTables
  import opened TableCount

  const KERNBASE: nat := 0x8000_0000
  /** In pages, as everything below. */
  const EXTMEM: nat := 0x100
  const DEVSPACE: nat := 0xF_E000

  // ----- the free list, threaded through the free pages

  /** The word that points at frame f. */
  function Link(f: nat): (w: Word)
    requires f < NFRAMES
    ensures FrameAt(w) == f
  {
    if f == 0 then 0 else KERNBASE + f * PGSIZE
  }

  function FrameAt(w: Word): (f: nat) {
    if w < KERNBASE then 0 else (w - KERNBASE) / PGSIZE
  }

  function At(l: seq<nat>, k: nat): (f: nat) {
    if k < |l| then l[k] else 0
  }

  ghost predicate FreeAt(pages: seq<Page>, free: seq<nat>, lo: nat, k: nat)
    requires k < |free|
  {
    lo <= free[k] < |pages| && At(free, k + 1) < NFRAMES && pages[free[k]][0] == Link(At(free, k + 1))
  }

  ghost predicate Distinct(l: seq<nat>) {
    forall i, j | 0 <= i < j < |l| :: l[i] != l[j]
  }

  ghost predicate FreeChain(pages: seq<Page>, head: nat, free: seq<nat>, lo: nat) {
    && 1 <= lo && head == At(free, 0) && Distinct(free)
    && (forall f | f in free :: lo <= f < |pages|)
    && forall k: nat | k < |free| :: FreeAt(pages, free, lo, k)
  }

  lemma FreeKept(pages: seq<Page>, ps: seq<Page>, head: nat, free: seq<nat>, lo: nat)
    requires FreeChain(pages, head, free, lo) && |ps| == |pages| && forall f | f in free :: ps[f] == pages[f]
    ensures FreeChain(ps, head, free, lo)
  {
    forall k: nat | k < |free| ensures FreeAt(ps, free, lo, k) {
      assert FreeAt(pages, free, lo, k);
    }
  }

  lemma FreePop(pages: seq<Page>, head: nat, free: seq<nat>, lo: nat)
    requires FreeChain(pages, head, free, lo)
    ensures head == 0 <==> free == []
    ensures free != [] ==>
              head == free[0] && lo <= head < |pages| && head !in free[1..] &&
              FreeChain(pages, FrameAt(pages[head][0]), free[1..], lo)
  {
    if free != [] {
      assert FreeAt(pages, free, lo, 0);
      forall k: nat | k < |free[1..]| ensures FreeAt(pages, free[1..], lo, k) {
        assert FreeAt(pages, free, lo, k + 1);
      }
      assert forall f | f in free[1..] :: f in free;
    }
  }

  lemma FreePush(pages: seq<Page>, head: nat, free: seq<nat>, lo: nat, f: nat, page: Page)
    requires FreeChain(pages, head, free, lo) && lo <= f < |pages| == NFRAMES && f !in free && head < NFRAMES &&
             page[0] == Link(head)
    ensures FreeChain(pages[f := page], f, [f] + free, lo)
  {
    var ps, l := pages[f := page], [f] + free;
    forall k: nat | k < |l| ensures FreeAt(ps, l, lo, k) {
      if k > 0 {
        assert FreeAt(pages, free, lo, k - 1);
      }
    }
  }

  lemma HeadInRange(pages: seq<Page>, head: nat, free: seq<nat>, lo: nat)
    requires FreeChain(pages, head, free, lo) && |pages| == NFRAMES
    ensures head < NFRAMES
  {
    if free != [] {
      assert FreeAt(pages, free, lo, 0);
    }
  }

  /** A page kfree has filled with ones and linked to the list. */
  function Junk(next: nat): (p: Page)
    requires next < NFRAMES
    ensures p[0] == Link(next)
  {
    var w := Link(next);
    seq(NENT, i => if i == 0 then w else 0x01010101)
  }

  /** Bytes up to a page boundary. */
  function Up(size: nat): (n: nat)
    ensures (n - 1) * PGSIZE < size <= n * PGSIZE || (size == 0 && n == 0)
  {
    (size + PGSIZE - 1) / PGSIZE
  }

  lemma UpMono(x: nat, y: nat)
    requires x <= y
    ensures Up(x) <= Up(y)
  {
  }

  lemma LookupIs(m: Mem, d: nat, p: nat)
    requires d < |m.pages| && p < NPAGES && Lookup(m, d, p) != 0
    ensures HasTable(m, d, p / NENT) && Frame(Pde(m, d, p / NENT)) < |m.pages|
    ensures Lookup(m, d, p) == m.pages[Frame(Pde(m, d, p / NENT))][p % NENT]
  {
  }

  /** Changing nothing in an empty range is changing nothing in any range. */
  lemma KeptAny(m: Mem, n: Mem, d: nat, a: nat, b: nat)
    requires |m.pages| == |n.pages| && Kept(m, n, 0, 0, 0)
    ensures Kept(m, n, d, a, b)
  {
  }

  lemma KeptLookupIn(m: Mem, n: Mem, d: nat, p: nat)
    requires |m.pages| == |n.pages| && Kept(m, n, d, 0, 0) && IsDir(m, d) && p < NPAGES
    ensures IsDir(n, d) && Lookup(n, d, p) == Lookup(m, d, p)
  {
  }

  lemma SameTables(m: Mem, n: Mem, d: nat)
    requires |m.pages| == |n.pages| && d < |m.pages| && n.pages[d] == m.pages[d]
    ensures forall i: nat | i < NENT :: HasTable(n, d, i) == HasTable(m, d, i)
  {
  }

  ghost predicate Unmapped(m: Mem, d: nat, a: nat, b: nat)
    requires d < |m.pages| && b <= NPAGES
  {
    forall q: nat | a <= q < b :: Lookup(m, d, q) == 0
  }

  /** n pages from p on are mapped to as many frames from f on. */
  ghost predicate MappedTo(m: Mem, d: nat, p: nat, n: nat, f: nat, perm: nat)
    requires d < |m.pages| && p + n <= NPAGES && f + n <= NPAGES && perm < PGSIZE
  {
    forall q: nat | p <= q < p + n :: Lookup(m, d, q) == Entry(f + (q - p), WithP(perm))
  }

  lemma UnmappedAt(m: Mem, d: nat, a: nat, b: nat)
    requires d < |m.pages| && b <= NPAGES && Unmapped(m, d, a, b)
    ensures a < b ==> Lookup(m, d, a) == 0
  {
  }

  lemma MappedNext(m: Mem, k: Mem, d: nat, p: nat, i: nat, n: nat, f: nat, perm: nat)
    requires |m.pages| == |k.pages| && d < |m.pages| && i < n && p + n <= NPAGES && f + n <= NPAGES && perm < PGSIZE
    requires IsDir(m, d) && Kept(m, k, d, p + i, p + i + 1) && Lookup(k, d, p + i) == Entry(f + i, WithP(perm))
    requires MappedTo(m, d, p, i, f, perm) && Unmapped(m, d, p + i, p + n)
    ensures MappedTo(k, d, p, i + 1, f, perm) && Unmapped(k, d, p + i + 1, p + n)
  {
    hide Lookup, Entry;
  }

  lemma KeptSelf(m: Mem, d: nat, a: nat, b: nat)
    ensures Kept(m, m, d, a, b)
  {
  }

  lemma KeptLookup(m: Mem, n: Mem, d: nat, p: nat)
    requires |m.pages| == |n.pages| && Kept(m, n, 0, 0, 0) && IsDir(m, d) && p < NPAGES
    ensures IsDir(n, d) && Lookup(n, d, p) == Lookup(m, d, p)
  {
  }

  lemma TableLookup(m: Mem, d: nat, p: nat)
    requires d < |m.pages| && p < NPAGES && HasTable(m, d, p / NENT) && Frame(Pde(m, d, p / NENT)) < |m.pages|
    ensures Lookup(m, d, p) != 0 <==> Present(m.pages[Frame(Pde(m, d, p / NENT))][p % NENT])
  {
  }

  /** deallocuvm has come to page p: of [a, b), the visited pages before p are unmapped in m. */
  ghost predicate Cleared(s: Mem, m: Mem, d: nat, a: nat, b: nat, p: nat)
    requires d < |s.pages| == |m.pages| && b <= USER
  {
    && (forall q: nat | a <= q < b :: Visited(s, d, p, b, q) ==> Visited(s, d, a, b, q))
    && (forall q: nat | a <= q < b ::
          Lookup(m, d, q) == if Visited(s, d, a, b, q) && !Visited(s, d, p, b, q) then 0 else Lookup(s, d, q))
  }

  lemma ClearedNone(s: Mem, d: nat, a: nat, b: nat)
    requires d < |s.pages| && b <= USER
    ensures Cleared(s, s, d, a, b, a)
  {
  }

  lemma ClearedAll(s: Mem, m: Mem, d: nat, a: nat, b: nat, p: nat)
    requires d < |s.pages| == |m.pages| && b <= USER && b <= p && Cleared(s, m, d, a, b, p)
    ensures forall q: nat | a <= q < b :: Lookup(m, d, q) == if Visited(s, d, a, b, q) then 0 else Lookup(s, d, q)
  {
  }

  lemma ClearedSkip(s: Mem, m: Mem, d: nat, a: nat, b: nat, p: nat)
    requires d < |s.pages| == |m.pages| && p < b <= USER && Cleared(s, m, d, a, b, p) && !HasTable(s, d, p / NENT)
    ensures Cleared(s, m, d, a, b, p + NENT)
  {
    assert forall q: nat | a <= q < b :: Visited(s, d, p, b, q) == Visited(s, d, p + NENT, b, q);
  }

  lemma ClearedStep(s: Mem, m: Mem, n: Mem, d: nat, a: nat, b: nat, p: nat)
    requires d < |s.pages| == |m.pages| == |n.pages| && a <= p < b <= USER && Cleared(s, m, d, a, b, p) &&
             HasTable(s, d, p / NENT)
    requires IsDir(m, d) && Kept(m, n, d, p, p + 1) && Lookup(n, d, p) == 0
    ensures Cleared(s, n, d, a, b, p + 1)
  {
    NotBefore(s, d, p + 1, b, p);
    forall q: nat | a <= q < b ensures Visited(s, d, p, b, q) == (q == p || Visited(s, d, p + 1, b, q)) {
    }
    assert Visited(s, d, p, b, p);
    forall q: nat | a <= q < b && q != p ensures Lookup(n, d, q) == Lookup(m, d, q) {
    }
  }

  /** Going down from KERNBASE to 0 deallocuvm leaves no user page. */
  lemma NoUserPages(s: Mem, m: Mem, d: nat)
    requires Ok(s) && Ok(m) && IsDir(s, d) && IsDir(m, d) && m.pages[d] == s.pages[d]
    requires forall q: nat | q < USER :: Lookup(m, d, q) == if Visited(s, d, 0, USER, q) then 0 else Lookup(s, d, q)
    ensures forall q: nat | q < USER :: Lookup(m, d, q) == 0
    ensures forall f | f in m.own && m.own[f].User? :: m.own[f].d != d
  {
    forall q: nat | q < USER ensures Lookup(m, d, q) == 0 {
      if HasTable(s, d, q / NENT) {
        VisitsAligned(s, d, 0, USER, q);
      }
    }
    forall f | f in m.own && m.own[f].User? ensures m.own[f].d != d {
      assert InUse(m, f);
    }
  }

  lemma BelongIs(m: Mem, d: nat)
    requires Ok(m) && IsDir(m, d) && forall f | f in m.own && m.own[f].User? :: m.own[f].d != d
    ensures forall f: nat :: Belongs(m, d, f) <==> f == d || f in TablesBelow(m, d, NENT)
  {
    forall f: nat | Belongs(m, d, f) && f != d ensures f in TablesBelow(m, d, NENT) {
      assert InUse(m, f);
    }
  }

  lemma OthersAny(m: Mem, n: Mem, d: nat)
    requires |m.pages| == |n.pages| && Kept(m, n, 0, 0, 0)
    ensures OthersKept(m, n, d)
  {
  }

  /** Only user pages of d have been given up. */
  ghost predicate Sheds(own0: map<nat, Slot>, own1: map<nat, Slot>, d: nat) {
    && (forall f | f in own1 :: f in own0 && own1[f] == own0[f])
    && (forall f | f in own0 && f !in own1 :: own0[f].User? && own0[f].d == d)
  }

  /** Tables of d with an index below k. */
  ghost function TablesBelow(m: Mem, d: nat, k: nat): (fs: set<nat>) {
    set f | f in m.own && m.own[f].Tab? && m.own[f].d == d && m.own[f].i < k
  }

  lemma TablesNext(m: Mem, d: nat, k: nat)
    requires Ok(m) && IsDir(m, d) && k < NENT
    ensures TablesBelow(m, d, k + 1) == TablesBelow(m, d, k) + if HasTable(m, d, k) then {Frame(Pde(m, d, k))} else {}
    ensures HasTable(m, d, k) ==>
              Frame(Pde(m, d, k)) !in TablesBelow(m, d, k) && Belongs(m, d, Frame(Pde(m, d, k))) &&
              Frame(Pde(m, d, k)) != d
  {
    assert DirOk(m, d);
    forall f | f in m.own && m.own[f] == Tab(d, k) ensures HasTable(m, d, k) && f == Frame(Pde(m, d, k)) {
      assert InUse(m, f);
    }
  }

  /** Frames keep what they are used for; new ones are for d. */
  ghost predicate OwnGrows(o: map<nat, Slot>, n: map<nat, Slot>, d: nat) {
    && (forall f | f in o :: f in n && n[f] == o[f])
    && (forall f | f in n && f !in o :: f == d || (n[f].Tab? && n[f].d == d) || (n[f].User? && n[f].d == d))
  }

  lemma OwnGrowsTrans(a: map<nat, Slot>, b: map<nat, Slot>, c: map<nat, Slot>, d: nat)
    requires OwnGrows(a, b, d) && OwnGrows(b, c, d)
    ensures OwnGrows(a, c, d)
  {
  }

  /** What happens to a directory that did not exist changes nothing for those that did. */
  lemma KeptNew(s: Mem, m: Mem, n: Mem, d: nat, a: nat, b: nat)
    requires Ok(s) && |s.pages| == |m.pages| == |n.pages| && d !in s.own && Kept(s, m, 0, 0, 0) && Kept(m, n, d, a, b)
    ensures Kept(s, n, 0, 0, 0)
  {
    forall f | f in s.own && s.own[f].User? ensures s.own[f].d != d {
      assert InUse(s, f);
    }
  }

  // ----- the kernel's part of every map

  datatype Range = Range(virt: nat, phys: nat, n: nat, perm: nat)

  /** kmap, in pages. */
  function Kmap(data: nat): (ks: seq<Range>)
    requires 0x100 < data < NFRAMES
    ensures |ks| == 4
    ensures forall i: nat | i < 4 ::
              USER <= ks[i].virt && ks[i].virt + ks[i].n <= NPAGES && ks[i].phys + ks[i].n <= NPAGES &&
              ks[i].perm < PGSIZE
    ensures forall i: nat, j: nat | i < j < 4 :: ks[i].virt + ks[i].n <= ks[j].virt
  {
    [Range(0x8_0000, 0, 0x100, 2),
     Range(0x8_0100, 0x100, data - 0x100, 0),
     Range(0x8_0000 + data, data, NFRAMES - data, 2),
     Range(0xF_E000, 0xF_E000, 0x2000, 2)]
  }

  ghost predicate KernelRange(m: Mem, d: nat, r: Range)
    requires d < |m.pages| && r.virt + r.n <= NPAGES && r.phys + r.n <= NPAGES && r.perm < PGSIZE
  {
    MappedTo(m, d, r.virt, r.n, r.phys, r.perm)
  }

  /** Page q belongs to one of the first k ranges. */
  ghost predicate InKmap(data: nat, k: nat, q: nat)
    requires 0x100 < data < NFRAMES && k <= 4
  {
    exists i: nat :: i < k && Kmap(data)[i].virt <= q < Kmap(data)[i].virt + Kmap(data)[i].n
  }

  /** The first k ranges are mapped, and nothing else. */
  ghost predicate KernelSoFar(m: Mem, d: nat, data: nat, k: nat)
    requires d < |m.pages| && 0x100 < data < NFRAMES && k <= 4
  {
    && (forall i: nat | i < k :: KernelRange(m, d, Kmap(data)[i]))
    && (forall q: nat | q < NPAGES && !InKmap(data, k, q) :: Lookup(m, d, q) == 0)
  }

  /** The kernel's part of the map is kmap, whatever the user's part is. */
  ghost predicate KernelPart(m: Mem, d: nat, data: nat)
    requires d < |m.pages| && 0x100 < data < NFRAMES
  {
    && (forall i: nat | i < 4 :: KernelRange(m, d, Kmap(data)[i]))
    && (forall q: nat | USER <= q < NPAGES && !InKmap(data, 4, q) :: Lookup(m, d, q) == 0)
  }

  /** A present entry for the kernel alone: frame f, read only or writable (bit 1), and not for users (bit 2). */
  ghost predicate KernelEntry(w: Word, f: nat, writable: bool) {
    Present(w) && Frame(w) == f && Flags(w) == if writable then 3 else 1
  }

  /** Frame f is seen at KERNBASE plus its address (P2V); the kernel's text and constants, from EXTMEM up to
      `data`, read only. */
  ghost predicate Mirrored(m: Mem, d: nat, f: nat, data: nat)
    requires d < |m.pages|
  {
    f < NFRAMES && KernelEntry(Lookup(m, d, USER + f), f, !(EXTMEM <= f < data))
  }

  /** So is every frame below PHYSTOP; the devices from DEVSPACE up are seen at their own addresses, and there
      is nothing in between. */
  ghost predicate DirectMap(m: Mem, d: nat, data: nat)
    requires d < |m.pages|
  {
    && (forall f: nat | f < NFRAMES :: Mirrored(m, d, f, data))
    && (forall q: nat | DEVSPACE <= q < NPAGES :: KernelEntry(Lookup(m, d, q), q, true))
    && (forall q: nat | USER + NFRAMES <= q < DEVSPACE :: Lookup(m, d, q) == 0)
  }

  lemma KernelIsDirect(m: Mem, d: nat, data: nat)
    requires d < |m.pages| && 0x100 < data < NFRAMES && KernelPart(m, d, data)
    ensures DirectMap(m, d, data)
  {
    hide Lookup, Entry;
    var ks := Kmap(data);
    assert KernelRange(m, d, ks[0]) && KernelRange(m, d, ks[1]) && KernelRange(m, d, ks[2]) && KernelRange(m, d, ks[3]);
    forall f: nat | f < NFRAMES ensures Mirrored(m, d, f, data) {
      EntryPresent(f, if EXTMEM <= f < data then 1 else 3);
    }
    forall q: nat | DEVSPACE <= q < NPAGES ensures KernelEntry(Lookup(m, d, q), q, true) {
      EntryPresent(q, 3);
    }
    forall q: nat | USER + NFRAMES <= q < DEVSPACE ensures Lookup(m, d, q) == 0 {
      assert !InKmap(data, 4, q);
    }
  }

  lemma KernelNone(m: Mem, d: nat, data: nat)
    requires d < |m.pages| && 0x100 < data < NFRAMES && Unmapped(m, d, 0, NPAGES)
    ensures KernelSoFar(m, d, data, 0)
  {
    hide Lookup;
  }

  lemma KernelNext(m: Mem, d: nat, data: nat, k: nat)
    requires d < |m.pages| && 0x100 < data < NFRAMES && k < 4 && KernelSoFar(m, d, data, k)
    ensures Unmapped(m, d, Kmap(data)[k].virt, Kmap(data)[k].virt + Kmap(data)[k].n)
  {
    hide Lookup, Kmap, KernelRange;
    var r := Kmap(data)[k];
    forall q: nat | r.virt <= q < r.virt + r.n ensures Lookup(m, d, q) == 0 {
      assert !InKmap(data, k, q);
    }
  }

  lemma KernelDone(m: Mem, d: nat, data: nat)
    requires d < |m.pages| && 0x100 < data < NFRAMES && KernelSoFar(m, d, data, 4)
    ensures Unmapped(m, d, 0, USER) && KernelPart(m, d, data)
  {
    hide Lookup, Kmap, KernelRange;
    forall q: nat | q < USER ensures Lookup(m, d, q) == 0 {
      assert !InKmap(data, 4, q);
    }
  }

  lemma KernelSpan(data: nat, k: nat)
    requires 0x100 < data < NFRAMES && k < 4
    ensures Span(Kmap(data)[k].virt, Kmap(data)[k].n) <= KernelTables()
  {
    hide Interval, KernelTables;
    KernelTablesAre();
  }

  lemma KernelHas(m: Mem, d: nat, data: nat)
    requires d < |m.pages| && 0x100 < data < NFRAMES && KernelPart(m, d, data)
    ensures KernelTables() <= Tables(m, d)
  {
    hide KernelTables, Entry;
    KernelTablesAre();
    forall i: nat | i in KernelTables() ensures i < NENT && HasTable(m, d, i) {
      var q := i * NENT;
      assert q / NENT == i;
      var j := if q < 0x8_0100 then 0 else if q < 0x8_0000 + data then 1 else if q < 0xF_E000 then 2 else 3;
      var r := Kmap(data)[j];
      assert KernelRange(m, d, r);
      assert Lookup(m, d, r.virt + (q - r.virt)) == Entry(r.phys + (q - r.virt), WithP(r.perm));
    }
  }

  lemma KernelStep(m: Mem, n: Mem, d: nat, data: nat, k: nat)
    requires |m.pages| == |n.pages| && d < |m.pages| && 0x100 < data < NFRAMES && k < 4 &&
             KernelSoFar(m, d, data, k) && IsDir(m, d)
    requires var r := Kmap(data)[k]; Kept(m, n, d, r.virt, r.virt + r.n) && KernelRange(n, d, r)
    ensures KernelSoFar(n, d, data, k + 1)
  {
    hide Lookup, Entry, Kmap;
    var r := Kmap(data)[k];
    assert forall q: nat | q < NPAGES && !(r.virt <= q < r.virt + r.n) :: Lookup(n, d, q) == Lookup(m, d, q);
    hide Kept;
    forall i: nat | i < k ensures KernelRange(n, d, Kmap(data)[i]) {
      assert KernelRange(m, d, Kmap(data)[i]);
    }
    forall q: nat | q < NPAGES && !InKmap(data, k + 1, q) ensures Lookup(n, d, q) == 0 {
      assert !InKmap(data, k, q) && !(r.virt <= q < r.virt + r.n);
    }
  }

  /** A change of user pages leaves the kernel's part alone. */
  lemma KernelKept(m: Mem, n: Mem, c: nat, data: nat, d: nat, a: nat, b: nat)
    requires |m.pages| == |n.pages| && IsDir(m, c) && 0x100 < data < NFRAMES && b <= USER && Kept(m, n, d, a, b) &&
             KernelPart(m, c, data)
    ensures KernelPart(n, c, data)
  {
    hide Lookup, Entry, Kmap;
    assert forall q: nat | USER <= q < NPAGES :: Lookup(n, c, q) == Lookup(m, c, q);
    hide Kept;
    forall i: nat | i < 4 ensures KernelRange(n, c, Kmap(data)[i]) {
      assert KernelRange(m, c, Kmap(data)[i]);
    }
  }

  // ----- copying an address space

  /** Pages below p of c have the bytes and flags that d's pages have in s. */
  ghost predicate Copied(s: Mem, m: Mem, d: nat, c: nat, p: nat)
    requires d < |s.pages| == |m.pages| && c < |m.pages| && p <= NPAGES
  {
    forall q: nat | q < p ::
      var v, w := Lookup(s, d, q), Lookup(m, c, q);
      && w != 0 && Flags(w) == Flags(v) && Frame(w) < |m.pages| && Frame(v) < |s.pages|
      && m.pages[Frame(w)] == s.pages[Frame(v)]
  }

  /** The page to copy is as it was at the start. */
  lemma SourcePage(s: Mem, m: Mem, d: nat, p: nat)
    requires Ok(s) && |s.pages| == |m.pages| && IsDir(s, d) && Kept(s, m, 0, 0, 0) && p < USER && Lookup(s, d, p) != 0
    ensures var f := Frame(Lookup(s, d, p)); f < |s.pages| && m.pages[f] == s.pages[f]
  {
    assert DirOk(s, d);
  }

  lemma OddFlags(w: Word)
    ensures Present(w) <==> Flags(w) % 2 == 1
  {
  }

  /** copyuvm has copied the pages of d below p to c; s is the memory it started from. */
  ghost predicate Copying(s: Mem, m: Mem, d: nat, c: nat, p: nat, data: nat) {
    && |m.pages| == |s.pages| == NFRAMES && Ok(s) && IsDir(s, d) && c !in s.own && IsDir(m, d) && IsDir(m, c) &&
         p <= USER
    && Kept(s, m, 0, 0, 0) && OwnGrows(s.own, m.own, c)
    && Copied(s, m, d, c, p) && Unmapped(m, c, p, USER) && 0x100 < data < NFRAMES && KernelPart(m, c, data)
  }

  lemma CopyingAt(s: Mem, m: Mem, d: nat, c: nat, p: nat, data: nat)
    requires Copying(s, m, d, c, p, data)
    ensures Ok(s) && IsDir(s, d) && |s.pages| == NFRAMES
    ensures IsDir(m, c) && IsDir(m, d) && Kept(s, m, 0, 0, 0) && (p < USER ==> Lookup(m, c, p) == 0)
  {
  }

  lemma CopyingDirect(s: Mem, m: Mem, d: nat, c: nat, p: nat, data: nat)
    requires Copying(s, m, d, c, p, data)
    ensures c < |m.pages| && DirectMap(m, c, data)
  {
    hide Kept, OwnGrows, Copied, Unmapped, DirectMap, KernelPart;
    KernelIsDirect(m, c, data);
  }

  lemma CopyingNone(s: Mem, m: Mem, d: nat, c: nat, data: nat)
    requires |m.pages| == |s.pages| == NFRAMES && Ok(s) && IsDir(s, d) && c !in s.own && IsDir(m, c)
    requires Kept(s, m, 0, 0, 0) && OwnGrows(s.own, m.own, c) && Unmapped(m, c, 0, USER) && 0x100 < data < NFRAMES &&
             KernelPart(m, c, data)
    ensures Copying(s, m, d, c, 0, data)
  {
  }

  lemma CopyingKept(s: Mem, m: Mem, k: Mem, d: nat, c: nat, p: nat, data: nat)
    requires Ok(m) && Copying(s, m, d, c, p, data) && |k.pages| == NFRAMES && Kept(m, k, 0, 0, 0) && k.own == m.own
    ensures Copying(s, k, d, c, p, data)
  {
    KeptTrans(s, m, k, 0, 0, 0);
    KernelKept(m, k, c, data, 0, 0, 0);
    hide KernelPart;
    forall q: nat | q < p ensures k.pages[Frame(Lookup(m, c, q))] == m.pages[Frame(Lookup(m, c, q))] &&
      Lookup(k, c, q) == Lookup(m, c, q) {
      assert DirOk(m, c);
    }
  }

  lemma CopiedNext(s: Mem, m: Mem, k: Mem, d: nat, c: nat, p: nat)
    requires Ok(m) && d < |s.pages| == |m.pages| == |k.pages| && IsDir(m, c) && p < USER && Copied(s, m, d, c, p) &&
             Unmapped(m, c, p, USER)
    requires Kept(m, k, c, p, p + 1) && IsDir(k, c)
    requires var v, w := Lookup(s, d, p), Lookup(k, c, p);
             && w != 0 && Flags(w) == Flags(v) && Frame(w) < |k.pages| && Frame(v) < |s.pages| &&
                  k.pages[Frame(w)] == s.pages[Frame(v)]
    ensures Copied(s, k, d, c, p + 1) && Unmapped(k, c, p + 1, USER)
  {
    hide Lookup, Frame, Flags;
    forall q: nat | q < p ensures k.pages[Frame(Lookup(m, c, q))] == m.pages[Frame(Lookup(m, c, q))] &&
      Lookup(k, c, q) == Lookup(m, c, q) {
      assert DirOk(m, c);
    }
  }

  lemma CopyingNext(s: Mem, m: Mem, k: Mem, d: nat, c: nat, p: nat, f: nat, flags: nat, data: nat)
    requires Ok(m) && Copying(s, m, d, c, p, data) && |k.pages| == NFRAMES && p < USER && Kept(m, k, c, p, p + 1) &&
             OwnGrows(m.own, k.own, c) && IsDir(k, c) && IsDir(k, d)
    requires f < NFRAMES && flags < PGSIZE && flags % 2 == 1 && Lookup(k, c, p) == Entry(f, WithP(flags))
    requires var v := Lookup(s, d, p); Frame(v) < NFRAMES && flags == Flags(v) && k.pages[f] == s.pages[Frame(v)]
    ensures Copying(s, k, d, c, p + 1, data)
  {
    hide Ok, Kept, OwnGrows, Lookup, Copied, Unmapped, KernelPart;
    KernelKept(m, k, c, data, c, p, p + 1);
    KeptNew(s, m, k, c, p, p + 1);
    OwnGrowsTrans(s.own, m.own, k.own, c);
    EntryPresent(f, flags);
    CopiedNext(s, m, k, d, c, p);
  }

  lemma KeptDir(m: Mem, n: Mem, e: nat, d: nat, a: nat, b: nat)
    requires |m.pages| == |n.pages| && Kept(m, n, d, a, b) && IsDir(m, e)
    ensures IsDir(n, e)
  {
  }

  /** Every page of c below n sits in a frame that was free, each in its own. */
  ghost predicate FreshFrames(free: seq<nat>, m: Mem, c: nat, n: nat)
    requires c < |m.pages| && n <= NPAGES
  {
    && (forall q: nat | q < n :: Frame(Lookup(m, c, q)) in free)
    && (forall q: nat, r: nat | q < r < n :: Frame(Lookup(m, c, q)) != Frame(Lookup(m, c, r)))
  }

  lemma CopyingDone(s: Mem, m: Mem, d: nat, c: nat, n: nat, free: seq<nat>, held: set<nat>, data: nat)
    requires Ok(m) && Copying(s, m, d, c, n, data) && (forall f | f in m.own :: f in held) && forall f: nat ::
               f in held <==> f in free || f in s.own
    ensures FreshFrames(free, m, c, n) && Kept(s, m, 0, 0, 0)
  {
    assert DirOk(m, c);
    forall q: nat | q < n ensures var f := Frame(Lookup(m, c, q)); f in m.own && m.own[f] == User(c, q) {
      assert Lookup(m, c, q) != 0;
    }
    forall f | f in s.own ensures !(s.own[f].User? && s.own[f].d == c) {
      assert InUse(s, f);
    }
    forall f | f in s.own ensures m.own[f] == s.own[f] {
    }
    hide Kept, Lookup;
    forall q: nat | q < n ensures Frame(Lookup(m, c, q)) in free {
      var f := Frame(Lookup(m, c, q));
      assert f in held && m.own[f] == User(c, q);
      assert f !in s.own;
    }
  }

  /** Freeing the copy leaves the memory as it was, as far as anybody can see. */
  lemma Undone(s: Mem, m: Mem, n: Mem, d: nat, c: nat, p: nat, data: nat)
    requires Copying(s, m, d, c, p, data) && |n.pages| == NFRAMES && OthersKept(m, n, c)
    requires (forall f :: f in n.own <==> f in m.own && !Belongs(m, c, f)) && forall f | f in n.own ::
               n.own[f] == m.own[f]
    ensures Kept(s, n, 0, 0, 0) && n.own == s.own
  {
    forall f | f in s.own ensures s.own[f] == m.own[f] && !Belongs(m, c, f) {
      StillOwned(s, m, d, c, p, data, f);
    }
    hide Lookup, Ok, Copied, Unmapped, KernelPart;
    assert n.own == s.own;
    UndoneKept(s, m, n, c);
  }

  lemma StillOwned(s: Mem, m: Mem, d: nat, c: nat, p: nat, data: nat, f: nat)
    requires Copying(s, m, d, c, p, data) && f in s.own
    ensures f in m.own && s.own[f] == m.own[f] && !Belongs(m, c, f)
  {
    hide Kept, Copied, Unmapped, KernelPart, Lookup;
    assert InUse(s, f);
  }

  lemma UndoneKept(s: Mem, m: Mem, n: Mem, c: nat)
    requires |s.pages| == |m.pages| == |n.pages| && Kept(s, m, 0, 0, 0) && OthersKept(m, n, c) && c !in s.own
    requires n.own == s.own && forall f | f in s.own :: f in m.own && m.own[f] == s.own[f] && !Belongs(m, c, f)
    ensures Kept(s, n, 0, 0, 0)
  {
    hide Lookup;
  }

  // ----- what allocuvm needs and does

  /** Mapping page p, after the pages from a up to p, takes a new table. */
  ghost predicate NewRegion(s: Mem, d: nat, a: nat, p: nat)
    requires d < |s.pages| && p < NPAGES
  {
    !HasTable(s, d, p / NENT) && (p == a || p % NENT == 0)
  }

  /** Frames it takes to map pages [a, p): one each, and the tables that are missing. */
  ghost function Need(s: Mem, d: nat, a: nat, p: nat): (n: nat)
    requires d < |s.pages| && p <= USER
    decreases p
  {
    if p <= a then 0 else Need(s, d, a, p - 1) + if NewRegion(s, d, a, p - 1) then 2 else 1
  }

  /** One frame short, and it is the table for the last page that is missing. */
  ghost predicate Short(s: Mem, d: nat, a: nat, b: nat, n: nat)
    requires d < |s.pages| && b <= USER
  {
    a < b && n == Need(s, d, a, b) - 1 && NewRegion(s, d, a, b - 1)
  }

  /** Of the pages of [a, b) one does not get its table, and its frame is lost. */
  ghost predicate Loses(s: Mem, d: nat, a: nat, b: nat, n: nat)
    requires d < |s.pages| && b <= USER
  {
    exists p: nat | a < p <= b :: Short(s, d, a, p, n)
  }

  /** One frame of the set is gone. */
  ghost predicate OneLess(before: set<nat>, after: set<nat>) {
    exists f | f in before :: after == before - {f}
  }

  /** Growing by one page into a missing table with one free frame. */
  lemma LastTableShort(s: Mem, d: nat, p: nat)
    requires d < |s.pages| && p < USER && !HasTable(s, d, p / NENT)
    ensures Short(s, d, p, p + 1, 1) && Loses(s, d, p, p + 1, 1)
  {
    NeedStep(s, d, p, p);
    var b := p + 1;
    assert Short(s, d, p, b, 1);
  }

  /** With the frames for [a, p) alone, or with enough for [a, b), no page is lost. */
  lemma NoneLost(s: Mem, d: nat, a: nat, p: nat, b: nat, n: nat)
    requires d < |s.pages| && a <= p <= b <= USER && (n == Need(s, d, a, p) || (p == b && n >= Need(s, d, a, b)))
    ensures !Loses(s, d, a, b, n)
  {
    forall q: nat | a < q <= b ensures !Short(s, d, a, q, n) {
      if q <= p {
        NeedGrows(s, d, a, q, p);
      } else {
        NeedMono(s, d, a, p, q);
      }
    }
  }

  lemma NeedStep(s: Mem, d: nat, a: nat, p: nat)
    requires d < |s.pages| && a <= p < USER
    ensures Need(s, d, a, p + 1) == Need(s, d, a, p) + if NewRegion(s, d, a, p) then 2 else 1
  {
  }

  lemma {:induction false} NeedGrows(s: Mem, d: nat, a: nat, p: nat, b: nat)
    requires d < |s.pages| && a <= p <= b <= USER
    ensures Need(s, d, a, p) + (b - p) <= Need(s, d, a, b)
    decreases b
  {
    if p < b {
      NeedGrows(s, d, a, p, b - 1);
    }
  }

  lemma NeedMono(s: Mem, d: nat, a: nat, p: nat, b: nat)
    requires d < |s.pages| && a <= p < b <= USER
    ensures Need(s, d, a, p) < Need(s, d, a, b) && !Short(s, d, a, b, Need(s, d, a, p))
    ensures Need(s, d, a, p) > 0 ==> !Short(s, d, a, b, Need(s, d, a, p) - 1)
  {
    hide Need, NewRegion;
    NeedGrows(s, d, a, p, b - 1);
    NeedStep(s, d, a, b - 1);
  }

  /** In m, pages [a, k) of d are mapped to zeroed frames, writable by the user, and [k, b) are not mapped. */
  ghost predicate Grown(s: Mem, m: Mem, d: nat, a: nat, k: nat, b: nat)
    requires d < |s.pages| == |m.pages| && b <= USER
  {
    && (forall q: nat | a <= q < k && q < b ::
          var w := Lookup(m, d, q); w != 0 && Flags(w) == 7 && Frame(w) < |m.pages| && m.pages[Frame(w)] == ZeroPage())
    && (forall q: nat | k <= q < b :: Lookup(m, d, q) == 0)
    && (forall i: nat | i < NENT :: HasTable(m, d, i) <==>
          HasTable(s, d, i) || (a < k && a / NENT <= i <= (k - 1) / NENT))
  }

  lemma UpReach(p: nat, size: nat)
    ensures p * PGSIZE < size <==> p < Up(size)
  {
  }

  /** What allocuvm leaves, starting with n free frames. */
  ghost predicate Outcome(s: Mem, m: Mem, d: nat, a: nat, b: nat, n: nat, ok: bool, lost: bool)
    requires d < |s.pages| == |m.pages| && b <= USER
  {
    && Kept(s, m, d, a, b)
    && (n >= Need(s, d, a, b) ==> ok && !lost && Grown(s, m, d, a, b, b))
    && (Short(s, d, a, b, n) ==> ok && lost && Grown(s, m, d, a, b - 1, b))
    && (n < Need(s, d, a, b) && !Short(s, d, a, b, n) ==> !ok && Kept(s, m, d, 0, 0))
    && (lost <==> Loses(s, d, a, b, n))
  }

  lemma UpUser(x: nat)
    requires x <= KERNBASE
    ensures Up(x) <= USER
  {
  }

  lemma GrownNone(s: Mem, d: nat, a: nat, b: nat)
    requires d < |s.pages| && b <= USER && forall q: nat | a <= q < b :: Lookup(s, d, q) == 0
    ensures Grown(s, s, d, a, a, b)
  {
  }

  lemma GrownFacts(s: Mem, m: Mem, d: nat, a: nat, k: nat, b: nat, p: nat)
    requires d < |s.pages| == |m.pages| && a <= k <= p < b <= USER && Grown(s, m, d, a, k, b)
    ensures Lookup(m, d, p) == 0
    ensures k == p ==> (HasTable(m, d, p / NENT) <==> !NewRegion(s, d, a, p))
  {
  }

  lemma GrownStep(s: Mem, m: Mem, n: Mem, d: nat, a: nat, p: nat, b: nat, lost: bool)
    requires d < |s.pages| == |m.pages| == |n.pages| && a <= p < b <= USER && Grown(s, m, d, a, p, b) && Ok(m) &&
             IsDir(m, d) && Kept(m, n, d, p, p + 1)
    requires lost ==> Lookup(n, d, p) == 0
    requires !lost ==> var w := Lookup(n, d, p);
             w != 0 && Flags(w) == 7 && Frame(w) < |n.pages| && n.pages[Frame(w)] == ZeroPage()
    requires forall i: nat | i < NENT :: HasTable(n, d, i) <==> HasTable(m, d, i) || (!lost && i == p / NENT)
    ensures Grown(s, n, d, a, if lost then p else p + 1, b)
  {
    forall q: nat | a <= q < b && q != p ensures Lookup(n, d, q) == Lookup(m, d, q) {
    }
    forall q: nat | a <= q < p ensures n.pages[Frame(Lookup(m, d, q))] == m.pages[Frame(Lookup(m, d, q))] {
      assert DirOk(m, d);
    }
  }

  /** After allocuvm's own deallocuvm the map is what it was before. */
  lemma Restored(s: Mem, m: Mem, n: Mem, d: nat, a: nat, k: nat, b: nat)
    requires Ok(s) && IsDir(s, d) && d < |s.pages| == |m.pages| == |n.pages| && a <= k <= b <= USER &&
             Grown(s, m, d, a, k, b)
    requires Kept(s, m, d, a, b) && Kept(m, n, d, a, b) && Unmapped(s, d, a, b)
    requires forall q: nat | a <= q < b :: Lookup(n, d, q) == if Visited(m, d, a, b, q) then 0 else Lookup(m, d, q)
    ensures Kept(s, n, d, 0, 0) && Kept(s, n, d, a, b)
  {
    KeptTrans(s, m, n, d, a, b);
    forall q: nat | a <= q < b ensures Lookup(n, d, q) == 0 {
      if q < k {
        VisitsAligned(m, d, a, b, q);
      }
    }
    forall f | f in s.own && s.own[f].User? ensures !(s.own[f].d == d && a <= s.own[f].p < b) {
      assert InUse(s, f);
    }
  }

  /** Filling a frame nobody uses changes nothing. */
  lemma FilledKept(s: Mem, m: Mem, f: nat)
    requires |s.pages| == |m.pages| && f < |s.pages| && f !in s.own && m.own == s.own &&
             (forall g: nat | g < |s.pages| && g != f :: m.pages[g] == s.pages[g])
    requires forall e, q: nat | IsDir(s, e) && q < NPAGES :: Lookup(m, e, q) == Lookup(s, e, q)
    ensures Kept(s, m, 0, 0, 0)
  {
  }

  /** The frames of those of the pages [p, p + n) that are user pages, with the first in frame f. */
  ghost function UserFrames(p: nat, f: nat, n: nat): (fs: set<nat>)
    ensures forall x | x in fs :: f <= x < f + n
  {
    if n == 0 then {} else UserFrames(p, f, n - 1) + if p + n - 1 < USER then {f + n - 1} else {}
  }

  lemma {:induction false} UserFrameNext(p: nat, f: nat, i: nat, n: nat)
    requires i < n
    ensures p + i < USER ==> f + i in UserFrames(p, f, n)
    ensures f + i !in UserFrames(p, f, i)
    ensures UserFrames(p, f, i + 1) == UserFrames(p, f, i) + if p + i < USER then {f + i} else {}
  {
    if i < n - 1 {
      UserFrameNext(p, f, i, n - 1);
    }
  }

  lemma NothingMapped(m: Mem, d: nat, p: nat, f: nat, perm: nat)
    requires d < |m.pages| && p <= NPAGES && f <= NPAGES && perm < PGSIZE
    ensures OwnGrows(m.own, m.own, d) && MappedTo(m, d, p, 0, f, perm) && UserFrames(p, f, 0) == {}
  {
  }

  lemma {:induction false} NoUserFrames(p: nat, f: nat, n: nat)
    requires USER <= p
    ensures UserFrames(p, f, n) == {}
  {
    if n > 0 {
      NoUserFrames(p, f, n - 1);
    }
  }

  class Kernel {
    const mem: array<Page>
    const lo: nat
    var freelist: nat
    ghost var free: seq<nat>
    ghost var own: map<nat, Slot>

    ghost function St(): (m: Mem)
      reads this`own, mem
    {
      Mem(mem[..], own)
    }

    ghost predicate Valid()
      reads this, mem
    {
      && mem.Length == NFRAMES && Ok(St()) && FreeChain(mem[..], freelist, free, lo)
      && (forall f | f in free :: f !in own)
      && (forall f | f in own :: lo <= f)
    }

    /** The frames that are free or in recorded use. */
    ghost function Held(): (fs: set<nat>)
      reads this`free, this`own
      ensures forall f: nat :: f in fs <==> f in free || f in own
    {
      (set f | f in free) + own.Keys
    }

    /** A frame that is allocated but not yet used for anything. */
    ghost predicate Loose(f: nat)
      reads this`free, this`own
    {
      lo <= f < NFRAMES && f !in Held()
    }

    lemma ValidOk()
      requires Valid()
      ensures Ok(St()) && mem.Length == NFRAMES
    {
    }

    method Kalloc() returns (f: nat)
      requires Valid()
      modifies this`freelist, this`free
      ensures Valid() && (f == 0 <==> old(free) == [])
      ensures f == 0 ==> free == []
      ensures f != 0 ==> f == old(free)[0] && free == old(free)[1..] && Loose(f) && Held() == old(Held()) - {f}
    {
      FreePop(mem[..], freelist, free, lo);
      f := freelist;
      if f != 0 {
        freelist := FrameAt(mem[f][0]);
        assert forall g | g in free[1..] :: g in free;
        free := free[1..];
      }
    }

    /** Write a page no table walk reads. */
    method Fill(f: nat, page: Page)
      requires Valid() && lo <= f < NFRAMES && f !in free && (f in own ==> own[f].User?)
      modifies mem
      ensures Valid() && mem[..] == old(mem[..])[f := page]
      ensures forall d, p: nat | IsDir(old(St()), d) && p < NPAGES :: Lookup(St(), d, p) == Lookup(old(St()), d, p)
    {
      DataWrite(St(), f, page);
      FreeKept(mem[..], mem[..][f := page], freelist, free, lo);
      hide Ok, FreeChain;
      mem[f] := page;
      assert mem[..] == old(mem[..])[f := page];
    }

    method Kfree(f: nat)
      requires Valid() && Loose(f)
      modifies this`freelist, this`free, mem
      ensures Valid() && free == [f] + old(free) && Held() == old(Held()) + {f}
      ensures forall k: nat | 0 < k < NENT :: mem[f][k] == 0x0101_0101
      ensures forall g: nat | g < NFRAMES && g != f :: mem[g] == old(mem[g])
      ensures Kept(old(St()), St(), 0, 0, 0)
    {
      HeadInRange(mem[..], freelist, free, lo);
      var page := Junk(freelist);
      DataWrite(St(), f, page);
      FreePush(mem[..], freelist, free, lo, f, page);
      hide Ok, FreeChain;
      mem[f] := page;
      assert mem[..] == old(mem[..])[f := page];
      freelist := f;
      free := [f] + free;
    }

    /** walkpgdir: the frame of the table that maps page p, or 0. */
    method Walk(d: nat, p: nat, alloc: bool) returns (t: nat)
      requires Valid() && IsDir(St(), d) && p < NPAGES
      modifies this`freelist, this`free, this`own, mem
      ensures Valid() && IsDir(St(), d) && Kept(old(St()), St(), d, 0, 0)
      ensures t == 0 || old(HasTable(St(), d, p / NENT)) ==> St() == old(St()) && free == old(free)
      ensures t == 0 ==> !alloc || free == []
      ensures t != 0 && !old(HasTable(St(), d, p / NENT)) ==>
                && alloc && old(free) != [] && t == old(free)[0] && own == old(own)[t := Tab(d, p / NENT)] &&
                     free == old(free)[1..]
                && forall g: nat | g < NFRAMES && g != d && g != t :: mem[g] == old(mem[g])
      ensures Held() == old(Held())
      ensures forall i: nat | i < NENT :: HasTable(St(), d, i) <==>
                HasTable(old(St()), d, i) || (t != 0 && i == p / NENT)
      ensures OwnGrows(old(own), own, d)
      ensures t == 0 <==> !HasTable(St(), d, p / NENT)
      ensures t != 0 ==> t < NFRAMES && t == Frame(Pde(St(), d, p / NENT)) && t in own && own[t] == Tab(d, p / NENT)
    {
      ghost var s := St();
      assert DirOk(s, d) && lo <= d;
      if Present(mem[d][p / NENT]) {
        t := mem[d][p / NENT] / PGSIZE;
        assert t == Frame(Pde(s, d, p / NENT));
        assert t in own;
        assert lo <= t;
        return;
      }
      if !alloc {
        return 0;
      }
      t := Kalloc();
      if t != 0 {
        t := NewTable(d, p / NENT, t);
      }
    }

    /** walkpgdir's last case: a fresh page becomes table i of d. */
    method NewTable(d: nat, i: nat, f: nat) returns (t: nat)
      requires Valid() && IsDir(St(), d) && i < NENT && !HasTable(St(), d, i) && Loose(f)
      modifies this`own, mem
      ensures Valid() && IsDir(St(), d) && Kept(old(St()), St(), d, 0, 0) && HasTable(St(), d, i) &&
              Frame(Pde(St(), d, i)) == f
      ensures t == f && own == old(own)[f := Tab(d, i)]
      ensures forall k: nat | k < NENT :: HasTable(St(), d, k) <==> HasTable(old(St()), d, k) || k == i
      ensures forall g: nat | g < NFRAMES && g != d && g != f :: mem[g] == old(mem[g])
    {
      t := f;
      Fill(t, ZeroPage());
      ghost var s := St();
      AddTableOk(s, d, i, t);
      FreeKept(mem[..], mem[..][d := mem[d][i := Entry(t, 7)]], freelist, free, lo);
      hide Ok, FreeChain, Kept, Lookup;
      mem[d] := mem[d][i := t * PGSIZE + 7];
      own := own[t := Tab(d, i)];
      assert St() == AddTable(s, d, i, t);
    }

    /** Free frames and the tables of d. */
    ghost function Count(d: nat): (n: nat)
      requires d < mem.Length
      reads this`free, this`own, mem
    {
      |free| + |Tables(St(), d)|
    }

    /** mappages for one page: page p of d is mapped to frame f. */
    method MapPage(d: nat, p: nat, f: nat, perm: nat) returns (ok: bool)
      requires Valid() && IsDir(St(), d) && p < NPAGES && Lookup(St(), d, p) == 0
      requires f < NPAGES && perm < PGSIZE && (p < USER ==> Loose(f))
      modifies this`freelist, this`free, this`own, mem
      ensures Valid() && IsDir(St(), d) && Kept(old(St()), St(), d, p, p + 1)
      ensures ok <==> old(HasTable(St(), d, p / NENT)) || old(free) != []
      ensures ok ==> Lookup(St(), d, p) == Entry(f, WithP(perm)) && Held() == old(Held()) + if p < USER then {f} else {}
      ensures ok && p < USER ==> mem[f] == old(mem[f]) && own[f] == User(d, p)
      ensures !ok ==> mem[..] == old(mem[..]) && own == old(own) && free == old(free)
      ensures forall i: nat | i < NENT :: HasTable(St(), d, i) <==> HasTable(old(St()), d, i) || (ok && i == p / NENT)
      ensures ok ==> |free| == |old(free)| - if old(HasTable(St(), d, p / NENT)) then 0 else 1
      ensures OwnGrows(old(own), own, d)
    {
      hide Kernel.Valid, Ok, FreeChain, Kept, Lookup, Entry, HasTable, OwnGrows;
      ValidOk();
      ghost var s := St();
      var t := Walk(d, p, true);
      if t == 0 {
        assert St() == s;
        KeptSelf(s, d, p, p + 1);
        return false;
      }
      ghost var m := St();
      KeptWiden(s, m, d, 0, 0, p, p + 1);
      ok := true;
      KeptLookupIn(s, m, d, p);
      SetEntry(d, p, t, f, WithP(perm));
      KeptTrans(s, m, St(), d, p, p + 1);
      SameTables(m, St(), d);
      OwnGrowsTrans(s.own, m.own, own, d);
    }

    /** The write of a table entry for an unmapped page. */
    method SetEntry(d: nat, p: nat, t: nat, f: nat, flags: nat)
      requires Valid() && IsDir(St(), d) && p < NPAGES && HasTable(St(), d, p / NENT) &&
               t == Frame(Pde(St(), d, p / NENT)) < NFRAMES
      requires Lookup(St(), d, p) == 0 && t in own && own[t] == Tab(d, p / NENT)
      requires f < NPAGES && flags < PGSIZE && flags % 2 == 1 && (p < USER ==> Loose(f))
      modifies this`own, mem
      ensures Valid() && IsDir(St(), d) && Kept(old(St()), St(), d, p, p + 1) && Lookup(St(), d, p) == Entry(f, flags)
      ensures own == (if p < USER then old(own)[f := User(d, p)] else old(own)) && OwnGrows(old(own), own, d)
      ensures mem[d] == old(mem[d]) && forall g: nat | g < NFRAMES && g != t :: mem[g] == old(mem[g])
    {
      ghost var s := St();
      if p < USER {
        MapUser(s, d, p, f, flags);
      } else {
        MapKernel(s, d, p, f, flags);
      }
      FreeKept(mem[..], mem[..][t := mem[t][p % NENT := Entry(f, flags)]], freelist, free, lo);
      hide Ok, FreeChain, Kept, Lookup;
      mem[t] := mem[t][p % NENT := f * PGSIZE + flags];
      assert mem[..] == SetPte(s, d, p, Entry(f, flags)).pages;
      if p < USER {
        own := own[f := User(d, p)];
      }
    }

    /** deallocuvm's innermost branch; the entry and the freed page are different pages, so the
        order of the two writes does not matter. */
    method UnmapPage(d: nat, p: nat, t: nat)
      requires Valid() && IsDir(St(), d) && p < USER && HasTable(St(), d, p / NENT) &&
               t == Frame(Pde(St(), d, p / NENT))
      requires Lookup(St(), d, p) != 0
      modifies this`freelist, this`free, this`own, mem
      ensures Valid() && IsDir(St(), d) && Kept(old(St()), St(), d, p, p + 1) && Lookup(St(), d, p) == 0
      ensures Held() == old(Held()) && mem[d] == old(mem[d])
      ensures Sheds(old(own), own, d)
    {
      ghost var s := St();
      Unmap(s, d, p);
      assert DirOk(s, d);
      FreeKept(mem[..], mem[..][t := mem[t][p % NENT := 0]], freelist, free, lo);
      hide Ok, FreeChain, Kept, Lookup;
      var f := mem[t][p % NENT] / PGSIZE;
      assert f == Frame(Lookup(s, d, p)) by { LookupIs(s, d, p); }
      mem[t] := mem[t][p % NENT := 0];
      own := own - {f};
      ghost var m := St();
      assert m == SetPte(s, d, p, 0).(own := s.own - {f});
      Kfree(f);
      KeptAny(m, St(), d, p, p + 1);
      KeptTrans(s, m, St(), d, p, p + 1);
      KeptLookup(m, St(), d, p);
    }

    method DeallocUvm(d: nat, oldsz: nat, newsz: nat) returns (r: nat)
      requires Valid() && IsDir(St(), d) && oldsz <= KERNBASE
      modifies this`freelist, this`free, this`own, mem
      ensures Valid() && IsDir(St(), d) && r == if newsz >= oldsz then oldsz else newsz
      ensures Kept(old(St()), St(), d, Up(newsz), Up(oldsz)) && Held() == old(Held()) && mem[d] == old(mem[d])
      ensures forall q: nat | Up(newsz) <= q < Up(oldsz) ::
                Lookup(St(), d, q) == if Visited(old(St()), d, Up(newsz), Up(oldsz), q) then 0
                  else Lookup(old(St()), d, q)
      ensures Sheds(old(own), own, d)
    {
      ghost var s := St();
      if newsz >= oldsz {
        UpMono(oldsz, newsz);
        return oldsz;
      }
      ghost var a, b := Up(newsz), Up(oldsz);
      var p := Up(newsz);
      ClearedNone(s, d, a, b);
      hide Ok, FreeChain, Kept, Lookup, Cleared, Held;
      while p * PGSIZE < oldsz
        invariant a <= p && Valid() && IsDir(St(), d) && Kept(s, St(), d, a, b) && Held() == old(Held()) &&
                  mem[d] == old(mem[d])
        invariant Cleared(s, St(), d, a, b, p)
        invariant Sheds(old(own), own, d)
        decreases oldsz - p * PGSIZE
      {
        p := DeallocStep(d, p, s, a, b);
      }
      ClearedAll(s, St(), d, a, b, p);
      r := newsz;
    }

    /** One round of deallocuvm's loop. */
    method DeallocStep(d: nat, p: nat, ghost s: Mem, ghost a: nat, ghost b: nat) returns (next: nat)
      requires Valid() && IsDir(St(), d) && a <= p < b <= USER
      requires d < |s.pages| == NFRAMES && Kept(s, St(), d, a, b) && Cleared(s, St(), d, a, b, p) &&
               s.pages[d] == mem[d]
      modifies this`freelist, this`free, this`own, mem
      ensures Valid() && IsDir(St(), d) && Kept(s, St(), d, a, b) && Cleared(s, St(), d, a, b, next)
      ensures p < next && Held() == old(Held()) && mem[d] == old(mem[d])
      ensures Sheds(old(own), own, d)
    {
      hide Kernel.Valid, Ok, FreeChain, Kept, Lookup, Cleared, Held;
      ValidOk();
      ghost var m := St();
      var t := Walk(d, p, false);
      assert St() == m;
      SameTables(s, m, d);
      if t == 0 {
        next := p + NENT;
        ClearedSkip(s, m, d, a, b, p);
      } else {
        next := p + 1;
        TableLookup(m, d, p);
        if Present(mem[t][p % NENT]) {
          UnmapPage(d, p, t);
          ClearedStep(s, m, St(), d, a, b, p);
          KeptWiden(m, St(), d, p, p + 1, a, b);
          KeptTrans(s, m, St(), d, a, b);
        } else {
          KeptSelf(m, d, p, p + 1);
          ClearedStep(s, m, m, d, a, b, p);
        }
      }
    }

    /** Directory d, with no user pages left, is no longer recorded. */
    ghost method Drop(d: nat)
      requires Valid() && IsDir(St(), d)
      modifies this`own
      ensures Valid() && own == Dropped(old(St()), d).own && OthersKept(old(St()), St(), d)
      ensures forall f | Belongs(old(St()), d, f) :: Loose(f)
      ensures forall f :: f in Held() <==> f in old(Held()) && !Belongs(old(St()), d, f)
    {
      ghost var m := St();
      DropOk(m, d);
      assert forall f | f in own :: f < NFRAMES;
      hide Ok, FreeChain, Kept, Lookup, OthersKept;
      own := Dropped(m, d).own;
      assert St() == Dropped(m, d);
    }

    method FreeVm(d: nat)
      requires Valid() && IsDir(St(), d)
      modifies this`freelist, this`free, this`own, mem
      ensures Valid() && OthersKept(old(St()), St(), d)
      ensures Held() == old(Held())
      ensures forall f :: f in own <==> f in old(own) && !Belongs(old(St()), d, f)
      ensures forall f | f in own :: own[f] == old(own)[f]
    {
      ghost var s := St();
      assert Up(0) == 0 && Up(KERNBASE) == USER;
      assert lo <= d < NFRAMES;
      hide Ok, FreeChain, Kept, Lookup, OthersKept;
      var r := DeallocUvm(d, KERNBASE, 0);
      ghost var m := St();
      KeptOthers(s, m, d, 0, USER);
      NoUserPages(s, m, d);
      Retire(d);
      OthersTrans(s, m, St(), d);
    }

    /** Free a directory without user pages, and its tables. */
    method Retire(d: nat)
      requires Valid() && IsDir(St(), d) && lo <= d < NFRAMES && forall f | f in own && own[f].User? :: own[f].d != d
      modifies this`freelist, this`free, this`own, mem
      ensures Valid() && OthersKept(old(St()), St(), d) && Held() == old(Held())
      ensures own == Dropped(old(St()), d).own
    {
      ghost var m := St();
      BelongIs(m, d);
      assert |m.pages| == NFRAMES;
      hide Ok, FreeChain, Kept, Lookup, OthersKept, Belongs, Dropped, TablesBelow;
      assert Belongs(m, d, d);
      Drop(d);
      ghost var k := St();
      FreeTables(d, m);
      OthersAny(k, St(), d);
      OthersTrans(m, k, St(), d);
      ghost var n := St();
      Kfree(d);
      OthersAny(n, St(), d);
      OthersTrans(m, n, St(), d);
    }

    /** freevm's loop: the tables of a directory that is no longer recorded go to the free list. */
    method FreeTables(d: nat, ghost m: Mem)
      requires Valid() && Ok(m) && |m.pages| == NFRAMES && IsDir(m, d) && own == Dropped(m, d).own &&
               mem[d] == m.pages[d] && lo <= d
      requires forall f | Belongs(m, d, f) :: Loose(f)
      modifies this`freelist, this`free, mem
      ensures Valid() && Kept(old(St()), St(), 0, 0, 0)
      ensures Held() == old(Held()) + TablesBelow(m, d, NENT)
    {
      ghost var s, held := St(), Held();
      var i := 0;
      hide Ok, FreeChain, Kept, Lookup, Dropped, DirOk;
      KeptSelf(s, 0, 0, 0);
      while i < NENT
        invariant i <= NENT && Valid() && Kept(s, St(), 0, 0, 0) && mem[d] == m.pages[d]
        invariant Held() == held + TablesBelow(m, d, i)
      {
        TablesNext(m, d, i);
        ghost var k := St();
        if Present(mem[d][i]) {
          Kfree(mem[d][i] / PGSIZE);
          KeptTrans(s, k, St(), 0, 0, 0);
        }
        i := i + 1;
      }
    }

    /** One round of allocuvm's loop, which does not look at what mappages answers. */
    method GrowStep(d: nat, p: nat) returns (got: bool, ghost lost: bool, ghost f: nat)
      requires Valid() && IsDir(St(), d) && p < USER && Lookup(St(), d, p) == 0
      modifies this`freelist, this`free, this`own, mem
      ensures Valid() && IsDir(St(), d) && Kept(old(St()), St(), d, p, p + 1)
      ensures got <==> old(free) != []
      ensures lost <==> |old(free)| == 1 && !old(HasTable(St(), d, p / NENT))
      ensures !got ==> St() == old(St()) && free == old(free)
      ensures got ==> f == old(free)[0] && |free| == |old(free)| - if lost || old(HasTable(St(), d, p / NENT)) then 1
              else 2
      ensures got ==> Held() == old(Held()) - if lost then {f} else {}
      ensures got && !lost ==> f < NFRAMES && Lookup(St(), d, p) == Entry(f, 7) && mem[f] == ZeroPage()
      ensures lost ==> Lookup(St(), d, p) == 0
      ensures forall i: nat | i < NENT :: HasTable(St(), d, i) <==>
                HasTable(old(St()), d, i) || (got && !lost && i == p / NENT)
    {
      hide Ok, FreeChain, Kept, Lookup, Held;
      ghost var s := St();
      KeptSelf(s, 0, 0, 0);
      KeptAny(s, s, d, p, p + 1);
      var page := NewPage(ZeroPage());
      if page == 0 {
        return false, false, 0;
      }
      ghost var m := St();
      KeptLookup(s, m, d, p);
      SameTables(s, m, d);
      KeptAny(s, m, d, p, p + 1);
      var ok := MapPage(d, p, page, 6);
      KeptTrans(s, m, St(), d, p, p + 1);
      got, lost, f := true, !ok, page;
    }

    /** kalloc followed by filling the page. */
    method NewPage(page: Page) returns (f: nat)
      requires Valid()
      modifies this`freelist, this`free, mem
      ensures Valid() && Kept(old(St()), St(), 0, 0, 0)
      ensures f == 0 <==> old(free) == []
      ensures f == 0 ==> free == old(free) && mem[..] == old(mem[..])
      ensures f != 0 ==> f == old(free)[0] && free == old(free)[1..] && Loose(f) && Held() == old(Held()) - {f}
      ensures f != 0 ==> f < NFRAMES && mem[..] == old(mem[..])[f := page]
      ensures forall d: nat | IsDir(old(St()), d) :: d < NFRAMES && mem[d] == old(mem[d])
    {
      ghost var s := St();
      f := Kalloc();
      KeptSelf(s, 0, 0, 0);
      if f != 0 {
        Fill(f, page);
        FilledKept(s, St(), f);
      }
    }

    /** allocuvm. What happens depends only on how many frames are free: enough for the pages and
        the missing tables; or, short by the very table of the last page, success is reported with
        that page not mapped and its frame lost; or failure, with the old map restored. */
    method AllocUvm(d: nat, oldsz: nat, newsz: nat) returns (r: nat, ghost lost: bool)
      requires Valid() && IsDir(St(), d)
      requires newsz < KERNBASE ==> forall q: nat | Up(oldsz) <= q < Up(newsz) && q < USER :: Lookup(St(), d, q) == 0
      modifies this`freelist, this`free, this`own, mem
      ensures Valid() && IsDir(St(), d)
      ensures newsz >= KERNBASE || newsz < oldsz ==>
                St() == old(St()) && free == old(free) && r == if newsz >= KERNBASE then 0 else oldsz
      ensures oldsz <= newsz < KERNBASE ==>
                && Outcome(old(St()), St(), d, Up(oldsz), Up(newsz), |old(free)|, newsz == 0 || r != 0, lost)
                && r in {0, newsz} && (if lost then OneLess(old(Held()), Held()) else Held() == old(Held()))
    {
      lost := false;
      if newsz >= KERNBASE {
        return 0, false;
      }
      if newsz < oldsz {
        return oldsz, false;
      }
      UpMono(oldsz, newsz);
      UpUser(newsz);
      assert Unmapped(St(), d, Up(oldsz), Up(newsz));
      hide Ok, FreeChain, Kept, Lookup, Outcome;
      var ok;
      ok, lost := GrowTo(d, oldsz, newsz);
      r := if ok then newsz else 0;
    }

    method GrowTo(d: nat, oldsz: nat, newsz: nat) returns (ok: bool, ghost lost: bool)
      requires Valid() && IsDir(St(), d) && newsz < KERNBASE && Up(oldsz) <= Up(newsz) <= USER
      requires Unmapped(St(), d, Up(oldsz), Up(newsz))
      modifies this`freelist, this`free, this`own, mem
      ensures Valid() && IsDir(St(), d) && (newsz == 0 ==> ok)
      ensures if lost then OneLess(old(Held()), Held()) else Held() == old(Held())
      ensures Outcome(old(St()), St(), d, Up(oldsz), Up(newsz), |old(free)|, ok, lost)
    {
      hide Kernel.Valid, Ok, FreeChain, Kept, Lookup, Held, Growing, Up, Unmapped, Outcome, Need, Short;
      ValidOk();
      lost := false;
      ghost var s, n, a, b := St(), |free|, Up(oldsz), Up(newsz);
      GrowingNone(d, a, b);
      var p := Up(oldsz);
      UpReach(p, newsz);
      while p * PGSIZE < newsz
        invariant a <= p <= b && Valid() && Growing(s, n, d, a, b, p, lost)
        invariant if lost then OneLess(old(Held()), Held()) else Held() == old(Held())
        invariant p * PGSIZE < newsz <==> p < b
        decreases b - p
      {
        var got; ghost var l;
        got, l := GrowOne(d, p, s, n, a, b, lost);
        if !got {
          GiveUp(d, oldsz, newsz, s, n, a, b, p, lost);
          return false, lost;
        }
        lost := l;
        p := p + 1;
        UpReach(p, newsz);
      }
      GrowingDone(s, n, d, a, b, lost);
      ok := true;
    }

    /** allocuvm has come to page p; `lost` says that page p - 1 did not get its table. */
    ghost predicate Growing(s: Mem, n: nat, d: nat, a: nat, b: nat, p: nat, lost: bool)
      requires d < |s.pages| == NFRAMES == mem.Length && a <= p <= b <= USER
      reads this`free, this`own, mem
    {
      && IsDir(St(), d) && Kept(s, St(), d, a, b)
      && (lost ==> a < p && free == [] && n == Need(s, d, a, p) - 1 && NewRegion(s, d, a, p - 1))
      && (!lost ==> n == |free| + Need(s, d, a, p))
      && Grown(s, St(), d, a, if lost then p - 1 else p, b)
    }

    lemma GrowingNone(d: nat, a: nat, b: nat)
      requires Valid() && IsDir(St(), d) && a <= b <= USER && Unmapped(St(), d, a, b)
      ensures Growing(St(), |free|, d, a, b, a, false)
    {
      KeptSelf(St(), d, a, b);
      GrownNone(St(), d, a, b);
    }

    lemma GrowingDone(s: Mem, n: nat, d: nat, a: nat, b: nat, lost: bool)
      requires d < |s.pages| == NFRAMES == mem.Length && a <= b <= USER && Growing(s, n, d, a, b, b, lost)
      ensures IsDir(St(), d) && Outcome(s, St(), d, a, b, n, true, lost)
    {
      LosesHere(s, n, d, a, b, b, lost);
      hide Kept, Grown, Need, NewRegion, Loses;
    }

    /** A page is lost in all exactly if one is lost when the frames run out, or at the end. */
    lemma LosesHere(s: Mem, n: nat, d: nat, a: nat, b: nat, p: nat, lost: bool)
      requires d < |s.pages| == NFRAMES == mem.Length && a <= p <= b <= USER && Growing(s, n, d, a, b, p, lost)
      requires p == b || free == []
      ensures lost <==> Loses(s, d, a, b, n)
    {
      hide Kept, Grown, Need, NewRegion;
      if lost {
        assert Short(s, d, a, p, n);
      } else {
        NoneLost(s, d, a, p, b, n);
      }
    }

    method GrowOne(d: nat, p: nat, ghost s: Mem, ghost n: nat, ghost a: nat, ghost b: nat, ghost lost: bool)
      returns (got: bool, ghost l: bool)
      requires Valid() && d < |s.pages| == NFRAMES && a <= p < b <= USER && Growing(s, n, d, a, b, p, lost)
      modifies this`freelist, this`free, this`own, mem
      ensures Valid()
      ensures got ==> !lost && Growing(s, n, d, a, b, p + 1, l)
      ensures got ==> if l then OneLess(old(Held()), Held()) else Held() == old(Held())
      ensures !got ==>
                Growing(s, n, d, a, b, p, lost) && Held() == old(Held()) && n < Need(s, d, a, b) &&
                !Short(s, d, a, b, n)
      ensures !got ==> (lost <==> Loses(s, d, a, b, n))
    {
      hide Kernel.Valid, Ok, FreeChain, Kept, Lookup, Held, Grown, Need, NewRegion, Short, Loses;
      ValidOk();
      ghost var m, k := St(), if lost then p - 1 else p;
      GrownFacts(s, m, d, a, k, b, p);
      NeedMono(s, d, a, p, b);
      NeedStep(s, d, a, p);
      if free == [] {
        LosesHere(s, n, d, a, b, p, lost);
      }
      ghost var f;
      got, l, f := GrowStep(d, p);
      if got {
        KeptWiden(m, St(), d, p, p + 1, a, b);
        KeptTrans(s, m, St(), d, a, b);
        GrownStep(s, m, St(), d, a, p, b, l);
      }
    }

    method GiveUp(d: nat, oldsz: nat, newsz: nat, ghost s: Mem, ghost n: nat, ghost a: nat, ghost b: nat,
                  ghost p: nat, ghost lost: bool)
      requires Valid() && Ok(s) && IsDir(s, d) && d < |s.pages| == NFRAMES && a <= p < b <= USER &&
               Growing(s, n, d, a, b, p, lost)
      requires newsz < KERNBASE && a == Up(oldsz) && b == Up(newsz) && Unmapped(s, d, a, b)
      requires n < Need(s, d, a, b) && !Short(s, d, a, b, n) && (lost <==> Loses(s, d, a, b, n))
      modifies this`freelist, this`free, this`own, mem
      ensures Valid() && IsDir(St(), d) && Outcome(s, St(), d, a, b, n, false, lost) && Held() == old(Held())
    {
      hide Ok, FreeChain, Kept, Lookup, Held, Grown, Need, NewRegion, Short;
      ghost var m := St();
      var r := DeallocUvm(d, newsz, oldsz);
      Restored(s, m, St(), d, a, if lost then p - 1 else p, b);
    }

    /** mappages for n pages. The frames of user pages are the caller's; k pages are mapped in the end. */
    method MapPages(d: nat, p: nat, n: nat, f: nat, perm: nat) returns (ok: bool, ghost k: nat)
      requires Valid() && IsDir(St(), d) && p + n <= NPAGES && f + n <= NPAGES && perm < PGSIZE
      requires Unmapped(St(), d, p, p + n) && forall x | x in UserFrames(p, f, n) :: Loose(x)
      modifies this`freelist, this`free, this`own, mem
      ensures Valid() && IsDir(St(), d) && Kept(old(St()), St(), d, p, p + n)
      ensures Held() == old(Held()) + UserFrames(p, f, k) && OwnGrows(old(own), own, d)
      ensures k <= n && MappedTo(St(), d, p, k, f, perm) && Unmapped(St(), d, p + k, p + n) && (ok <==> k == n)
      ensures Count(d) == old(Count(d)) && (ok <==> Span(p, n) <= Tables(St(), d)) && (!ok ==> free == [])
      ensures Tables(St(), d) <= old(Tables(St(), d)) + Span(p, n)
    {
      hide Kernel.Valid, Ok, FreeChain, Kept, Lookup, Held, OwnGrows, MappedTo, Unmapped, Entry, Tables, Span;
      hide UserFrames, Kernel.Count;
      ValidOk();
      ghost var s := St();
      KeptSelf(s, d, p, p + n);
      NothingMapped(s, d, p, f, perm);
      var i := 0;
      SpanNone(p);
      ok, k := true, 0;
      while i < n && ok
        invariant i <= n && Valid() && IsDir(St(), d) && Kept(s, St(), d, p, p + n)
        invariant Held() == old(Held()) + UserFrames(p, f, k) && OwnGrows(s.own, own, d)
        invariant k <= n && MappedTo(St(), d, p, k, f, perm) && Unmapped(St(), d, p + k, p + n)
        invariant ok ==> k == i && Span(p, i) <= Tables(St(), d)
        invariant !ok ==> k < n && free == [] && !(Span(p, n) <= Tables(St(), d))
        invariant Count(d) == old(Count(d)) && Tables(St(), d) <= old(Tables(St(), d)) + Span(p, n)
      {
        SpanStep(p, i, n);
        UserFrameNext(p, f, i, n);
        ok := MapNext(d, p, i, n, f, perm, s);
        i := i + 1;
        if ok {
          k := i;
        }
      }
    }

    /** mappages for one page, with the number of tables. */
    method MapCounted(d: nat, p: nat, f: nat, perm: nat) returns (ok: bool)
      requires Valid() && IsDir(St(), d) && p < NPAGES && Lookup(St(), d, p) == 0
      requires f < NPAGES && perm < PGSIZE && (p < USER ==> Loose(f))
      modifies this`freelist, this`free, this`own, mem
      ensures Valid() && IsDir(St(), d) && Kept(old(St()), St(), d, p, p + 1) && OwnGrows(old(own), own, d)
      ensures Held() == old(Held()) + if ok && p < USER then {f} else {}
      ensures if ok then Lookup(St(), d, p) == Entry(f, WithP(perm)) else St() == old(St()) && free == []
      ensures Count(d) == old(Count(d)) && (ok <==> p / NENT in Tables(St(), d))
      ensures Tables(St(), d) == old(Tables(St(), d)) + if ok then {p / NENT} else {}
    {
      hide Kernel.Valid, Ok, FreeChain, Kept, Lookup, OwnGrows, Entry, Tables, Held;
      ValidOk();
      ghost var m := St();
      ok := MapPage(d, p, f, perm);
      TablesGrow(m, St(), d, p / NENT, ok);
    }

    /** One round of mappages' loop. */
    method MapNext(d: nat, p: nat, i: nat, n: nat, f: nat, perm: nat, ghost s: Mem) returns (ok: bool)
      requires Valid() && IsDir(St(), d) && i < n && p + n <= NPAGES && f + n <= NPAGES && perm < PGSIZE
      requires p + i < USER ==> Loose(f + i)
      requires |s.pages| == NFRAMES && Kept(s, St(), d, p, p + n) && OwnGrows(s.own, own, d)
      requires MappedTo(St(), d, p, i, f, perm) && Unmapped(St(), d, p + i, p + n)
      modifies this`freelist, this`free, this`own, mem
      ensures Valid() && IsDir(St(), d) && Kept(s, St(), d, p, p + n) && OwnGrows(s.own, own, d)
      ensures Held() == old(Held()) + if ok && p + i < USER then {f + i} else {}
      ensures if ok then MappedTo(St(), d, p, i + 1, f, perm) && Unmapped(St(), d, p + i + 1, p + n)
              else MappedTo(St(), d, p, i, f, perm) && Unmapped(St(), d, p + i, p + n)
      ensures Count(d) == old(Count(d)) && (ok <==> (p + i) / NENT in Tables(St(), d)) && (!ok ==> free == [])
      ensures Tables(St(), d) == old(Tables(St(), d)) + if ok then {(p + i) / NENT} else {}
    {
      hide Kernel.Valid, Ok, FreeChain, Kept, Lookup, OwnGrows, MappedTo, Unmapped, Entry, Tables, Held, Kernel.Count;
      ValidOk();
      ghost var m := St();
      var q := p + i;
      UnmappedAt(m, d, q, p + n);
      ok := MapCounted(d, q, f + i, perm);
      KeptWiden(m, St(), d, p + i, p + i + 1, p, p + n);
      KeptTrans(s, m, St(), d, p, p + n);
      OwnGrowsTrans(s.own, m.own, own, d);
      if ok {
        MappedNext(m, St(), d, p, i, n, f, perm);
      } else {
        assert St() == m;
      }
    }

    /** kalloc and memset for a new page directory. */
    method NewDirectory() returns (d: nat)
      requires Valid()
      modifies this`freelist, this`free, this`own, mem
      ensures Valid() && Kept(old(St()), St(), 0, 0, 0) && Held() == old(Held())
      ensures (d == 0 <==> old(free) == []) && (d == 0 ==> free == [] && own == old(own))
      ensures d != 0 ==> IsDir(St(), d) && d !in old(own) && OwnGrows(old(own), own, d) && Unmapped(St(), d, 0, NPAGES)
      ensures d != 0 ==> |free| == |old(free)| - 1 && Tables(St(), d) == {}
    {
      ghost var s := St();
      d := NewPage(ZeroPage());
      if d != 0 {
        ghost var m := St();
        NewDir(m, d);
        KeptNew(s, m, m.(own := own[d := Dir]), d, 0, 0);
        hide Ok, FreeChain, Kept, Lookup;
        own := own[d := Dir];
      }
    }

    /** setupkvm; `data` is the page where the kernel's data starts. A directory g that has not got all
        its tables when the frames run out stays allocated. */
    method SetupKvm(data: nat) returns (d: nat, ghost g: nat)
      requires Valid() && 0x100 < data < NFRAMES
      modifies this`freelist, this`free, this`own, mem
      ensures Valid() && Kept(old(St()), St(), 0, 0, 0) && Held() == old(Held())
      ensures d == 0 ==> free == [] && (g == 0 <==> old(free) == []) && (g == 0 ==> own == old(own))
      ensures g != 0 ==> IsDir(St(), g) && g !in old(own) && OwnGrows(old(own), own, g)
      ensures d != 0 ==> g == d && Unmapped(St(), d, 0, USER)
      ensures d != 0 ==> KernelPart(St(), d, data) && DirectMap(St(), d, data) && Tables(St(), d) == KernelTables()
      ensures (d != 0 <==> |old(free)| >= 65) && (d != 0 ==> |free| == |old(free)| - 65)
    {
      hide Kernel.Valid, Ok, FreeChain, Kept, Lookup, OwnGrows, Unmapped, KernelRange, KernelPart, KernelSoFar, Held,
        Tables, KernelTables, DirectMap;
      ValidOk();
      ghost var s := St();
      d := NewDirectory();
      g := d;
      if d == 0 {
        return;
      }
      ghost var k := St();
      KernelNone(k, d, data);
      var i, ok := 0, true;
      var kmap := Kmap(data);
      while i < |kmap| && ok
        invariant i <= |kmap| && Valid() && IsDir(St(), d) && Kept(s, St(), 0, 0, 0) && Held() == old(Held()) &&
                  OwnGrows(s.own, own, d)
        invariant ok ==> KernelSoFar(St(), d, data, i)
        invariant Count(d) == |old(free)| - 1 && Tables(St(), d) <= KernelTables()
        invariant !ok ==> free == [] && Tables(St(), d) != KernelTables()
      {
        ok := MapRange(d, data, i, s);
        i := i + 1;
      }
      KernelTablesAre();
      if !ok {
        Fewer(Tables(St(), d), KernelTables());
        return 0, d;
      }
      KernelDone(St(), d, data);
      KernelHas(St(), d, data);
      KernelIsDirect(St(), d, data);
    }

    method MapRange(d: nat, data: nat, i: nat, ghost s: Mem) returns (ok: bool)
      requires Valid() && IsDir(St(), d) && 0x100 < data < NFRAMES && i < |Kmap(data)| && KernelSoFar(St(), d, data, i)
      requires Ok(s) && d !in s.own && |s.pages| == NFRAMES && Kept(s, St(), 0, 0, 0) && OwnGrows(s.own, own, d)
      modifies this`freelist, this`free, this`own, mem
      ensures Valid() && IsDir(St(), d) && Kept(s, St(), 0, 0, 0) && Held() == old(Held()) && OwnGrows(s.own, own, d)
      ensures ok ==> KernelSoFar(St(), d, data, i + 1)
      ensures Count(d) == old(Count(d)) && Tables(St(), d) <= old(Tables(St(), d)) + KernelTables()
      ensures !ok ==> free == [] && !(KernelTables() <= Tables(St(), d))
    {
      hide Kernel.Valid, Ok, FreeChain, Kept, Lookup, OwnGrows, Unmapped, KernelSoFar, MappedTo, Held, Tables,
        KernelTables, Span, Kernel.Count;
      ValidOk();
      ghost var m := St();
      var r := Kmap(data)[i];
      KernelNext(m, d, data, i);
      KernelSpan(data, i);
      ghost var k;
      NoUserFrames(r.virt, r.phys, r.n);
      ok, k := MapPages(d, r.virt, r.n, r.phys, r.perm);
      NoUserFrames(r.virt, r.phys, k);
      KeptNew(s, m, St(), d, r.virt, r.virt + r.n);
      OwnGrowsTrans(s.own, m.own, own, d);
      if ok {
        KernelStep(m, St(), d, data, i);
      }
    }

    /** The page of d to copy: its flags and its bytes. */
    method Source(d: nat, p: nat, ghost s: Mem) returns (flags: nat, page: Page)
      requires Valid() && Ok(s) && |s.pages| == NFRAMES && IsDir(s, d) && IsDir(St(), d) && Kept(s, St(), 0, 0, 0) &&
               p < USER && Lookup(s, d, p) != 0
      ensures var v := Lookup(s, d, p);
              Frame(v) < NFRAMES && flags == Flags(v) && flags % 2 == 1 && page == s.pages[Frame(v)]
    {
      hide Kernel.Valid, Ok, FreeChain, Kept, Lookup;
      ValidOk();
      KeptLookup(s, St(), d, p);
      SourcePage(s, St(), d, p);
      LookupIs(St(), d, p);
      OddFlags(Lookup(s, d, p));
      var t := mem[d][p / NENT] / PGSIZE;
      var w := mem[t][p % NENT];
      flags, page := w % PGSIZE, mem[w / PGSIZE];
    }

    /** One round of copyuvm's loop: page p of d is copied to c. */
    method CopyPage(d: nat, c: nat, p: nat, ghost s: Mem, ghost data: nat) returns (ok: bool, ghost leak: set<nat>)
      requires Valid() && Copying(s, St(), d, c, p, data) && p < USER && Lookup(s, d, p) != 0
      modifies this`freelist, this`free, this`own, mem
      ensures Valid() && Copying(s, St(), d, c, if ok then p + 1 else p, data)
      ensures Held() == old(Held()) - leak && |leak| <= 1 && (ok ==> leak == {})
      ensures IsDir(old(St()), c) && c < mem.Length == NFRAMES
      ensures ok ==> Count(c) == old(Count(c)) - 1 && Tables(St(), c) == old(Tables(St(), c)) + {p / NENT}
      ensures !ok ==> |old(free)| < if p / NENT in old(Tables(St(), c)) then 1 else 2
    {
      hide Kernel.Valid, Ok, FreeChain, Kept, Lookup, Copying, Entry, OwnGrows, Held, Tables;
      ValidOk();
      ghost var m := St();
      CopyingAt(s, m, d, c, p, data);
      var flags, page := Source(d, p, s);
      leak := {};
      var f := NewPage(page);
      CopyingKept(s, m, St(), d, c, p, data);
      TablesSame(m, St(), c);
      if f == 0 {
        return false, {};
      }
      ok := MapCopy(d, c, p, f, flags, s, data);
      leak := if ok then {} else {f};
    }

    /** The mapping of a page that has been copied. */
    method MapCopy(d: nat, c: nat, p: nat, f: nat, flags: nat, ghost s: Mem, ghost data: nat) returns (ok: bool)
      requires Valid() && Copying(s, St(), d, c, p, data) && p < USER && d < |s.pages| == NFRAMES && Loose(f)
      requires flags < PGSIZE && flags % 2 == 1
      requires var v := Lookup(s, d, p); Frame(v) < NFRAMES && flags == Flags(v) && mem[f] == s.pages[Frame(v)]
      modifies this`freelist, this`free, this`own, mem
      ensures Valid() && Copying(s, St(), d, c, if ok then p + 1 else p, data)
      ensures Held() == old(Held()) + if ok then {f} else {}
      ensures IsDir(old(St()), c) && c < mem.Length == NFRAMES
      ensures ok ==> Count(c) == old(Count(c)) && Tables(St(), c) == old(Tables(St(), c)) + {p / NENT}
      ensures ok <==> old(free) != [] || p / NENT in old(Tables(St(), c))
    {
      hide Kernel.Valid, Ok, FreeChain, Kept, Lookup, Copying, Entry, OwnGrows, Held, Tables;
      ValidOk();
      ghost var k := St();
      CopyingAt(s, k, d, c, p, data);
      ok := MapPage(c, p, f, flags);
      TablesGrow(k, St(), c, p / NENT, ok);
      if ok {
        KeptDir(k, St(), d, c, p, p + 1);
        CopyingNext(s, k, St(), d, c, p, f, flags, data);
      } else {
        assert St() == k;
      }
    }

    /** The tables that c has once the pages below p are copied, starting with n free frames. */
    ghost predicate CopyTables(c: nat, p: nat, n: nat)
      requires c < mem.Length
      reads this`free, this`own, mem
    {
      Tables(St(), c) == KernelTables() + Interval(0, UserTables(p)) && Count(c) == n - 1 - p
    }

    lemma NothingCopied(c: nat, n: nat)
      requires c < mem.Length && n >= 65 && Tables(St(), c) == KernelTables() && |free| == n - 65
      ensures CopyTables(c, 0, n)
    {
      hide KernelTables, Tables;
      KernelTablesAre();
      assert KernelTables() + Interval(0, UserTables(0)) == KernelTables();
    }

    lemma CopyTablesAt(c: nat, p: nat, n: nat)
      requires c < mem.Length && p <= USER && CopyTables(c, p, n)
      ensures |free| == n - FramesToCopy(p)
      ensures p < USER ==> (p / NENT in Tables(St(), c) <==> p / NENT < UserTables(p))
    {
      hide KernelTables, Interval, Tables;
      AllTables(p);
      if p < USER {
        UserTablesAt(p);
      }
    }

    /** copyuvm. The child has the parent's bytes and flags, in frames that were free; nothing of any
        existing address space changes. On failure the child is gone again, but for a page whose
        table could not be had. */
    method CopyUvm(d: nat, sz: nat, data: nat) returns (c: nat, ghost leak: set<nat>)
      requires Valid() && IsDir(St(), d) && sz <= KERNBASE && 0x100 < data < NFRAMES
      requires forall q: nat | q < Up(sz) && q < USER :: Lookup(St(), d, q) != 0
      modifies this`freelist, this`free, this`own, mem
      ensures Valid() && Kept(old(St()), St(), 0, 0, 0) && Held() == old(Held()) - leak && |leak| <= 1
      ensures c != 0 ==>
                Copying(old(St()), St(), d, c, Up(sz), data) && leak == {} && FreshFrames(old(free), St(), c, Up(sz))
      ensures c != 0 ==> DirectMap(St(), c, data)
      ensures c != 0 <==> |old(free)| >= FramesToCopy(Up(sz))
      ensures c == 0 ==> if |old(free)| < 65 then free == [] else own == old(own)
    {
      hide Kernel.Valid, Ok, FreeChain, Kept, Lookup, Copying, OwnGrows, FreshFrames, Held, Up, Unmapped, KernelPart;
      hide DirectMap, Tables, KernelTables, Interval, Kernel.Count, FramesToCopy, UserTables;
      ValidOk();
      ghost var s := St();
      UpUser(sz);
      leak := {};
      ghost var g;
      c, g := SetupKvm(data);
      if c == 0 {
        return;
      }
      CopyingNone(s, St(), d, c, data);
      NothingCopied(c, |old(free)|);
      var ok;
      ok, leak := CopyPages(d, c, sz, s, data, |old(free)|);
      if !ok {
        return 0, leak;
      }
      ValidOk();
      CopyingDone(s, St(), d, c, Up(sz), old(free), Held(), data);
      CopyingDirect(s, St(), d, c, Up(sz), data);
    }

    /** copyuvm's loop; n is the number of frames that were free at the start. */
    method CopyPages(d: nat, c: nat, sz: nat, ghost s: Mem, ghost data: nat, ghost n: nat)
      returns (ok: bool, ghost leak: set<nat>)
      requires Valid() && Copying(s, St(), d, c, 0, data) && sz <= KERNBASE && c < mem.Length && CopyTables(c, 0, n)
      requires d < |s.pages| && forall q: nat | q < Up(sz) && q < USER :: Lookup(s, d, q) != 0
      modifies this`freelist, this`free, this`own, mem
      ensures Valid() && Up(sz) <= USER && Held() == old(Held()) - leak && |leak| <= 1
      ensures ok <==> n >= FramesToCopy(Up(sz))
      ensures ok ==> Copying(s, St(), d, c, Up(sz), data) && leak == {}
      ensures !ok ==> |s.pages| == NFRAMES == mem.Length && Kept(s, St(), 0, 0, 0) && own == s.own
    {
      hide Kernel.Valid, Ok, FreeChain, Kept, Lookup, Copying, OwnGrows, Held, Up;
      hide Tables, KernelTables, Interval, Kernel.Count, FramesToCopy, UserTables;
      UpUser(sz);
      leak := {};
      var p := 0;
      UpReach(p, sz);
      while p * PGSIZE < sz
        invariant p <= Up(sz) <= USER && (p * PGSIZE < sz <==> p < Up(sz)) && Valid() && Held() == old(Held())
        invariant Copying(s, St(), d, c, p, data) && CopyTables(c, p, n) && leak == {}
        decreases Up(sz) - p
      {
        FramesToCopyGrow(p, Up(sz));
        CopyTablesAt(c, p, n);
        ok, leak := CopyPage(d, c, p, s, data);
        if !ok {
          ValidOk();
          CopyingAt(s, St(), d, c, p, data);
          UndoCopy(d, c, p, s, data);
          return;
        }
        p := p + 1;
        UpReach(p, sz);
        assert CopyTables(c, p, n);
      }
      CopyTablesAt(c, p, n);
      ok := true;
    }

    /** copyuvm's failure path. */
    method UndoCopy(d: nat, c: nat, p: nat, ghost s: Mem, ghost data: nat)
      requires Valid() && Copying(s, St(), d, c, p, data)
      modifies this`freelist, this`free, this`own, mem
      ensures Valid() && Kept(s, St(), 0, 0, 0) && Held() == old(Held()) && own == s.own
    {
      ghost var m := St();
      CopyingAt(s, m, d, c, p, data);
      hide Ok, FreeChain, Lookup, Held, Kept;
      FreeVm(c);
      Undone(s, m, St(), d, c, p, data);
    }

    /** kinit: no frame is in use and freerange puts all of them on the free list. */
    constructor (lo: nat)
      requires 1 <= lo <= NFRAMES
      ensures Valid() && own == map[] && fresh(mem)
      ensures forall f: nat :: f in free <==> lo <= f < NFRAMES
    {
      mem := new Page[NFRAMES](_ => ZeroPage());
      this.lo := lo;
      freelist := 0;
      free := [];
      own := map[];
      new;
      FreeRange(lo, NFRAMES);
    }

    method FreeRange(a: nat, b: nat)
      requires Valid() && lo <= a && b <= NFRAMES && forall f: nat | a <= f < b :: Loose(f)
      modifies this`freelist, this`free, mem
      ensures Valid() && Kept(old(St()), St(), 0, 0, 0)
      ensures forall f: nat :: f in free <==> f in old(free) || a <= f < b
    {
      hide Ok, FreeChain, Kept, Held;
      ghost var s := St();
      KeptSelf(s, 0, 0, 0);
      var p := a;
      while p + 1 <= b
        invariant a <= p && (p == a || p <= b) && Valid() && Kept(s, St(), 0, 0, 0)
        invariant forall f: nat :: f in free <==> f in old(free) || a <= f < p
        invariant forall f: nat | p <= f < b :: Loose(f)
      {
        ghost var m, held := St(), Held();
        forall f: nat | p <= f < b ensures f !in held {
          assert Loose(f);
        }
        Kfree(p);
        assert Held() == held + {p};
        KeptTrans(s, m, St(), 0, 0, 0);
        p := p + 1;
        forall f: nat | p <= f < b ensures Loose(f) {
          assert f !in held;
        }
      }
    }
  }
}
