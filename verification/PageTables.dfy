/** Two-level page tables (vm.c, mmu.h) as values: physical pages of 1024 words, and a ghost record
    of what each allocated frame is used for. Page and frame numbers stand for addresses. */
module PageTables {

  import opened Blocks

  const PGSIZE: nat := 4096
  const NENT: nat := 1024
  /** Pages below KERNBASE, and pages of the whole 32-bit address space. */
  const USER: nat := 0x8_0000
  const NPAGES: nat := 0x10_0000
  /** Frames below PHYSTOP. */
  const NFRAMES: nat := 0xE000

  type Page = p: seq<Word> | |p| == NENT witness seq(NENT, _ => 0)

  function ZeroPage(): (p: Page) {
    seq(NENT, _ => 0)
  }

  /** A page-table entry: frame number and twelve flag bits, the lowest of which is PTE_P. */
  function Entry(f: nat, flags: nat): (w: Word)
    requires f < NPAGES && flags < PGSIZE
    ensures Frame(w) == f && Flags(w) == flags
  {
    f * PGSIZE + flags
  }

  function Frame(w: Word): (f: nat) {
    w / PGSIZE
  }

  function Flags(w: Word): (x: nat) {
    w % PGSIZE
  }

  predicate Present(w: Word) {
    w % 2 == 1
  }

  /** perm | PTE_P */
  function WithP(perm: nat): (x: nat)
    ensures x % 2 == 1 && (perm % 2 == 1 ==> x == perm) && (perm < PGSIZE ==> x < PGSIZE)
  {
    perm / 2 * 2 + 1
  }

  lemma EntryPresent(f: nat, flags: nat)
    requires f < NPAGES && flags < PGSIZE
    ensures Present(Entry(f, flags)) <==> flags % 2 == 1
  {
  }

  /** What an allocated frame is for: a page directory, table i of d, or user page p of d. */
  datatype Slot = Dir | Tab(d: nat, i: nat) | User(d: nat, p: nat)

  datatype Mem = Mem(pages: seq<Page>, own: map<nat, Slot>)

  ghost predicate IsDir(m: Mem, d: nat) {
    d < |m.pages| && d in m.own && m.own[d] == Dir
  }

  function Pde(m: Mem, d: nat, i: nat): (w: Word)
    requires d < |m.pages| && i < NENT
  {
    m.pages[d][i]
  }

  predicate HasTable(m: Mem, d: nat, i: nat)
    requires d < |m.pages| && i < NENT
  {
    Present(Pde(m, d, i))
  }

  /** The entry that maps page p, or 0 when it is not mapped: the map a directory stands for. */
  function Lookup(m: Mem, d: nat, p: nat): (w: Word)
    requires d < |m.pages| && p < NPAGES
    ensures w != 0 ==> Present(w)
  {
    if !HasTable(m, d, p / NENT) then 0
    else
      var t := Frame(Pde(m, d, p / NENT));
      if t >= |m.pages| then 0
      else
        var w := m.pages[t][p % NENT];
        if Present(w) then w else 0
  }

  /** Tables and user pages that a directory refers to are recorded as such, and a directory entry takes no
      permission away: what a page allows is what its own entry says. */
  ghost predicate DirOk(m: Mem, d: nat)
    requires d < |m.pages|
  {
    && (forall i: nat | i < NENT && HasTable(m, d, i) ::
          var t := Frame(Pde(m, d, i));
          t < |m.pages| && t in m.own && m.own[t] == Tab(d, i) && Flags(Pde(m, d, i)) == 7)
    && (forall p: nat | p < USER && Lookup(m, d, p) != 0 ::
          var f := Frame(Lookup(m, d, p)); f in m.own && m.own[f] == User(d, p))
  }

  /** A recorded frame is in use as recorded. */
  ghost predicate InUse(m: Mem, f: nat)
    requires f in m.own
  {
    match m.own[f]
    case Dir => true
    case Tab(d, i) => IsDir(m, d) && i < NENT && HasTable(m, d, i) && Frame(Pde(m, d, i)) == f
    case User(d, p) => IsDir(m, d) && p < USER && Lookup(m, d, p) != 0 && Frame(Lookup(m, d, p)) == f
  }

  ghost predicate Ok(m: Mem) {
    && |m.pages| == NFRAMES
    && (forall d | IsDir(m, d) :: DirOk(m, d))
    && (forall f | f in m.own :: f < NFRAMES && InUse(m, f))
  }

  // ----- what other pages see

  /** Tables stay, and outside pages [a, b) of directory d nothing has changed: not the maps, not
      the user data. */
  ghost predicate Kept(m: Mem, n: Mem, d: nat, a: nat, b: nat)
    requires |m.pages| == |n.pages|
  {
    && (forall e | IsDir(m, e) :: IsDir(n, e))
    && (forall e, i: nat | IsDir(m, e) && i < NENT && HasTable(m, e, i) :: Pde(n, e, i) == Pde(m, e, i))
    && (forall e, q: nat | IsDir(m, e) && q < NPAGES && !(e == d && a <= q < b) :: Lookup(n, e, q) == Lookup(m, e, q))
    && (forall f | f in m.own && f < |m.pages| && m.own[f].User? && !(m.own[f].d == d && a <= m.own[f].p < b) ::
          f in n.own && n.own[f] == m.own[f] && n.pages[f] == m.pages[f])
  }

  lemma KeptTrans(m: Mem, n: Mem, k: Mem, d: nat, a: nat, b: nat)
    requires |m.pages| == |n.pages| == |k.pages| && Kept(m, n, d, a, b) && Kept(n, k, d, a, b)
    ensures Kept(m, k, d, a, b)
  {
  }

  lemma KeptWiden(m: Mem, n: Mem, d: nat, a: nat, b: nat, c: nat, e: nat)
    requires |m.pages| == |n.pages| && Kept(m, n, d, a, b) && (a < b ==> c <= a && b <= e)
    ensures Kept(m, n, d, c, e)
  {
  }

  /** A frame is still in use if directories have not changed and its page, if it has one, is mapped as before. */
  lemma InUseKept(m: Mem, n: Mem, f: nat)
    requires |m.pages| == |n.pages| && f in m.own && InUse(m, f) && f in n.own && n.own[f] == m.own[f]
    requires forall e: nat | IsDir(m, e) :: IsDir(n, e) && n.pages[e] == m.pages[e]
    requires m.own[f].User? ==> Lookup(n, m.own[f].d, m.own[f].p) == Lookup(m, m.own[f].d, m.own[f].p)
    ensures InUse(n, f)
  {
    hide Lookup;
  }

  /** A directory stays sound if its entries, its map and the records of what they name stay. */
  lemma DirOkKept(m: Mem, n: Mem, d: nat)
    requires |m.pages| == |n.pages| && d < |m.pages| && DirOk(m, d) && n.pages[d] == m.pages[d]
    requires forall p: nat | p < USER :: Lookup(n, d, p) == Lookup(m, d, p)
    requires forall f | f in m.own && m.own[f] != Dir && m.own[f].d == d :: f in n.own && n.own[f] == m.own[f]
    ensures DirOk(n, d)
  {
    hide Lookup;
    forall i: nat | i < NENT && HasTable(n, d, i)
      ensures var t := Frame(Pde(n, d, i));
              t < |n.pages| && t in n.own && n.own[t] == Tab(d, i) && Flags(Pde(n, d, i)) == 7
    {
      assert HasTable(m, d, i);
    }
    forall p: nat | p < USER && Lookup(n, d, p) != 0
      ensures var f := Frame(Lookup(n, d, p)); f in n.own && n.own[f] == User(d, p)
    {
      assert Lookup(m, d, p) != 0;
    }
  }

  // ----- writing a page that no table walk reads

  lemma DataWrite(m: Mem, f: nat, page: Page)
    requires Ok(m) && f < NFRAMES && (f !in m.own || m.own[f].User?)
    ensures var n := m.(pages := m.pages[f := page]);
            && Ok(n)
            && forall d, p: nat | IsDir(m, d) && p < NPAGES :: Lookup(n, d, p) == Lookup(m, d, p)
  {
    var n := m.(pages := m.pages[f := page]);
    forall d, p: nat | IsDir(m, d) && p < NPAGES ensures Lookup(n, d, p) == Lookup(m, d, p) {
      SameLookup(m, n, d, p);
    }
    assert forall d | IsDir(n, d) :: IsDir(m, d);
    forall d | IsDir(n, d) ensures DirOk(n, d) {
      assert DirOk(m, d);
      DirOkKept(m, n, d);
    }
    forall g | g in n.own ensures InUse(n, g) {
      assert InUse(m, g);
    }
  }

  /** A lookup reads the directory and one of its tables. */
  lemma SameLookup(m: Mem, n: Mem, d: nat, p: nat)
    requires Ok(m) && IsDir(m, d) && |n.pages| == |m.pages| && p < NPAGES
    requires n.pages[d] == m.pages[d]
    requires forall t | t in m.own && t < |m.pages| && m.own[t].Tab? :: n.pages[t] == m.pages[t]
    ensures Lookup(n, d, p) == Lookup(m, d, p)
  {
    assert DirOk(m, d);
  }

  // ----- walkpgdir's new table

  ghost function AddTable(m: Mem, d: nat, i: nat, t: nat): (n: Mem)
    requires d < |m.pages| && i < NENT && t < NPAGES
  {
    Mem(m.pages[d := m.pages[d][i := Entry(t, 7)]], m.own[t := Tab(d, i)])
  }

  lemma AddTableOk(m: Mem, d: nat, i: nat, t: nat)
    requires Ok(m) && IsDir(m, d) && i < NENT && !HasTable(m, d, i) && t < NFRAMES && t !in m.own &&
             m.pages[t] == ZeroPage()
    ensures var n := AddTable(m, d, i, t);
            && Ok(n) && Kept(m, n, d, 0, 0) && HasTable(n, d, i) && Frame(Pde(n, d, i)) == t
  {
    var n := AddTable(m, d, i, t);
    EntryPresent(t, 7);
    forall e, p: nat | IsDir(m, e) && p < NPAGES ensures Lookup(n, e, p) == Lookup(m, e, p) {
      AddTableLookup(m, d, i, t, e, p);
    }
    assert forall e | IsDir(n, e) :: IsDir(m, e);
    hide Lookup;
    forall e | IsDir(n, e) ensures DirOk(n, e) {
      assert DirOk(m, e);
      if e == d {
        AddTableDir(m, d, i, t);
      } else {
        DirOkKept(m, n, e);
      }
    }
    forall g | g in n.own ensures g < NFRAMES && InUse(n, g) {
      if g != t {
        assert InUse(m, g);
        AddTableInUse(m, d, i, t, g);
      }
    }
  }

  lemma AddTableInUse(m: Mem, d: nat, i: nat, t: nat, g: nat)
    requires Ok(m) && IsDir(m, d) && i < NENT && !HasTable(m, d, i) && t < NFRAMES && t !in m.own && g in m.own &&
             InUse(m, g)
    requires forall e, p: nat | IsDir(m, e) && p < NPAGES :: Lookup(AddTable(m, d, i, t), e, p) == Lookup(m, e, p)
    ensures InUse(AddTable(m, d, i, t), g)
  {
    hide Lookup, Entry;
  }

  lemma AddTableDir(m: Mem, d: nat, i: nat, t: nat)
    requires Ok(m) && IsDir(m, d) && DirOk(m, d) && i < NENT && !HasTable(m, d, i) && t < NFRAMES && t !in m.own
    requires forall p: nat | p < NPAGES :: Lookup(AddTable(m, d, i, t), d, p) == Lookup(m, d, p)
    ensures DirOk(AddTable(m, d, i, t), d)
  {
    hide Lookup;
    var n := AddTable(m, d, i, t);
    forall k: nat | k < NENT && HasTable(n, d, k)
      ensures var f := Frame(Pde(n, d, k));
              f < |n.pages| && f in n.own && n.own[f] == Tab(d, k) && Flags(Pde(n, d, k)) == 7
    {
      assert k != i ==> HasTable(m, d, k);
    }
    forall p: nat | p < USER && Lookup(n, d, p) != 0
      ensures var f := Frame(Lookup(n, d, p)); f in n.own && n.own[f] == User(d, p)
    {
      assert Lookup(m, d, p) != 0;
    }
  }

  lemma AddTableLookup(m: Mem, d: nat, i: nat, t: nat, e: nat, p: nat)
    requires Ok(m) && IsDir(m, d) && i < NENT && !HasTable(m, d, i) && t < NFRAMES && t !in m.own &&
             m.pages[t] == ZeroPage()
    requires IsDir(m, e) && p < NPAGES
    ensures Lookup(AddTable(m, d, i, t), e, p) == Lookup(m, e, p)
  {
    EntryPresent(t, 7);
    assert DirOk(m, e);
  }

  // ----- writing one entry of a table

  ghost function SetPte(m: Mem, d: nat, p: nat, w: Word): (n: Mem)
    requires d < |m.pages| && p < NPAGES && HasTable(m, d, p / NENT) && Frame(Pde(m, d, p / NENT)) < |m.pages|
    ensures |n.pages| == |m.pages| && n.own == m.own
  {
    var t := Frame(Pde(m, d, p / NENT));
    m.(pages := m.pages[t := m.pages[t][p % NENT := w]])
  }

  /** Writing the entry of (d, p) changes the map at (d, p) and nowhere else. */
  lemma SetPteLookup(m: Mem, d: nat, p: nat, w: Word, e: nat, q: nat)
    requires Ok(m) && IsDir(m, d) && p < NPAGES && HasTable(m, d, p / NENT) && IsDir(m, e) && q < NPAGES
    ensures Frame(Pde(m, d, p / NENT)) < NFRAMES
    ensures Lookup(SetPte(m, d, p, w), e, q) == if e == d && q == p then (if Present(w) then w else 0)
            else Lookup(m, e, q)
    ensures SetPte(m, d, p, w).pages[e] == m.pages[e]
  {
    assert DirOk(m, d) && DirOk(m, e);
    if q / NENT == p / NENT && q % NENT == p % NENT {
      assert q == q / NENT * NENT + q % NENT && p == p / NENT * NENT + p % NENT;
    }
  }

  lemma SetPteAll(m: Mem, d: nat, p: nat, w: Word)
    requires Ok(m) && IsDir(m, d) && p < NPAGES && HasTable(m, d, p / NENT)
    ensures Frame(Pde(m, d, p / NENT)) < NFRAMES
    ensures var n := SetPte(m, d, p, w);
            forall e, q: nat | IsDir(m, e) && q < NPAGES ::
              Lookup(n, e, q) == if e == d && q == p then (if Present(w) then w else 0) else Lookup(m, e, q)
    ensures var n := SetPte(m, d, p, w); forall e: nat | IsDir(m, e) :: n.pages[e] == m.pages[e]
    ensures var n := SetPte(m, d, p, w); forall f | f in m.own && f < NFRAMES && m.own[f].User? ::
              n.pages[f] == m.pages[f]
  {
    forall e, q: nat | IsDir(m, e) && q < NPAGES
      ensures Frame(Pde(m, d, p / NENT)) < NFRAMES
      ensures Lookup(SetPte(m, d, p, w), e, q) == if e == d && q == p then (if Present(w) then w else 0)
              else Lookup(m, e, q)
    {
      SetPteLookup(m, d, p, w, e, q);
    }
    assert DirOk(m, d);
  }

  /** The entry of an unmapped user page is set to a frame nobody uses. */
  lemma MapUser(m: Mem, d: nat, p: nat, f: nat, flags: nat)
    requires Ok(m) && IsDir(m, d) && p < USER && HasTable(m, d, p / NENT) && Lookup(m, d, p) == 0
    requires f < NFRAMES && f !in m.own && flags < PGSIZE && flags % 2 == 1
    ensures Frame(Pde(m, d, p / NENT)) < NFRAMES
    ensures var n := SetPte(m, d, p, Entry(f, flags)).(own := m.own[f := User(d, p)]);
            Ok(n) && Kept(m, n, d, p, p + 1) && Lookup(n, d, p) == Entry(f, flags)
  {
    var w := Entry(f, flags);
    EntryPresent(f, flags);
    SetPteAll(m, d, p, w);
    var n := SetPte(m, d, p, w).(own := m.own[f := User(d, p)]);
    assert forall e, q: nat | IsDir(m, e) && q < NPAGES :: Lookup(n, e, q) == Lookup(SetPte(m, d, p, w), e, q);
    hide Lookup, SetPte, Ok, Entry;
    MapUserOk(m, n, d, p, f);
  }

  lemma MapUserOk(m: Mem, n: Mem, d: nat, p: nat, f: nat)
    requires Ok(m) && IsDir(m, d) && |n.pages| == NFRAMES && p < USER && f < NFRAMES && f !in m.own
    requires n.own == m.own[f := User(d, p)] && forall e: nat | IsDir(m, e) :: n.pages[e] == m.pages[e]
    requires Lookup(m, d, p) == 0 && Lookup(n, d, p) != 0 && Frame(Lookup(n, d, p)) == f
    requires forall e, q: nat | IsDir(m, e) && q < NPAGES && !(e == d && q == p) :: Lookup(n, e, q) == Lookup(m, e, q)
    ensures Ok(n)
  {
    hide Lookup;
    assert forall e | IsDir(n, e) :: IsDir(m, e);
    forall e | IsDir(n, e) ensures DirOk(n, e) {
      assert DirOk(m, e);
      hide DirOk;
      if e == d {
        MapUserDir(m, n, d, p, f);
      } else {
        DirOkKept(m, n, e);
      }
    }
    forall g | g in n.own ensures g < NFRAMES && InUse(n, g) {
      if g != f {
        assert InUse(m, g);
        InUseKept(m, n, g);
      }
    }
  }

  lemma MapUserDir(m: Mem, n: Mem, d: nat, p: nat, f: nat)
    requires |m.pages| == |n.pages| && d < |m.pages| && DirOk(m, d) && n.pages[d] == m.pages[d] && p < USER
    requires f !in m.own && n.own == m.own[f := User(d, p)] && Frame(Lookup(n, d, p)) == f
    requires forall q: nat | q < USER && q != p :: Lookup(n, d, q) == Lookup(m, d, q)
    ensures DirOk(n, d)
  {
    hide Lookup;
    forall i: nat | i < NENT && HasTable(n, d, i)
      ensures var t := Frame(Pde(n, d, i)); t < |n.pages| && t in n.own && n.own[t] == Tab(d, i)
    {
      assert HasTable(m, d, i);
    }
    forall q: nat | q < USER && Lookup(n, d, q) != 0
      ensures var g := Frame(Lookup(n, d, q)); g in n.own && n.own[g] == User(d, q)
    {
      assert q != p ==> Lookup(m, d, q) != 0;
    }
  }

  /** The entry of a kernel page is set; kernel pages belong to nobody. */
  lemma MapKernel(m: Mem, d: nat, p: nat, f: nat, flags: nat)
    requires Ok(m) && IsDir(m, d) && USER <= p < NPAGES && HasTable(m, d, p / NENT)
    requires f < NPAGES && flags < PGSIZE && flags % 2 == 1
    ensures Frame(Pde(m, d, p / NENT)) < NFRAMES
    ensures var n := SetPte(m, d, p, Entry(f, flags));
            Ok(n) && Kept(m, n, d, p, p + 1) && Lookup(n, d, p) == Entry(f, flags)
  {
    var w := Entry(f, flags);
    EntryPresent(f, flags);
    SetPteAll(m, d, p, w);
    var n := SetPte(m, d, p, w);
    assert forall e | IsDir(n, e) :: IsDir(m, e);
    hide Lookup, SetPte;
    forall e | IsDir(n, e) ensures DirOk(n, e) {
      assert DirOk(m, e);
      DirOkKept(m, n, e);
    }
    forall g | g in n.own ensures g < NFRAMES && InUse(n, g) {
      assert InUse(m, g);
      InUseKept(m, n, g);
    }
  }

  /** A user page is unmapped and its frame is nobody's. */
  lemma Unmap(m: Mem, d: nat, p: nat)
    requires Ok(m) && IsDir(m, d) && p < USER && HasTable(m, d, p / NENT) && Lookup(m, d, p) != 0
    ensures Frame(Pde(m, d, p / NENT)) < NFRAMES
    ensures var f := Frame(Lookup(m, d, p));
            var n := SetPte(m, d, p, 0).(own := m.own - {f});
            && f in m.own && m.own[f] == User(d, p)
            && Ok(n) && Kept(m, n, d, p, p + 1) && Lookup(n, d, p) == 0
  {
    SetPteAll(m, d, p, 0);
    assert DirOk(m, d);
    var f := Frame(Lookup(m, d, p));
    var n := SetPte(m, d, p, 0).(own := m.own - {f});
    assert forall e, q: nat | IsDir(m, e) && q < NPAGES :: Lookup(n, e, q) == Lookup(SetPte(m, d, p, 0), e, q);
    hide Lookup, SetPte, Ok;
    UnmapOk(m, n, d, p, f);
  }

  lemma UnmapOk(m: Mem, n: Mem, d: nat, p: nat, f: nat)
    requires Ok(m) && IsDir(m, d) && |n.pages| == NFRAMES && p < USER && f in m.own && m.own[f] == User(d, p)
    requires n.own == m.own - {f} && forall e: nat | IsDir(m, e) :: n.pages[e] == m.pages[e]
    requires Lookup(n, d, p) == 0 && Frame(Lookup(m, d, p)) == f
    requires forall e, q: nat | IsDir(m, e) && q < NPAGES && !(e == d && q == p) :: Lookup(n, e, q) == Lookup(m, e, q)
    ensures Ok(n)
  {
    hide Lookup;
    assert forall e | IsDir(n, e) :: IsDir(m, e);
    forall e | IsDir(n, e) ensures DirOk(n, e) {
      assert DirOk(m, e);
      hide DirOk;
      if e == d {
        UnmapDir(m, n, d, p, f);
      } else {
        DirOkKept(m, n, e);
      }
    }
    forall g | g in n.own ensures g < NFRAMES && InUse(n, g) {
      assert InUse(m, g);
      InUseKept(m, n, g);
    }
  }

  lemma UnmapDir(m: Mem, n: Mem, d: nat, p: nat, f: nat)
    requires |m.pages| == |n.pages| && d < |m.pages| && DirOk(m, d) && n.pages[d] == m.pages[d] && p < USER
    requires f in m.own && m.own[f] == User(d, p) && n.own == m.own - {f} && Lookup(n, d, p) == 0
    requires forall q: nat | q < USER && q != p :: Lookup(n, d, q) == Lookup(m, d, q)
    ensures DirOk(n, d)
  {
    hide Lookup;
    forall i: nat | i < NENT && HasTable(n, d, i)
      ensures var t := Frame(Pde(n, d, i)); t < |n.pages| && t in n.own && n.own[t] == Tab(d, i)
    {
      assert HasTable(m, d, i);
    }
    forall q: nat | q < USER && Lookup(n, d, q) != 0
      ensures var g := Frame(Lookup(n, d, q)); g in n.own && n.own[g] == User(d, q)
    {
      assert q != p && Lookup(m, d, q) != 0;
    }
  }

  // ----- directories come and go

  lemma NewDir(m: Mem, d: nat)
    requires Ok(m) && d < NFRAMES && d !in m.own && m.pages[d] == ZeroPage()
    ensures var n := m.(own := m.own[d := Dir]);
            Ok(n) && Kept(m, n, d, 0, 0) && IsDir(n, d) && forall p: nat | p < NPAGES :: Lookup(n, d, p) == 0
  {
    var n := m.(own := m.own[d := Dir]);
    assert forall i: nat | i < NENT :: !HasTable(n, d, i);
    assert forall p: nat | p < NPAGES :: Lookup(n, d, p) == 0;
    assert forall e, q: nat | IsDir(m, e) && q < NPAGES :: Lookup(n, e, q) == Lookup(m, e, q);
    hide Lookup, HasTable, Ok;
    NewDirOk(m, n, d);
  }

  lemma NewDirOk(m: Mem, n: Mem, d: nat)
    requires Ok(m) && d < NFRAMES && d !in m.own && n.pages == m.pages && n.own == m.own[d := Dir]
    requires (forall i: nat | i < NENT :: !HasTable(n, d, i)) && forall p: nat | p < NPAGES :: Lookup(n, d, p) == 0
    requires forall e, q: nat | IsDir(m, e) && q < NPAGES :: Lookup(n, e, q) == Lookup(m, e, q)
    ensures Ok(n)
  {
    hide Lookup;
    assert DirOk(n, d);
    assert forall e | IsDir(n, e) && e != d :: IsDir(m, e);
    forall e | IsDir(n, e) && e != d ensures DirOk(n, e) {
      assert DirOk(m, e);
      DirOkKept(m, n, e);
    }
    forall g | g in n.own ensures g < NFRAMES && InUse(n, g) {
      if g != d {
        assert InUse(m, g);
        InUseKept(m, n, g);
      }
    }
  }

  /** The directory and its tables. */
  ghost predicate Belongs(m: Mem, d: nat, f: nat) {
    f in m.own && (f == d || (m.own[f].Tab? && m.own[f].d == d) || (m.own[f].User? && m.own[f].d == d))
  }

  ghost function Dropped(m: Mem, d: nat): (n: Mem) {
    m.(own := map f | f in m.own && !Belongs(m, d, f) :: m.own[f])
  }

  /** No directory but d sees or loses anything. */
  ghost predicate OthersKept(m: Mem, n: Mem, d: nat)
    requires |m.pages| == |n.pages|
  {
    && (forall e | IsDir(m, e) && e != d :: IsDir(n, e))
    && (forall e, i: nat | IsDir(m, e) && e != d && i < NENT && HasTable(m, e, i) :: Pde(n, e, i) == Pde(m, e, i))
    && (forall e, q: nat | IsDir(m, e) && q < NPAGES && e != d :: Lookup(n, e, q) == Lookup(m, e, q))
    && (forall f | f in m.own && f < |m.pages| && m.own[f].User? && m.own[f].d != d ::
          f in n.own && n.own[f] == m.own[f] && n.pages[f] == m.pages[f])
  }

  lemma OthersTrans(m: Mem, n: Mem, k: Mem, d: nat)
    requires |m.pages| == |n.pages| == |k.pages| && OthersKept(m, n, d) && OthersKept(n, k, d)
    ensures OthersKept(m, k, d)
  {
  }

  lemma KeptOthers(m: Mem, n: Mem, d: nat, a: nat, b: nat)
    requires |m.pages| == |n.pages| && Kept(m, n, d, a, b)
    ensures OthersKept(m, n, d)
  {
  }

  lemma DropOk(m: Mem, d: nat)
    requires Ok(m) && IsDir(m, d)
    ensures Ok(Dropped(m, d)) && OthersKept(m, Dropped(m, d), d)
  {
    var n := Dropped(m, d);
    assert forall e, q: nat | IsDir(m, e) && q < NPAGES :: Lookup(n, e, q) == Lookup(m, e, q);
    assert forall e | IsDir(n, e) :: IsDir(m, e) && e != d;
    forall e | IsDir(n, e) ensures DirOk(n, e) {
      assert DirOk(m, e);
      DirOkKept(m, n, e);
    }
    forall g | g in n.own ensures InUse(n, g) {
      assert InUse(m, g);
    }
  }

  // ----- deallocuvm's walk

  /** deallocuvm, going from page p up to hi, looks at page x. */
  ghost predicate Visited(m: Mem, d: nat, p: nat, hi: nat, x: nat)
    requires d < |m.pages| && hi <= USER
    decreases hi - p
  {
    p < hi && if !HasTable(m, d, p / NENT) then Visited(m, d, p + NENT, hi, x)
              else x == p || Visited(m, d, p + 1, hi, x)
  }

  /** From the start of a table, or inside one that is present, it looks at every page that has a table. */
  lemma {:induction false} VisitsAligned(m: Mem, d: nat, p: nat, hi: nat, x: nat)
    requires d < |m.pages| && hi <= USER && p <= x < hi && HasTable(m, d, x / NENT)
    requires p % NENT == 0 || HasTable(m, d, p / NENT)
    ensures Visited(m, d, p, hi, x)
    decreases hi - p
  {
    if HasTable(m, d, p / NENT) {
      if x != p {
        NextPage(p);
        VisitsAligned(m, d, p + 1, hi, x);
      }
    } else {
      SkipsTable(p, x);
      VisitsAligned(m, d, p + NENT, hi, x);
    }
  }

  lemma NextPage(p: nat)
    ensures (p + 1) % NENT == 0 || (p + 1) / NENT == p / NENT
  {
  }

  lemma SkipsTable(p: nat, x: nat)
    requires p <= x && x / NENT != p / NENT
    ensures (p + NENT) / NENT == p / NENT + 1 && (p + NENT) % NENT == p % NENT
    ensures p % NENT == 0 ==> p + NENT <= x
  {
  }

  /** Starting inside a missing table it comes into the next present one at the same offset and
      misses the pages before that. */
  lemma {:induction false} VisitsOffset(m: Mem, d: nat, p: nat, hi: nat, i: nat, x: nat)
    requires d < |m.pages| && hi <= USER && p / NENT < i < NENT && x < hi && x / NENT == i && x % NENT < p % NENT
    requires forall k: nat | p / NENT <= k < i :: !HasTable(m, d, k)
    ensures !Visited(m, d, p, hi, x)
    decreases hi - p
  {
    if p < hi {
      SkipsTable(p, p + NENT);
      var q := p + NENT;
      if q / NENT < i {
        VisitsOffset(m, d, q, hi, i, x);
      } else {
        assert q / NENT == i && q % NENT == p % NENT && x < q;
        NotBefore(m, d, q, hi, x);
      }
    }
  }

  lemma {:induction false} NotBefore(m: Mem, d: nat, p: nat, hi: nat, x: nat)
    requires d < |m.pages| && hi <= USER && x < p
    ensures !Visited(m, d, p, hi, x)
    decreases hi - p
  {
    if p < hi {
      NotBefore(m, d, p + NENT, hi, x);
      NotBefore(m, d, p + 1, hi, x);
    }
  }

  lemma {:induction false} VisitsForward(m: Mem, d: nat, p: nat, hi: nat, x: nat)
    requires d < |m.pages| && hi <= USER && Visited(m, d, p, hi, x)
    ensures p <= x < hi && HasTable(m, d, x / NENT)
    decreases hi - p
  {
    if !HasTable(m, d, p / NENT) {
      VisitsForward(m, d, p + NENT, hi, x);
    } else if x != p {
      VisitsForward(m, d, p + 1, hi, x);
    }
  }

  /** Some table at or above i, below n, is present. */
  ghost predicate TableFrom(m: Mem, d: nat, i: nat, n: nat)
    requires d < |m.pages| && n <= NENT
  {
    exists k: nat :: i <= k < n && HasTable(m, d, k)
  }

  lemma {:induction false} FirstTable(m: Mem, d: nat, i: nat, n: nat) returns (k: nat)
    requires d < |m.pages| && n <= NENT && TableFrom(m, d, i, n)
    ensures i <= k < n && HasTable(m, d, k) && forall j: nat | i <= j < k :: !HasTable(m, d, j)
    decreases n - i
  {
    if HasTable(m, d, i) {
      k := i;
    } else {
      k := FirstTable(m, d, i + 1, n);
    }
  }

  /** The walk from lo up to hi sees every page with a page table exactly if it starts at a table
      boundary or in a table that is present, or if there is no table further on. */
  lemma VisitsIff(m: Mem, d: nat, lo: nat, hi: nat)
    requires d < |m.pages| && lo < hi <= USER
    ensures (forall x: nat | lo <= x < hi && HasTable(m, d, x / NENT) :: Visited(m, d, lo, hi, x))
            <==> (lo % NENT == 0 || HasTable(m, d, lo / NENT) || !TableFrom(m, d, lo / NENT, (hi - 1) / NENT + 1))
  {
    var n := (hi - 1) / NENT + 1;
    if lo % NENT == 0 || HasTable(m, d, lo / NENT) {
      forall x: nat | lo <= x < hi && HasTable(m, d, x / NENT) ensures Visited(m, d, lo, hi, x) {
        VisitsAligned(m, d, lo, hi, x);
      }
    } else if TableFrom(m, d, lo / NENT, n) {
      var i := FirstTable(m, d, lo / NENT, n);
      var x := i * NENT;
      assert x / NENT == i && x % NENT == 0 && lo <= x < hi;
      VisitsOffset(m, d, lo, hi, i, x);
    } else {
      forall x: nat | lo <= x < hi ensures !HasTable(m, d, x / NENT) {
        assert lo / NENT <= x / NENT < n;
      }
    }
  }
}
