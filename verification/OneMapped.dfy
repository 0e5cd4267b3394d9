/** An address space with one page, at which deallocuvm misses the page and allocuvm loses one. */
module OneMapped {

  import opened PageTables
  import opened Vm

  /** The directory in frame 1 has table 1 alone, in frame 2, and in it the first page, in frame 3. */
  function OnePage(): (m: Mem) {
    var dir: Page := ZeroPage()[1 := Entry(2, 7)];
    var tab: Page := ZeroPage()[0 := Entry(3, 7)];
    Mem([ZeroPage(), dir, tab] + seq(NFRAMES - 3, _ => ZeroPage()), map[1 := Dir, 2 := Tab(1, 1), 3 := User(1, NENT)])
  }

  lemma OnePageTables()
    ensures var m := OnePage(); |m.pages| == NFRAMES && forall i: nat | i < NENT :: HasTable(m, 1, i) <==> i == 1
    ensures Frame(Pde(OnePage(), 1, 1)) == 2
  {
    EntryPresent(2, 7);
    var m := OnePage();
    assert m.pages[1] == ZeroPage()[1 := Entry(2, 7)];
  }

  lemma OnePageLookup(p: nat)
    requires p < NPAGES
    ensures Lookup(OnePage(), 1, p) == if p == NENT then Entry(3, 7) else 0
  {
    OnePageTables();
    EntryPresent(3, 7);
    var m := OnePage();
    assert m.pages[2] == ZeroPage()[0 := Entry(3, 7)];
    assert p / NENT == 1 && p % NENT == 0 <==> p == NENT;
  }

  /** Frame 0 is not used: its address is the null pointer. */
  lemma OnePageOk()
    ensures Ok(OnePage()) && IsDir(OnePage(), 1) && 0 !in OnePage().own
  {
    var m := OnePage();
    OnePageTables();
    forall p: nat | p < NPAGES ensures Lookup(m, 1, p) == if p == NENT then Entry(3, 7) else 0 {
      OnePageLookup(p);
    }
    hide Lookup;
    assert DirOk(m, 1);
  }

  /** Shrinking this address space to one page does not see the page that is mapped. */
  lemma PageMissed()
    ensures var m := OnePage();
            Ok(m) && IsDir(m, 1) && 0 !in m.own && Lookup(m, 1, NENT) != 0 && !Visited(m, 1, 1, NENT + 1, NENT)
  {
    OnePageOk();
    OnePageTables();
    OnePageLookup(NENT);
    NotBefore(OnePage(), 1, 1 + NENT, NENT + 1, NENT);
  }

  /** With one free frame, allocuvm reports success and loses the page it is to map. */
  lemma SomeShort()
    ensures Ok(OnePage()) && IsDir(OnePage(), 1) && 0 !in OnePage().own && Short(OnePage(), 1, 0, 1, 1)
  {
    OnePageOk();
    OnePageTables();
    LastTableShort(OnePage(), 1, 0);
  }
}
