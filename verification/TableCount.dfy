/** How many page tables a directory has. */
module TableCount {

  import opened PageTables

  ghost function Tables(m: Mem, d: nat): (ts: set<nat>)
    requires d < |m.pages|
  {
    set i: nat | i < NENT && HasTable(m, d, i)
  }

  lemma TablesSame(m: Mem, k: Mem, d: nat)
    requires d < |m.pages| && d < |k.pages| && m.pages[d] == k.pages[d]
    ensures Tables(k, d) == Tables(m, d)
  {
  }

  /** The numbers from a up to b. */
  ghost function Interval(a: nat, b: nat): (ns: set<nat>)
    ensures forall i: nat :: i in ns <==> a <= i < b
    ensures a <= b ==> |ns| == b - a
    decreases b
  {
    if b <= a then {} else Interval(a, b - 1) + {b - 1}
  }

  lemma {:induction false} Fewer(a: set<nat>, b: set<nat>)
    requires a < b
    ensures |a| < |b|
  {
    var x :| x in b && x !in a;
    if a <= b - {x} && a != b - {x} {
      Fewer(a, b - {x});
    }
  }

  /** The tables of the kernel's part of a map. */
  ghost function KernelTables(): (ts: set<nat>) {
    Interval(0x200, 0x238) + Interval(0x3F8, 0x400)
  }

  lemma KernelTablesAre()
    ensures var ts := KernelTables();
            |ts| == 64 && forall i: nat :: i in ts <==> 0x200 <= i < 0x238 || 0x3F8 <= i < 0x400
  {
    hide Interval;
    assert Interval(0x200, 0x238) !! Interval(0x3F8, 0x400);
  }

  /** The tables for the user pages below p. */
  ghost function UserTables(p: nat): (n: nat)
  {
    (p + NENT - 1) / NENT
  }

  lemma AllTables(p: nat)
    requires p <= USER
    ensures |KernelTables() + Interval(0, UserTables(p))| == 64 + UserTables(p)
  {
    hide Interval, KernelTables;
    KernelTablesAre();
    assert KernelTables() !! Interval(0, UserTables(p));
  }

  /** Mapping one page adds its table if that is missing. */
  lemma TablesGrow(m: Mem, k: Mem, d: nat, i: nat, ok: bool)
    requires d < |m.pages| && d < |k.pages| && i < NENT
    requires forall j: nat | j < NENT :: HasTable(k, d, j) <==> HasTable(m, d, j) || (ok && j == i)
    ensures Tables(k, d) == Tables(m, d) + if ok then {i} else {}
    ensures |Tables(k, d)| == |Tables(m, d)| + if ok && !HasTable(m, d, i) then 1 else 0
    ensures i in Tables(m, d) <==> HasTable(m, d, i)
  {
    hide HasTable;
    var ts := Tables(m, d);
    assert Tables(k, d) == ts + if ok then {i} else {};
    assert ok && i in ts ==> ts + {i} == ts;
  }

  /** The tables that hold pages of [p, p + n). */
  ghost function Span(p: nat, n: nat): (ts: set<nat>) {
    if n == 0 then {} else Interval(p / NENT, (p + n - 1) / NENT + 1)
  }

  lemma SpanNone(p: nat)
    ensures Span(p, 0) == {}
  {
  }

  lemma SpanStep(p: nat, i: nat, n: nat)
    requires i < n
    ensures Span(p, i + 1) == Span(p, i) + {(p + i) / NENT} && Span(p, i + 1) <= Span(p, n)
  {
    hide Interval;
  }

  /** Frames to copy n user pages: the directory, the kernel's tables, the pages and their tables. */
  ghost function FramesToCopy(n: nat): (k: nat)
    ensures k >= 65 + n
  {
    1 + 64 + n + UserTables(n)
  }

  /** The tables once the pages below p are copied. */
  lemma UserTablesAt(p: nat)
    requires p < USER
    ensures |KernelTables() + Interval(0, UserTables(p))| == 64 + UserTables(p)
    ensures p / NENT in KernelTables() + Interval(0, UserTables(p)) <==> p / NENT < UserTables(p)
  {
    hide Interval, KernelTables;
    KernelTablesAre();
    AllTables(p);
  }

  lemma FramesToCopyGrow(p: nat, n: nat)
    requires p < n
    ensures FramesToCopy(p + 1) <= FramesToCopy(n)
    ensures FramesToCopy(p + 1) == FramesToCopy(p) + if p / NENT < UserTables(p) then 1 else 2
    ensures Interval(0, UserTables(p + 1)) == Interval(0, UserTables(p)) + {p / NENT}
  {
    hide Interval;
  }
}
