/** The process table as proc.c keeps it: one array of processes whose `next` fields are shared by
    three ready lists and the free list, walked and relinked in place. */
module ProcTable {

  import opened ProcSpec

  // ----- chains through the next fields

  function At(l: seq<nat>, i: nat): (r: nat) {
    if i < |l| then l[i] else NIL
  }

  ghost predicate LinkAt(nx: seq<nat>, l: seq<nat>, i: nat)
    requires i < |l|
  {
    l[i] < |nx| && nx[l[i]] == At(l, i + 1)
  }

  /** Starting at h and following next, one sees exactly l. */
  ghost predicate Chain(nx: seq<nat>, h: nat, l: seq<nat>) {
    && |nx| == NPROC && h == At(l, 0) && Distinct(l)
    && (forall x | x in l :: x < NPROC)
    && forall i: nat | i < |l| :: LinkAt(nx, l, i)
  }

  lemma ChainFrame(nx: seq<nat>, mx: seq<nat>, h: nat, l: seq<nat>)
    requires Chain(nx, h, l) && |mx| == NPROC && forall x | x in l :: mx[x] == nx[x]
    ensures Chain(mx, h, l)
  {
    forall i: nat | i < |l| ensures LinkAt(mx, l, i) {
      assert LinkAt(nx, l, i);
    }
  }

  lemma ChainRange(nx: seq<nat>, h: nat, l: seq<nat>)
    requires Chain(nx, h, l)
    ensures forall i: nat | i < |l| :: l[i] < NPROC
  {
    forall i: nat | i < |l| ensures l[i] < NPROC {
      assert l[i] in l;
    }
  }

  /** The links after appending p to the list l. */
  ghost function Appended(nx: seq<nat>, l: seq<nat>, p: nat): (mx: seq<nat>)
    requires p < |nx| && (l != [] ==> l[|l| - 1] < |nx|)
  {
    if l == [] then nx[p := NIL] else nx[p := NIL][l[|l| - 1] := p]
  }

  lemma ChainAppend(nx: seq<nat>, h: nat, l: seq<nat>, p: nat)
    requires Chain(nx, h, l) && p < NPROC && p !in l
    ensures l != [] ==> l[|l| - 1] < NPROC
    ensures Chain(Appended(nx, l, p), if l == [] then p else h, l + [p])
  {
    assert l != [] ==> l[|l| - 1] in l;
    var m, mx := l + [p], Appended(nx, l, p);
    forall i: nat | i < |m| ensures LinkAt(mx, m, i) {
      if i < |l| {
        assert LinkAt(nx, l, i);
      }
    }
  }

  /** Unlinking the member after the k-th. */
  lemma ChainUnlink(nx: seq<nat>, h: nat, l: seq<nat>, k: nat)
    requires Chain(nx, h, l) && k + 1 < |l|
    ensures l[k] < NPROC && l[k + 1] < NPROC
    ensures Chain(nx[l[k] := nx[l[k + 1]]][l[k + 1] := NIL], h, l[..k + 1] + l[k + 2..])
  {
    var p, m := l[k + 1], l[..k + 1] + l[k + 2..];
    assert LinkAt(nx, l, k) && LinkAt(nx, l, k + 1);
    var mx := nx[l[k] := nx[p]][p := NIL];
    forall i: nat | i < |m| ensures LinkAt(mx, m, i) {
      if i <= k {
        assert LinkAt(nx, l, i);
      } else {
        assert LinkAt(nx, l, i + 1);
      }
    }
    assert forall x | x in m :: x in l;
  }

  lemma ChainPop(nx: seq<nat>, h: nat, l: seq<nat>)
    requires Chain(nx, h, l) && l != []
    ensures h < NPROC && Chain(nx[h := NIL], nx[h], l[1..])
  {
    assert LinkAt(nx, l, 0);
    var m, mx := l[1..], nx[h := NIL];
    forall i: nat | i < |m| ensures LinkAt(mx, m, i) {
      assert LinkAt(nx, l, i + 1);
    }
    assert forall x | x in m :: x in l;
  }

  lemma {:induction false} WithoutAt(l: seq<nat>, k: nat)
    requires Distinct(l) && k < |l|
    ensures Without(l, l[k]) == l[..k] + l[k + 1..]
  {
    assert l == [l[0]] + l[1..];
    if k == 0 {
      WithoutAbsent(l[1..], l[0]);
    } else {
      var m := l[1..];
      WithoutAt(m, k - 1);
      assert l[..k] == [l[0]] + m[..k - 1] && l[k + 1..] == m[k..];
    }
  }

  /** No process is on two of the four lists. */
  ghost predicate Apart(s: State)
    requires |s.ready| == SIZE
  {
    && (forall i: nat, j: nat, x | i < SIZE && j < SIZE && x in s.ready[i] && x in s.ready[j] :: i == j)
    && (forall i: nat, x | i < SIZE && x in s.ready[i] :: x !in s.free)
  }

  lemma ListsApart(s: State, out: nat)
    requires Wf(s) && Lists(s, out) && FreeOk(s)
    ensures Apart(s)
  {
    forall i: nat, j: nat, x | i < SIZE && j < SIZE && x in s.ready[i] && x in s.ready[j] ensures i == j {
      assert s.procs[x].priority == i;
      assert s.procs[x].priority == j;
    }
  }

  /** All four lists are chained through the same links. */
  ghost predicate Linked(nx: seq<nat>, heads: seq<nat>, fh: nat, s: State) {
    && |heads| == SIZE && |s.ready| == SIZE
    && (forall i: nat | i < SIZE :: Chain(nx, heads[i], s.ready[i]))
    && Chain(nx, fh, s.free)
  }

  ghost predicate OnNoList(s: State, p: nat)
    requires |s.ready| == SIZE
  {
    p !in s.free && forall i: nat | i < SIZE :: p !in s.ready[i]
  }

  lemma PutLinked(nx: seq<nat>, heads: seq<nat>, fh: nat, s: State, p: nat, prio: nat)
    requires Linked(nx, heads, fh, s) && Apart(s) && p < NPROC && prio < SIZE && OnNoList(s, p)
    ensures var l := s.ready[prio];
            && (l != [] ==> l[|l| - 1] < NPROC)
            && Linked(Appended(nx, l, p), if l == [] then heads[prio := p] else heads, fh, Put(s, p, prio))
  {
    var l := s.ready[prio];
    ChainAppend(nx, heads[prio], l, p);
    var mx := Appended(nx, l, p);
    assert l != [] ==> l[|l| - 1] in l;
    forall i: nat | i < SIZE && i != prio ensures Chain(mx, heads[i], s.ready[i]) {
      ChainFrame(nx, mx, heads[i], s.ready[i]);
    }
    ChainFrame(nx, mx, fh, s.free);
  }

  /** Unlinking the member after the k-th of a ready list. */
  lemma UnlinkLinked(nx: seq<nat>, heads: seq<nat>, fh: nat, s: State, prio: nat, k: nat)
    requires Linked(nx, heads, fh, s) && Apart(s) && prio < SIZE && k + 1 < |s.ready[prio]|
    ensures var a, p := s.ready[prio][k], s.ready[prio][k + 1];
            && a < NPROC && p < NPROC && a != p && nx[a] == p
            && nx[p] == At(s.ready[prio], k + 2)
            && Unqueue(s, p, prio).ready[prio] == s.ready[prio][..k + 1] + s.ready[prio][k + 2..]
            && Linked(nx[a := nx[p]][p := NIL], heads, fh, Unqueue(s, p, prio))
  {
    var l := s.ready[prio];
    var a, p := l[k], l[k + 1];
    assert LinkAt(nx, l, k) && LinkAt(nx, l, k + 1);
    assert a in l && p in l;
    ChainUnlink(nx, heads[prio], l, k);
    WithoutAt(l, k + 1);
    var mx := nx[a := nx[p]][p := NIL];
    forall i: nat | i < SIZE && i != prio ensures Chain(mx, heads[i], s.ready[i]) {
      ChainFrame(nx, mx, heads[i], s.ready[i]);
    }
    ChainFrame(nx, mx, fh, s.free);
  }

  /** Taking the head off a ready list. */
  lemma PopLinked(nx: seq<nat>, heads: seq<nat>, fh: nat, s: State, prio: nat)
    requires Linked(nx, heads, fh, s) && Apart(s) && prio < SIZE && s.ready[prio] != []
    ensures var p := s.ready[prio][0];
            && p < NPROC && heads[prio] == p && Unqueue(s, p, prio).ready[prio] == s.ready[prio][1..]
            && Linked(nx[p := NIL], heads[prio := nx[p]], fh, Unqueue(s, p, prio))
  {
    var l := s.ready[prio];
    var p := l[0];
    assert p in l;
    ChainPop(nx, heads[prio], l);
    WithoutAt(l, 0);
    var mx := nx[p := NIL];
    forall i: nat | i < SIZE && i != prio ensures Chain(mx, heads[i], s.ready[i]) {
      ChainFrame(nx, mx, heads[i], s.ready[i]);
    }
    ChainFrame(nx, mx, fh, s.free);
  }

  lemma UnqueueFacts(s: State, p: nat, prio: nat)
    requires |s.ready| == SIZE && prio < SIZE && Apart(s)
    ensures p !in Unqueue(s, p, prio).ready[prio] && Apart(Unqueue(s, p, prio))
  {
  }

  lemma UnqueueNone(s: State, p: nat, prio: nat)
    requires |s.ready| == SIZE && prio < SIZE && p !in s.ready[prio]
    ensures Unqueue(s, p, prio) == s
  {
    WithoutAbsent(s.ready[prio], p);
  }

  lemma FreeLinked(nx: seq<nat>, heads: seq<nat>, fh: nat, s: State, p: nat)
    requires Linked(nx, heads, fh, s) && Apart(s) && p < NPROC && OnNoList(s, p)
    ensures s.free != [] ==> s.free[|s.free| - 1] < NPROC
    ensures Linked(Appended(nx, s.free, p), heads, if s.free == [] then p else fh, s.(free := s.free + [p]))
  {
    var l := s.free;
    ChainAppend(nx, fh, l, p);
    var mx := Appended(nx, l, p);
    assert l != [] ==> l[|l| - 1] in l;
    forall i: nat | i < SIZE ensures Chain(mx, heads[i], s.ready[i]) {
      ChainFrame(nx, mx, heads[i], s.ready[i]);
    }
  }

  lemma ChainCons(nx: seq<nat>, h: nat, l: seq<nat>, p: nat)
    requires Chain(nx, h, l) && p < NPROC && p !in l
    ensures Chain(nx[p := h], p, [p] + l)
  {
    var m, mx := [p] + l, nx[p := h];
    forall i: nat | i < |m| ensures LinkAt(mx, m, i) {
      if i > 0 {
        assert LinkAt(nx, l, i - 1);
      }
    }
  }

  /** The UNUSED slots below n, last first. */
  ghost function Unused(ps: seq<Proc>, n: nat): (l: seq<nat>)
    requires n <= |ps|
    ensures Distinct(l) && forall x: nat :: x in l <==> x < n && ps[x].state == UNUSED
  {
    if n == 0 then []
    else
      var r := Unused(ps, n - 1);
      assert n - 1 !in r;
      if ps[n - 1].state == UNUSED then [n - 1] + r else r
  }

  ghost predicate Falling(l: seq<nat>) {
    forall i: nat, j: nat | i < j < |l| :: l[j] < l[i]
  }

  /** The free list starts out with the highest UNUSED slot in front. */
  lemma {:induction false} UnusedOrder(ps: seq<Proc>, n: nat)
    requires n <= |ps|
    ensures Falling(Unused(ps, n))
  {
    if n > 0 {
      UnusedOrder(ps, n - 1);
      var r := Unused(ps, n - 1);
      assert forall k: nat | k < |r| :: r[k] in r;
    }
  }

  lemma {:induction false} AllUnused(ps: seq<Proc>, n: nat)
    requires n <= |ps| && forall x: nat | x < n :: ps[x].state == UNUSED
    ensures Unused(ps, n) == Down(n)
  {
    if n > 0 {
      AllUnused(ps, n - 1);
    }
  }

  /** n - 1, ..., 0 */
  ghost function Down(n: nat): (l: seq<nat>)
    ensures |l| == n && Distinct(l) && forall x: nat :: x in l <==> x < n
  {
    if n == 0 then []
    else
      var r := Down(n - 1);
      assert n - 1 !in r;
      [n - 1] + r
  }

  lemma NoLists(nx: seq<nat>, heads: seq<nat>, fh: nat, s: State)
    requires Chain(nx, fh, s.free) && heads == [NIL, NIL, NIL] && s.ready == [[], [], []]
    ensures Linked(nx, heads, fh, s)
  {
  }

  lemma DownFirst(n: nat)
    requires n > 0
    ensures Down(n) == [n - 1] + Down(n - 1)
  {
  }

  /** A table of UNUSED slots, all of them free. */
  ghost predicate Untouched(s: State) {
    && |s.procs| == NPROC && s == State(s.procs, [[], [], []], Down(NPROC), COUNT, 1, 0)
    && forall p: nat | p < NPROC :: s.procs[p] == Proc(UNUSED, 0, NIL, NoChan, false, DEFAULTPRIO)
  }

  /** What userinit does to it. */
  lemma BootSteps(s: State)
    requires Untouched(s)
    ensures Wf(s) && Apart(s) && s.free != []
    ensures var p, t := s.free[0], Alloc(s).(initproc := s.free[0]);
            && p < NPROC && |t.procs| == NPROC && |t.ready| == SIZE
            && t.procs[p].priority < SIZE && Apart(t) && OnNoList(t, p) && Booted(Wake(t, p))
  {
    UntouchedFree(s);
    hide Down, Booted, Wake, Apart, OnNoList, Untouched;
    BootFirst(Alloc(s).(initproc := s.free[0]));
  }

  lemma UntouchedFree(s: State)
    requires Untouched(s)
    ensures Wf(s) && Apart(s) && s.free != [] && s.free[0] == NPROC - 1
    ensures Allocated(Alloc(s).(initproc := s.free[0]))
  {
    DownFirst(NPROC);
    hide Down;
    assert s.free[1..] == Down(NPROC - 1);
  }

  /** The last slot is taken for init. */
  ghost predicate Allocated(t: State) {
    var p: nat := NPROC - 1;
    && |t.procs| == NPROC && t == State(t.procs, [[], [], []], Down(p), COUNT, 2, p)
    && t.procs[p] == Proc(EMBRYO, 1, NIL, NoChan, false, DEFAULTPRIO)
    && forall x: nat | x < p :: t.procs[x] == Proc(UNUSED, 0, NIL, NoChan, false, DEFAULTPRIO)
  }

  lemma BootFirst(t: State)
    requires Allocated(t)
    ensures var p: nat := NPROC - 1; Apart(t) && OnNoList(t, p) && Booted(Wake(t, p))
  {
    hide Down;
    var r := Wake(t, NPROC - 1);
    assert r.ready[DEFAULTPRIO] == [NPROC - 1];
  }

  /** Taking the head off the free list. */
  lemma PopFreeLinked(nx: seq<nat>, heads: seq<nat>, fh: nat, s: State)
    requires Linked(nx, heads, fh, s) && Apart(s) && s.free != []
    ensures fh == s.free[0] && fh < NPROC && Linked(nx[fh := NIL], heads, nx[fh], s.(free := s.free[1..]))
  {
    assert fh in s.free;
    ChainPop(nx, fh, s.free);
    var mx := nx[fh := NIL];
    forall i: nat | i < SIZE ensures Chain(mx, heads[i], s.ready[i]) {
      ChainFrame(nx, mx, heads[i], s.ready[i]);
    }
  }

  /** Links do not depend on anything but the lists. */
  lemma LinkedSame(nx: seq<nat>, heads: seq<nat>, fh: nat, s: State, t: State)
    requires Linked(nx, heads, fh, s) && t.ready == s.ready && t.free == s.free
    ensures Linked(nx, heads, fh, t)
  {
  }

  /** Marking a sleeper killed leaves it on no list. */
  lemma QuietIdle(s: State, p: nat)
    requires Inv(s) && p < NPROC && s.procs[p].state == SLEEPING
    ensures var t := s.(procs := s.procs[p := s.procs[p].(killed := true)]);
            Apart(t) && OnNoList(t, p) && t.procs[p].priority < SIZE
  {
    IdleOnNoList(s, p);
  }

  /** The picked process is the head of its list, so taking it off never faults. */
  lemma PickFacts(s: State)
    requires Inv(s) && s.ready[Top(s)] != []
    ensures var p := Pick(s);
            && s.procs[p].priority == Top(s) && Unqueue(s, p, Top(s)) == Popped(s) && !RemoveFaults(s.ready[Top(s)], p)
            && Apart(s) && Wf(Popped(s)) && Lists(Popped(s), p) && FreeOk(Popped(s))
  {
    hide NoLostChild, Family, Pids, FreeOk;
    PoppedLists(s);
    ListsApart(s, NIL);
    var l := s.ready[Top(s)];
    assert Distinct(l);
    hide Lists;
    WithoutAt(l, 0);
    assert l[..0] + l[1..] == l[1..];
  }

  /** A process whose priority changes: its list without it, and no other, held it. */
  lemma RequeueFacts(s: State, p: nat, prio: nat)
    requires Inv(s) && p < NPROC && prio < SIZE
    ensures var t := s.(procs := s.procs[p := s.procs[p].(priority := prio)]);
            && s.procs[p].priority < SIZE && Apart(t)
            && var u := Unqueue(t, p, s.procs[p].priority);
               Apart(u) && (s.procs[p].state == RUNNABLE ==> OnNoList(u, p))
  {
    hide NoLostChild, Family, Pids;
    ListsApart(s, NIL);
  }

  lemma KidsIs(procs: seq<Proc>, q: nat)
    requires |procs| == NPROC
    ensures HasKids(procs, q) <==> exists c: nat :: c < NPROC && procs[c].parent == q
  {
  }

  lemma InvWf(s: State)
    requires Inv(s)
    ensures Wf(s) && |s.procs| == NPROC && |s.ready| == SIZE
    ensures forall p: nat | p < NPROC :: s.procs[p].priority < SIZE
  {
  }

  lemma IdleOnNoList(s: State, p: nat)
    requires Wf(s) && Lists(s, NIL) && FreeOk(s) && p < NPROC && s.procs[p].state != RUNNABLE &&
             s.procs[p].state != UNUSED
    ensures OnNoList(s, p) && Apart(s)
  {
    ListsApart(s, NIL);
  }

  datatype WaitResult = Reaped(pid: nat) | NoChildren | Asleep

  /** State of the lists and priorities after resetReadyList has moved j members of list i. */
  ghost function Moved(s: State, i: nat, j: nat): (r: State)
    requires Wf(s) && i < SIZE && i != DEFAULTPRIO && j <= |s.ready[i]|
  {
    var l := s.ready[i];
    s.(ready := s.ready[i := l[j..]][DEFAULTPRIO := s.ready[DEFAULTPRIO] + l[..j]],
       procs := seq(NPROC, p requires 0 <= p < NPROC => if p in l[..j] then s.procs[p].(priority := DEFAULTPRIO)
         else s.procs[p]))
  }

  /** The next member to move is at the head of its list, and once off it on no list at all. */
  lemma MovedApart(s: State, i: nat, j: nat, out: nat)
    requires Wf(s) && Lists(s, out) && FreeOk(s) && i < SIZE && i != DEFAULTPRIO && j < |s.ready[i]|
    ensures var p, m := s.ready[i][j], Moved(s, i, j);
            && Apart(m) && p < NPROC && m.procs[p].priority == i && |m.ready| == SIZE
            && m.ready[i] != [] && m.ready[i][0] == p && At(m.ready[i], 1) == At(s.ready[i], j + 1)
            && !RemoveFaults(m.ready[i], p)
            && var u := Unqueue(m, p, i);
               var v := u.(procs := u.procs[p := u.procs[p].(priority := DEFAULTPRIO)]);
               Apart(v) && OnNoList(v, p)
  {
    ListsApart(s, out);
    var l, m := s.ready[i], Moved(s, i, j);
    var p := l[j];
    assert p in l && p !in l[..j];
    forall x ensures x in m.ready[i] ==> x in l && x !in l[..j] {
    }
    forall x ensures x in m.ready[DEFAULTPRIO] <==> x in s.ready[DEFAULTPRIO] || x in l[..j] {
    }
    assert forall x | x in l[..j] :: x in l;
    assert Apart(m);
    UnqueueFacts(m, p, i);
  }

  lemma MovedStep(s: State, i: nat, j: nat)
    requires Wf(s) && i < SIZE && i != DEFAULTPRIO && j < |s.ready[i]| && Distinct(s.ready[i]) && s.ready[i][j] < NPROC
    ensures var p, m := s.ready[i][j], Moved(s, i, j);
            var u := Unqueue(m, p, i);
            Put(u.(procs := u.procs[p := u.procs[p].(priority := DEFAULTPRIO)]), p, DEFAULTPRIO) == Moved(s, i, j + 1)
  {
    var l, d, m, n := s.ready[i], s.ready[DEFAULTPRIO], Moved(s, i, j), Moved(s, i, j + 1);
    MovedTail(l, j);
    assert l[..j + 1] == l[..j] + [l[j]];
    assert m.procs[l[j] := m.procs[l[j]].(priority := DEFAULTPRIO)] == n.procs;
    var u := Unqueue(m, l[j], i);
    hide Without;
    assert u.ready[i] == l[j + 1..] && u.ready[DEFAULTPRIO] == d + l[..j];
    assert d + l[..j] + [l[j]] == d + (l[..j] + [l[j]]);
    assert u.ready[DEFAULTPRIO := u.ready[DEFAULTPRIO] + [l[j]]] == n.ready;
  }

  lemma MovedTail(l: seq<nat>, j: nat)
    requires Distinct(l) && j < |l|
    ensures Without(l[j..], l[j]) == l[j + 1..]
  {
    WithoutAt(l[j..], 0);
    assert l[j..][1..] == l[j + 1..];
  }

  lemma MovedLists(s: State, i: nat, out: nat)
    requires Wf(s) && Lists(s, out) && FreeOk(s) && i < SIZE && i != DEFAULTPRIO
    ensures var m := Moved(s, i, |s.ready[i]|); Wf(m) && Lists(m, out) && FreeOk(m)
  {
    var l, d, m := s.ready[i], s.ready[DEFAULTPRIO], Moved(s, i, |s.ready[i]|);
    assert l[..|l|] == l;
    assert m.ready[DEFAULTPRIO] == d + l && m.ready[i] == [];
    assert forall x | x in d :: s.procs[x].priority == DEFAULTPRIO;
    assert forall x | x in l :: s.procs[x].priority == i;
    DistinctConcat(d, l);
    forall x: nat | x < NPROC && x != out && m.procs[x].state == RUNNABLE ensures x in m.ready[m.procs[x].priority] {
      assert x in s.ready[s.procs[x].priority];
    }
  }

  /** The first k slots have had the priority of RUNNING and SLEEPING processes reset. */
  ghost function Defaulted(ps: seq<Proc>, k: nat): (r: seq<Proc>)
    requires k <= |ps|
  {
    seq(|ps|, p requires 0 <= p < |ps| =>
      if p < k && (ps[p].state == RUNNING || ps[p].state == SLEEPING) then ps[p].(priority := DEFAULTPRIO) else ps[p])
  }

  /** Moving both lists and then resetting RUNNING and SLEEPING processes is Reset. */
  lemma ResetSteps(s: State, out: nat)
    requires Wf(s) && Lists(s, out) && FreeOk(s)
    ensures var m := Moved(s, HIGH, |s.ready[HIGH]|);
            && Wf(m) && Lists(m, out) && FreeOk(m)
            && var n := Moved(m, LOW, |m.ready[LOW]|);
               n.(procs := Defaulted(n.procs, |n.procs|)) == Reset(s)
  {
    MovedLists(s, HIGH, out);
    var m := Moved(s, HIGH, |s.ready[HIGH]|);
    var h, l, d := s.ready[HIGH], s.ready[LOW], s.ready[DEFAULTPRIO];
    assert h[..|h|] == h && l[..|l|] == l && m.ready[LOW] == l;
    hide Lists, FreeOk;
    var n := Moved(m, LOW, |l|);
    assert m.ready[HIGH] == [] && m.ready[DEFAULTPRIO] == d + h;
    assert n.ready[HIGH] == [] && n.ready[DEFAULTPRIO] == d + h + l && n.ready[LOW] == [];
    assert n.ready == Reset(s).ready;
    assert Defaulted(n.procs, NPROC) == Reset(s).procs;
  }

  lemma WfShape(s: State)
    requires Wf(s)
    ensures |s.ready| == SIZE && |s.procs| == NPROC
  {
  }

  lemma MovedRange(s: State, i: nat, j: nat)
    requires Wf(s) && i < SIZE && j <= |s.ready[i]|
    ensures At(s.ready[i], j) == NIL <==> j == |s.ready[i]|
  {
    if j < |s.ready[i]| {
      assert s.ready[i][j] in s.ready[i];
    }
  }

  lemma MovedNone(s: State, i: nat)
    requires Wf(s) && i < SIZE && i != DEFAULTPRIO
    ensures Moved(s, i, 0) == s
  {
    assert s.ready[i][0..] == s.ready[i];
    assert s.ready[DEFAULTPRIO] + s.ready[i][..0] == s.ready[DEFAULTPRIO];
    assert Moved(s, i, 0).procs == s.procs;
  }

  class Ptable {
    const procs: array<Proc>
    const next: array<nat>
    const readyList: array<nat>
    var freeList: nat
    var timeToReset: nat
    var nextpid: nat
    var initproc: nat
    ghost var spec: State

    ghost predicate Chains()
      reads this, next, readyList
    {
      next.Length == NPROC && readyList.Length == SIZE && next != readyList &&
        Linked(next[..], readyList[..], freeList, spec)
    }

    /** Everything but the reset counter is as `spec` says. */
    ghost predicate Table()
      reads this, procs, next, readyList
    {
      && Chains() && procs.Length == NPROC && procs[..] == spec.procs
      && nextpid == spec.nextpid && initproc == spec.initproc
    }

    ghost predicate Valid()
      reads this, procs, next, readyList
    {
      Table() && timeToReset == spec.timeToReset
    }

    /** Static memory, zeroed, and then userinit: initFreeList, allocproc, the first process queued. */
    constructor ()
      ensures Valid() && Booted(spec) && fresh(procs) && fresh(next) && fresh(readyList)
    {
      procs := new Proc[NPROC](_ => Proc(UNUSED, 0, NIL, NoChan, false, 0));
      next := new nat[NPROC](_ => NIL);
      readyList := new nat[SIZE](_ => NIL);
      freeList := NIL;
      timeToReset := 0;
      nextpid := 1;
      initproc := 0;
      new;
      UserInit();
    }

    method UserInit()
      requires procs.Length == NPROC && next.Length == NPROC && readyList.Length == SIZE && next != readyList
      requires forall p: nat | p < NPROC :: procs[p] == Proc(UNUSED, 0, NIL, NoChan, false, 0)
      requires readyList[..] == [NIL, NIL, NIL] && nextpid == 1 && initproc == 0
      modifies this, procs, next
      modifies readyList
      ensures Valid() && Booted(spec)
    {
      hide Linked, Wf, Alloc, Wake, Apart, OnNoList, Booted, Untouched;
      InitTable();
      BootSteps(spec);
      var p := TakeFree();
      LinkedSame(next[..], readyList[..], freeList, spec, spec.(initproc := p));
      initproc := p;
      spec := spec.(initproc := p);
      MakeRunnable(p);
    }

    /** The table before the first process. */
    method InitTable()
      requires procs.Length == NPROC && next.Length == NPROC && readyList.Length == SIZE && next != readyList
      requires forall p: nat | p < NPROC :: procs[p] == Proc(UNUSED, 0, NIL, NoChan, false, 0)
      requires readyList[..] == [NIL, NIL, NIL] && nextpid == 1 && initproc == 0
      modifies this, procs, next
      ensures Valid() && Untouched(spec)
    {
      hide Linked, Down, Chain;
      AllUnused(procs[..], NPROC);
      InitFreeList();
      timeToReset := COUNT;
      spec := State(procs[..], [[], [], []], Down(NPROC), COUNT, 1, 0);
      NoLists(next[..], readyList[..], freeList, spec);
    }

    /** initFreeList: each UNUSED slot is pushed on the front. */
    method InitFreeList()
      requires procs.Length == NPROC && next.Length == NPROC
      modifies this`freeList, procs, next
      ensures Chain(next[..], freeList, Unused(old(procs[..]), NPROC))
      ensures forall p: nat | p < NPROC :: procs[p] == old(procs[p]).(priority := DEFAULTPRIO)
    {
      ghost var ps := procs[..];
      freeList := NIL;
      var p := 0;
      while p < NPROC
        invariant p <= NPROC && Chain(next[..], freeList, Unused(ps, p))
        invariant forall i: nat | i < NPROC :: procs[i] == if i < p then ps[i].(priority := DEFAULTPRIO) else ps[i]
      {
        if procs[p].state == UNUSED {
          ChainCons(next[..], freeList, Unused(ps, p), p);
          next[p] := freeList;
          freeList := p;
        }
        procs[p] := procs[p].(priority := DEFAULTPRIO);
        p := p + 1;
      }
    }

    /** The walk to the last member of a list, common to both put methods. */
    method Last(h: nat, ghost l: seq<nat>) returns (last: nat)
      requires next.Length == NPROC && Chain(next[..], h, l) && l != []
      ensures last == l[|l| - 1] && last < NPROC
    {
      last := h;
      ghost var k := 0;
      ChainRange(next[..], h, l);
      assert LinkAt(next[..], l, 0);
      while next[last] != NIL
        invariant k < |l| && last == l[k] && LinkAt(next[..], l, k)
        decreases |l| - k
      {
        last := next[last];
        k := k + 1;
        assert LinkAt(next[..], l, k);
      }
    }

    method PutOnFreeList(p: nat)
      requires Chains() && Apart(spec) && p < NPROC && OnNoList(spec, p)
      modifies this`freeList, this`spec, next
      ensures Chains() && spec == old(spec).(free := old(spec.free) + [p])
    {
      ghost var l := spec.free;
      FreeLinked(next[..], readyList[..], freeList, spec, p);
      assert freeList == At(l, 0) && (l != [] ==> l[0] in l);
      hide Linked;
      if freeList == NIL {
        freeList := p;
        next[p] := NIL;
      } else {
        var current := Last(freeList, l);
        next[p] := NIL;
        next[current] := p;
      }
      spec := spec.(free := l + [p]);
    }

    method PutOnReadyList(p: nat, prio: nat)
      requires Chains() && Apart(spec) && p < NPROC && prio < SIZE && OnNoList(spec, p)
      modifies this`spec, next, readyList
      ensures Chains() && spec == Put(old(spec), p, prio)
    {
      ghost var l := spec.ready[prio];
      PutLinked(next[..], readyList[..], freeList, spec, p, prio);
      assert Chain(next[..], readyList[prio], l);
      assert readyList[prio] == At(l, 0) && (l != [] ==> l[0] in l);
      hide Linked;
      if readyList[prio] == NIL {
        readyList[prio] := p;
        next[p] := NIL;
      } else {
        var current := Last(readyList[prio], l);
        next[p] := NIL;
        next[current] := p;
      }
      spec := Put(spec, p, prio);
    }

    /** One look at the successor of `current` in removeFromReadyList's walk. */
    method UnlinkAfter(current: nat, p: nat, prio: nat, ghost k: nat) returns (ghost done: bool)
      requires Chains() && Apart(spec) && prio < SIZE && k + 1 < |spec.ready[prio]| && current == spec.ready[prio][k]
      modifies this`spec, next
      ensures Chains() && done == (old(spec).ready[prio][k + 1] == p)
      ensures spec == if done then Unqueue(old(spec), p, prio) else old(spec)
      ensures done ==> spec.ready[prio] == old(spec).ready[prio][..k + 1] + old(spec).ready[prio][k + 2..]
    {
      UnlinkLinked(next[..], readyList[..], freeList, spec, prio, k);
      hide Linked;
      done := next[current] == p;
      if next[current] == p {
        next[current] := next[next[current]];
        next[p] := NIL;
        spec := Unqueue(spec, p, prio);
      }
    }

    /** What the k-th member's link says. */
    lemma NextOf(prio: nat, k: nat)
      requires Chains() && prio < SIZE && k < |spec.ready[prio]|
      ensures var c := spec.ready[prio][k]; c < NPROC && next[c] == At(spec.ready[prio], k + 1)
      ensures k + 1 < |spec.ready[prio]| ==> spec.ready[prio][k + 1] < NPROC
    {
      assert Chain(next[..], readyList[prio], spec.ready[prio]);
      assert LinkAt(next[..], spec.ready[prio], k);
      assert forall i: nat | i < |spec.ready[prio]| :: spec.ready[prio][i] in spec.ready[prio];
    }

    method RemoveHead(p: nat, prio: nat)
      requires Chains() && Apart(spec) && p < NPROC && prio < SIZE && readyList[prio] == p
      modifies this`spec, next, readyList
      ensures Chains() && spec == Unqueue(old(spec), p, prio) && !RemoveFaults(old(spec).ready[prio], p)
    {
      ChainRange(next[..], p, spec.ready[prio]);
      PopLinked(next[..], readyList[..], freeList, spec, prio);
      hide Linked;
      readyList[prio] := next[readyList[prio]];
      next[p] := NIL;
      spec := Unqueue(spec, p, prio);
    }

    /** removeFromReadyList; `fault` is the read through a null `current` in its loop test. */
    method RemoveFromReadyList(p: nat, prio: nat) returns (fault: bool)
      requires Chains() && Apart(spec) && p < NPROC && prio < SIZE
      modifies this`spec, next, readyList
      ensures Chains() && spec == Unqueue(old(spec), p, prio)
      ensures fault == RemoveFaults(old(spec).ready[prio], p)
    {
      fault := false;
      var current := readyList[prio];
      ghost var was := spec;
      ghost var l := spec.ready[prio];
      ChainRange(next[..], current, l);
      if current == NIL {
        UnqueueNone(spec, p, prio);
        return;
      }
      if current == p {
        RemoveHead(p, prio);
        return;
      }
      ghost var k := 0;
      ghost var gone := false;
      NextOf(prio, 0);
      hide Linked, Chain, Unqueue, Apart;
      while next[current] != NIL
        invariant Chains() && Apart(spec) && k < |spec.ready[prio]| && current == spec.ready[prio][k]
        invariant current < NPROC && next[current] == At(spec.ready[prio], k + 1)
        invariant forall i: nat | i <= k :: spec.ready[prio][i] != p
        invariant !gone ==> spec == was
        invariant gone ==> spec == Unqueue(was, p, prio) && p !in spec.ready[prio] && !RemoveFaults(l, p)
        decreases |spec.ready[prio]| - k
      {
        NextOf(prio, k);
        ghost var before := spec;
        ghost var done := UnlinkAfter(current, p, prio, k);
        if done {
          assert spec.ready[prio][k] == before.ready[prio][k];
          UnqueueFacts(was, p, prio);
          gone := true;
        }
        NextOf(prio, k);
        current := next[current];
        if current == NIL {
          return true;
        }
        k := k + 1;
        NextOf(prio, k);
      }
      NextOf(prio, k);
      if !gone {
        UnqueueNone(was, p, prio);
      }
    }

    /** Assign one slot's fields other than next. */
    method SetProc(p: nat, x: Proc)
      requires Table() && p < NPROC
      modifies this`spec, procs
      ensures Table() && spec == old(spec).(procs := old(spec).procs[p := x])
    {
      procs[p] := x;
      spec := spec.(procs := spec.procs[p := x]);
    }

    method MakeRunnable(p: nat)
      requires Valid() && Apart(spec) && p < NPROC && OnNoList(spec, p) && spec.procs[p].priority < SIZE
      modifies this`spec, procs, next, readyList
      ensures Valid() && spec == Wake(old(spec), p)
    {
      hide Linked;
      SetProc(p, procs[p].(state := RUNNABLE));
      PutOnReadyList(p, procs[p].priority);
    }

    method Wakeup1(ch: Chan)
      requires Valid() && Wf(spec) && Lists(spec, NIL) && FreeOk(spec)
      modifies this`spec, procs, next, readyList
      ensures Valid() && spec == WakeUpTo(old(spec), ch, NPROC)
    {
      hide Lists, FreeOk, Linked, Apart, OnNoList;
      ghost var was := spec;
      var p := 0;
      while p < NPROC
        invariant p <= NPROC && Valid() && spec == WakeUpTo(was, ch, p)
      {
        if procs[p].state == SLEEPING && procs[p].chan == ch {
          WakeUpToLists(was, ch, p, NIL);
          IdleOnNoList(spec, p);
          MakeRunnable(p);
        }
        p := p + 1;
      }
    }

    /** One slot of exit's loop over the table. */
    method AdoptSlot(q: nat, p: nat)
      requires Valid() && Wf(spec) && Lists(spec, NIL) && FreeOk(spec) && p < NPROC
      modifies this`spec, procs, next, readyList
      ensures Valid() && spec == Adopt(old(spec), q, p)
    {
      hide Lists, FreeOk, Linked, WakeUpTo;
      if procs[p].parent == q {
        ghost var t := spec;
        SetProc(p, procs[p].(parent := initproc));
        SameLists(t, spec, NIL);
        if procs[p].state == ZOMBIE {
          Wakeup1(OfProc(initproc));
        }
      }
    }

    method Exit(q: nat)
      requires Valid() && Inv(spec) && q < NPROC && spec.procs[q].state == RUNNING && q != spec.initproc
      modifies this`spec, procs, next, readyList
      ensures Valid() && spec == ProcSpec.Exit(old(spec), q) && Inv(spec)
    {
      hide Lists, FreeOk, Linked, NoLostChild, Family, Pids, Wf, WakeUpTo, Adopt;
      InvWf(spec);
      ExitInv(spec, q);
      WakeUpToLists(spec, OfProc(spec.procs[q].parent), NPROC, NIL);
      Wakeup1(OfProc(procs[q].parent));
      ghost var was := spec;
      var p := 0;
      while p < NPROC
        invariant p <= NPROC && Valid() && spec == Reparent(was, q, p)
      {
        ReparentLists(was, q, p);
        AdoptSlot(q, p);
        p := p + 1;
      }
      SetProc(q, procs[q].(state := ZOMBIE));
    }

    /** One pass of wait's outer loop. */
    method Wait(q: nat) returns (r: WaitResult)
      requires Valid() && Inv(spec) && q < NPROC && spec.procs[q].state == RUNNING
      modifies this`spec, procs
      ensures Valid() && spec == ProcSpec.Wait(old(spec), q) && Inv(spec)
      ensures r.Reaped? <==> exists c: nat ::
                c < NPROC && old(spec).procs[c].parent == q && old(spec).procs[c].state == ZOMBIE
      ensures r.Reaped? ==> exists c: nat ::
                c < NPROC && old(spec).procs[c].parent == q && old(spec).procs[c].state == ZOMBIE &&
                r.pid == old(spec).procs[c].pid
      ensures r.NoChildren? ==> spec == old(spec) && (old(spec).procs[q].killed || !HasKids(old(spec).procs, q))
    {
      hide Linked, Inv, Wf, HasKids, FirstZombie;
      InvWf(spec);
      WaitInv(spec, q);
      var havekids := false;
      var p := 0;
      while p < NPROC
        invariant p <= NPROC && Valid() && spec == old(spec)
        invariant forall c: nat | c < p :: !(spec.procs[c].parent == q && spec.procs[c].state == ZOMBIE)
        invariant havekids <==> exists c: nat :: c < p && spec.procs[c].parent == q
      {
        if procs[p].parent == q {
          havekids := true;
          if procs[p].state == ZOMBIE {
            r := Reaped(procs[p].pid);
            assert FirstZombie(spec.procs, q, 0) == p;
            SetProc(p, procs[p].(state := UNUSED, pid := 0, parent := NIL, killed := false));
            return;
          }
        }
        p := p + 1;
      }
      assert FirstZombie(spec.procs, q, 0) == NIL;
      KidsIs(spec.procs, q);
      if !havekids || procs[q].killed {
        return NoChildren;
      }
      r := Asleep;
      SetProc(q, procs[q].(state := SLEEPING, chan := OfProc(q)));
    }

    /** allocproc's critical section, on a free list known to be non-empty. */
    method TakeFree() returns (p: nat)
      requires Valid() && Wf(spec) && Apart(spec) && spec.free != []
      modifies this`spec, this`freeList, this`nextpid, procs, next
      ensures Valid() && spec == Alloc(old(spec)) && p == old(spec).free[0] && p < NPROC
    {
      PopFreeLinked(next[..], readyList[..], freeList, spec);
      hide Linked, Wf;
      p := freeList;
      ghost var was := spec;
      freeList := next[freeList];
      next[p] := NIL;
      procs[p] := procs[p].(state := EMBRYO, pid := nextpid);
      nextpid := nextpid + 1;
      spec := Alloc(was);
      LinkedSame(next[..], readyList[..], freeList, was.(free := was.free[1..]), spec);
    }

    method AllocProc() returns (p: nat)
      requires Valid() && Inv(spec)
      modifies this`spec, this`freeList, this`nextpid, procs, next
      ensures Valid() && spec == Alloc(old(spec)) && Inv(spec)
      ensures if old(spec).free == [] then p == NIL else p == old(spec).free[0]
    {
      InvWf(spec);
      AllocInv(spec);
      ListsApart(spec, NIL);
      ChainRange(next[..], freeList, spec.free);
      hide Inv, Wf, Linked;
      if freeList == NIL {
        return NIL;
      }
      p := TakeFree();
    }

    /** fork's undo when there is no memory for the child. */
    method ForkUndo(p: nat)
      requires Valid() && Inv(spec) && p < NPROC && spec.procs[p].state == EMBRYO
      modifies this`spec, this`freeList, procs, next
      ensures Valid() && spec == ForkFail(old(spec), p) && Inv(spec)
    {
      FailInv(spec, p);
      IdleOnNoList(spec, p);
      hide Linked, Inv, Wf;
      SetProc(p, procs[p].(state := UNUSED));
      PutOnFreeList(p);
    }

    method ForkFinish(q: nat, p: nat)
      requires Valid() && Inv(spec) && q < NPROC && p < NPROC && spec.procs[q].state == RUNNING &&
               spec.procs[p].state == EMBRYO
      modifies this`spec, procs, next, readyList
      ensures Valid() && spec == ForkDone(old(spec), q, p) && Inv(spec)
    {
      ForkDoneInv(spec, q, p);
      IdleOnNoList(spec, p);
      hide Linked, Inv, Wf;
      SetProc(p, procs[p].(parent := q, priority := DEFAULTPRIO));
      MakeRunnable(p);
    }

    method Yield(q: nat)
      requires Valid() && Inv(spec) && q < NPROC && spec.procs[q].state == RUNNING
      modifies this`spec, procs, next, readyList
      ensures Valid() && spec == Wake(old(spec), q) && Inv(spec)
    {
      WakeInv(spec, q);
      IdleOnNoList(spec, q);
      hide Linked, Lists, FreeOk, NoLostChild, Family, Pids, Apart, OnNoList;
      MakeRunnable(q);
    }

    /** The table scan of kill and setPriority. */
    method FindPid(pid: nat) returns (p: nat)
      requires procs.Length == NPROC && procs[..] == spec.procs
      ensures p == FirstPid(spec.procs, pid, 0)
    {
      p := 0;
      while p < NPROC && procs[p].pid != pid
        invariant p <= NPROC && forall c: nat | c < p :: spec.procs[c].pid != pid
      {
        p := p + 1;
      }
    }

    method Kill(pid: nat) returns (r: int)
      requires Valid() && Inv(spec)
      modifies this`spec, procs, next, readyList
      ensures Valid() && spec == ProcSpec.Kill(old(spec), pid) && Inv(spec)
      ensures r == if FirstPid(old(spec).procs, pid, 0) < NPROC then 0 else -1
    {
      hide Linked, Inv, Wf, Apart, OnNoList, FirstPid;
      InvWf(spec);
      KillInv(spec, pid);
      var p := FindPid(pid);
      if p == NIL {
        return -1;
      }
      r := 0;
      if procs[p].state == SLEEPING {
        QuietIdle(spec, p);
        SetProc(p, procs[p].(killed := true));
        MakeRunnable(p);
      } else {
        SetProc(p, procs[p].(killed := true));
      }
    }

    /** Move the j-th member of list i, now its head, to the default list. */
    method MoveOne(current: nat, i: nat, ghost was: State, ghost j: nat, ghost out: nat)
      requires Wf(was) && Lists(was, out) && FreeOk(was) && i < SIZE && i != DEFAULTPRIO && j < |was.ready[i]|
      requires Table() && spec == Moved(was, i, j) && current == was.ready[i][j]
      modifies this`spec, procs, next, readyList
      ensures Table() && spec == Moved(was, i, j + 1)
    {
      MovedApart(was, i, j, out);
      assert Distinct(was.ready[i]);
      MovedStep(was, i, j);
      hide Lists, FreeOk, Linked, Wf, Moved, Apart, OnNoList, RemoveFaults, Unqueue, Put;
      var fault := RemoveFromReadyList(current, procs[current].priority);
      assert !fault;
      SetProc(current, procs[current].(priority := DEFAULTPRIO));
      PutOnReadyList(current, procs[current].priority);
    }

    /** resetReadyList's loop over one list. */
    method MoveAll(i: nat, ghost out: nat)
      requires Table() && Wf(spec) && Lists(spec, out) && FreeOk(spec) && i < SIZE && i != DEFAULTPRIO
      modifies this`spec, procs, next, readyList
      ensures Table() && spec == Moved(old(spec), i, |old(spec).ready[i]|)
    {
      hide Lists, FreeOk, Linked, Chain, Wf, Moved, Apart, Unqueue, RemoveFaults, OnNoList;
      WfShape(spec);
      ghost var was, l := spec, spec.ready[i];
      var current := readyList[i];
      ghost var j := 0;
      MovedNone(was, i);
      HeadOf(i);
      while current != NIL
        invariant j <= |l| && current == At(l, j) && (current == NIL <==> j == |l|) && Table() &&
                  spec == Moved(was, i, j)
        decreases |l| - j
      {
        MovedApart(was, i, j, out);
        NextOf(i, 0);
        MovedRange(was, i, j + 1);
        var after := next[current];
        MoveOne(current, i, was, j, out);
        current := after;
        j := j + 1;
      }
    }

    lemma HeadOf(i: nat)
      requires Chains() && i < SIZE
      ensures readyList[i] == At(spec.ready[i], 0) && (readyList[i] == NIL <==> spec.ready[i] == [])
    {
      ChainRange(next[..], readyList[i], spec.ready[i]);
    }

    /** resetReadyList's loop over the table. */
    method DefaultAll()
      requires Table()
      modifies this`spec, procs
      ensures Table() && spec == old(spec).(procs := Defaulted(old(spec).procs, NPROC))
    {
      hide Linked;
      ghost var was := spec;
      var p := 0;
      assert Defaulted(was.procs, 0) == was.procs;
      while p < NPROC
        invariant p <= NPROC && Table() && spec == was.(procs := Defaulted(was.procs, p))
      {
        ghost var now := Defaulted(was.procs, p);
        if procs[p].state == RUNNING || procs[p].state == SLEEPING {
          assert now[p := now[p].(priority := DEFAULTPRIO)] == Defaulted(was.procs, p + 1);
          SetProc(p, procs[p].(priority := DEFAULTPRIO));
        } else {
          assert now == Defaulted(was.procs, p + 1);
        }
        p := p + 1;
      }
    }

    method ResetReadyList(ghost out: nat)
      requires Table() && Wf(spec) && Lists(spec, out) && FreeOk(spec)
      modifies this`spec, procs, next, readyList
      ensures Table() && spec == Reset(old(spec))
    {
      ResetSteps(spec, out);
      hide Lists, FreeOk, Linked, Moved, Reset, Defaulted;
      MoveAll(HIGH, out);
      MoveAll(LOW, out);
      DefaultAll();
    }

    /** One turn of the scheduler's loop: pick, count down, reset when due, run. */
    method Schedule() returns (picked: nat)
      requires Valid() && Inv(spec)
      modifies this`spec, this`timeToReset, procs, next, readyList
      ensures Valid() && Inv(spec)
      ensures old(spec).ready[Top(old(spec))] == [] ==> picked == NIL && spec == old(spec)
      ensures old(spec).ready[Top(old(spec))] != [] ==> picked == Pick(old(spec)) && spec == Dispatch(old(spec))
    {
      hide Lists, FreeOk, Linked, NoLostChild, Family, Pids, Apart, Unqueue, Popped, RemoveFaults, Top, Pick, Reset, Wf;
      InvWf(spec);
      var i := FirstQueue();
      if i == SIZE {
        return NIL;
      }
      DispatchInv(spec);
      ghost var was := spec;
      picked := readyList[i];
      PickFacts(spec);
      var fault := RemoveFromReadyList(picked, procs[picked].priority);
      assert !fault && spec == Popped(was);
      CountDown(picked);
      SetProc(picked, procs[picked].(state := RUNNING));
    }

    method CountDown(ghost out: nat)
      requires Valid() && Wf(spec) && Lists(spec, out) && FreeOk(spec)
      modifies this`spec, this`timeToReset, procs, next, readyList
      ensures Valid() && spec == CountedDown(old(spec))
    {
      hide Lists, FreeOk, Linked, Reset;
      timeToReset := timeToReset - 1;
      if timeToReset == 0 {
        ResetReadyList(out);
        timeToReset := COUNT;
      }
      LinkedSame(next[..], readyList[..], freeList, spec, spec.(timeToReset := timeToReset));
      spec := spec.(timeToReset := timeToReset);
    }

    /** The scheduler's search for a list that is not empty. */
    method FirstQueue() returns (i: nat)
      requires Chains() && Wf(spec)
      ensures i <= SIZE && (i == SIZE <==> spec.ready[Top(spec)] == [])
      ensures i < SIZE ==> i == Top(spec) && readyList[i] == Pick(spec)
    {
      i := 0;
      while i < SIZE && readyList[i] == NIL
        invariant i <= SIZE && forall j: nat | j < i :: spec.ready[j] == []
      {
        ChainRange(next[..], readyList[i], spec.ready[i]);
        i := i + 1;
      }
      if i < SIZE {
        assert Chain(next[..], readyList[i], spec.ready[i]);
      }
    }

    /** setPriority once the slot is known. */
    method Reprioritise(p: nat, prio: nat) returns (fault: bool)
      requires Valid() && Inv(spec) && p < NPROC && prio < SIZE
      modifies this`spec, procs, next, readyList
      ensures var s := old(spec);
              fault == (s.procs[p].state == RUNNABLE && RemoveFaults(s.ready[s.procs[p].priority], p))
      ensures !fault ==>
                var s := old(spec);
                var t := s.(procs := s.procs[p := s.procs[p].(priority := prio)]);
                Valid() && spec == if s.procs[p].state == RUNNABLE then
                  Put(Unqueue(t, p, s.procs[p].priority), p, prio) else t
    {
      fault := false;
      RequeueFacts(spec, p, prio);
      hide Linked, Inv, Apart, OnNoList, RemoveFaults;
      var oldPriority := procs[p].priority;
      SetProc(p, procs[p].(priority := prio));
      if procs[p].state == RUNNABLE {
        fault := RemoveFromReadyList(p, oldPriority);
        if !fault {
          PutOnReadyList(p, prio);
        }
      }
    }

    method SetPriority(pid: nat, prio: nat) returns (r: int, fault: bool)
      requires Valid() && Inv(spec) && prio < SIZE
      modifies this`spec, procs, next, readyList
      ensures fault == SetPriorityFaults(old(spec), pid, prio)
      ensures !fault ==> Valid() && Inv(spec) && spec == ProcSpec.SetPriority(old(spec), pid, prio)
      ensures !fault ==> r == if FirstPid(old(spec).procs, pid, 0) < NPROC then 0 else -1
      ensures !fault && r == 0 ==>
                var s, p := old(spec), FirstPid(old(spec).procs, pid, 0);
                && spec.procs == s.procs[p := s.procs[p].(priority := prio)]
                && (s.procs[p].state == RUNNABLE && s.procs[p].priority != prio ==>
                      spec.ready[prio] == s.ready[prio] + [p] && p !in spec.ready[s.procs[p].priority])
                && (s.procs[p].state != RUNNABLE || s.procs[p].priority == prio ==> spec.ready == s.ready)
    {
      hide Linked, Inv, Wf, RemoveFaults, FirstPid, Put, Unqueue;
      InvWf(spec);
      SetPriorityInv(spec, pid, prio);
      var p := FindPid(pid);
      if p == NIL {
        return -1, false;
      }
      ghost var k := SetPriorityMoves(spec, pid, p, prio);
      RequeuedOnce(spec, pid, p, prio);
      r, fault := 0, false;
      if procs[p].priority != prio {
        fault := Reprioritise(p, prio);
      }
    }
  }
}
