/** The process table with its three ready lists (proc.c, built with CS333_SCHEDULER): one
    atomic step per critical section under ptable.lock, on lists as values. */
module ProcSpec {

  const NPROC: nat := 64
  const HIGH: nat := 0
  const DEFAULTPRIO: nat := 1
  const LOW: nat := 2
  const SIZE: nat := 3
  const COUNT: nat := 4500
  /** A null pointer into the process table. */
  const NIL: nat := NPROC

  datatype ProcState = UNUSED | EMBRYO | SLEEPING | RUNNABLE | RUNNING | ZOMBIE

  /** wait() sleeps on the caller's own proc. Other sleepers wait for a device, whose interrupt wakes
      them (the clock, the disk, the keyboard), or for something another process does. */
  datatype Chan = NoChan | OfProc(p: nat) | Device(a: nat) | Other(a: nat)

  datatype Proc = Proc(state: ProcState, pid: nat, parent: nat, chan: Chan, killed: bool, priority: nat)

  datatype State = State(procs: seq<Proc>, ready: seq<seq<nat>>, free: seq<nat>, timeToReset: nat, nextpid: nat,
    initproc: nat)

  ghost predicate Distinct(l: seq<nat>) {
    forall i, j | 0 <= i < j < |l| :: l[i] != l[j]
  }

  /** Shape of the table and the lists. */
  ghost predicate Wf(s: State) {
    && |s.procs| == NPROC && |s.ready| == SIZE && s.initproc < NPROC
    && (forall i: nat, p | i < SIZE && p in s.ready[i] :: p < NPROC)
    && (forall p | p in s.free :: p < NPROC)
    && (forall p: nat | p < NPROC :: s.procs[p].priority < SIZE)
    && 1 <= s.timeToReset <= COUNT
  }

  /** Ready lists hold exactly the RUNNABLE processes, each once, on the list of its priority;
      `out`, if it is a process, is just being dispatched and on no list. */
  ghost predicate Lists(s: State, out: nat)
    requires Wf(s)
  {
    && (forall i: nat | i < SIZE :: Distinct(s.ready[i]))
    && (forall i: nat, p | i < SIZE && p in s.ready[i] :: Placed(s, out, i, p))
    && (forall p: nat | p < NPROC && p != out && s.procs[p].state == RUNNABLE ::
          p in s.ready[s.procs[p].priority])
  }

  ghost predicate Placed(s: State, out: nat, i: nat, p: nat)
    requires p < |s.procs|
  {
    s.procs[p].state == RUNNABLE && s.procs[p].priority == i && p != out
  }

  /** The free list holds UNUSED slots, each once. */
  ghost predicate FreeOk(s: State)
    requires Wf(s)
  {
    Distinct(s.free) && forall p | p in s.free :: s.procs[p].state == UNUSED
  }

  /** A parent asleep in wait has no zombie child. */
  ghost predicate NoLostChild(s: State)
    requires Wf(s)
  {
    forall p: nat, c: nat | p < NPROC && c < NPROC && s.procs[p].state == SLEEPING && s.procs[p].chan == OfProc(p) &&
      s.procs[c].parent == p ::
      s.procs[c].state != ZOMBIE
  }

  /** Neither ended nor still being built: a process that is on a ready list or can get there. */
  predicate Active(p: Proc) {
    p.state == RUNNABLE || p.state == RUNNING || p.state == SLEEPING
  }

  /** Nobody is their own parent; init has none and never ends. */
  ghost predicate Family(s: State)
    requires Wf(s)
  {
    && s.procs[s.initproc].parent == NIL && Active(s.procs[s.initproc])
    && forall c: nat | c < NPROC :: s.procs[c].parent != c
  }

  /** A pid other than 0 names one slot, and every slot in use has one. */
  ghost predicate Pids(s: State)
    requires Wf(s)
  {
    && 1 <= s.nextpid
    && (forall p: nat | p < NPROC :: s.procs[p].pid < s.nextpid && (s.procs[p].state != UNUSED ==> s.procs[p].pid != 0))
    && (forall p: nat, q: nat | p < NPROC && q < NPROC && s.procs[p].pid == s.procs[q].pid && s.procs[p].pid != 0 ::
          p == q)
  }

  ghost predicate Inv(s: State) {
    Wf(s) && Lists(s, NIL) && FreeOk(s) && NoLostChild(s) && Family(s) && Pids(s)
  }

  // ----- list operations

  /** putOnReadyList */
  ghost function Put(s: State, p: nat, i: nat): (r: State)
    requires i < |s.ready|
  {
    s.(ready := s.ready[i := s.ready[i] + [p]])
  }

  ghost function Without(l: seq<nat>, p: nat): (r: seq<nat>)
    ensures forall x :: x in r <==> x in l && x != p
    ensures Distinct(l) ==> Distinct(r)
    ensures |r| <= |l|
  {
    if l == [] then []
    else if l[0] == p then Without(l[1..], p)
    else
      var r := Without(l[1..], p);
      assert forall x :: x in l <==> x == l[0] || x in l[1..];
      assert Distinct(l) ==> Distinct(l[1..]) && l[0] !in l[1..];
      [l[0]] + r
  }

  lemma {:induction false} WithoutAbsent(l: seq<nat>, x: nat)
    requires x !in l
    ensures Without(l, x) == l
  {
    if l != [] {
      WithoutAbsent(l[1..], x);
    }
  }

  /** removeFromReadyList reads through a null pointer exactly in this case. */
  predicate RemoveFaults(l: seq<nat>, p: nat) {
    |l| > 1 && l[|l| - 1] == p
  }

  // ----- state changes of one process

  ghost function SetState(s: State, p: nat, st: ProcState): (r: State)
    requires p < |s.procs|
  {
    s.(procs := s.procs[p := s.procs[p].(state := st)])
  }

  /** Make process p RUNNABLE and queue it, as yield, wakeup1, kill and fork do. */
  ghost function Wake(s: State, p: nat): (r: State)
    requires p < |s.procs| && s.procs[p].priority < |s.ready|
  {
    Put(SetState(s, p, RUNNABLE), p, s.procs[p].priority)
  }

  lemma WakeLists(s: State, p: nat, out: nat)
    requires Wf(s) && Lists(s, out) && FreeOk(s) && p < NPROC && p != out
    requires s.procs[p].state == SLEEPING || s.procs[p].state == RUNNING || s.procs[p].state == EMBRYO
    ensures Wf(Wake(s, p)) && Lists(Wake(s, p), out) && FreeOk(Wake(s, p))
  {
    JoinLists(s, p, out, Wake(s, p));
  }

  lemma JoinLists(s: State, p: nat, out: nat, r: State)
    requires Wf(s) && Lists(s, out) && FreeOk(s) && p < NPROC && p != out
    requires s.procs[p].state == SLEEPING || s.procs[p].state == RUNNING || s.procs[p].state == EMBRYO
    requires var i := s.procs[p].priority;
             && r == s.(procs := r.procs, ready := r.ready) && |r.procs| == NPROC && |r.ready| == SIZE
             && (forall x: nat | x < NPROC && x != p :: r.procs[x] == s.procs[x]) &&
                   r.procs[p] == s.procs[p].(state := RUNNABLE)
             && (forall j: nat | j < SIZE && j != i :: r.ready[j] == s.ready[j]) && r.ready[i] == s.ready[i] + [p]
    ensures Wf(r) && Lists(r, out) && FreeOk(r)
  {
    var i := s.procs[p].priority;
    assert p !in s.ready[i];
    forall j: nat, x | j < SIZE && x in r.ready[j]
      ensures x < NPROC && Placed(r, out, j, x)
    {
      assert x in s.ready[j] || (j == i && x == p);
    }
    forall x: nat | x < NPROC && x != out && r.procs[x].state == RUNNABLE ensures x in r.ready[r.procs[x].priority] {
      if x == p {
        assert r.ready[i][|s.ready[i]|] == p;
      } else {
        assert x in s.ready[s.procs[x].priority];
      }
    }
    forall j: nat | j < SIZE ensures Distinct(r.ready[j]) {
      assert Distinct(s.ready[j]);
      if j == i {
        DistinctConcat(s.ready[i], [p]);
      }
    }
    forall x | x in r.free ensures r.procs[x].state == UNUSED {
      assert x in s.free && s.procs[x].state == UNUSED;
    }
  }

  /** wakeup1's loop over the first n slots. */
  ghost function WakeUpTo(s: State, ch: Chan, n: nat): (r: State)
    requires Wf(s) && n <= NPROC
    ensures Wf(r)
  {
    if n == 0 then s else
      var t := WakeUpTo(s, ch, n - 1);
      if t.procs[n - 1].state == SLEEPING && t.procs[n - 1].chan == ch then
        WakeWf(t, n - 1);
        Wake(t, n - 1)
      else t
  }

  lemma WakeWf(s: State, p: nat)
    requires Wf(s) && p < NPROC
    ensures Wf(Wake(s, p))
  {
  }

  /** Only SLEEPING processes have changed, and those only to RUNNABLE. */
  ghost predicate OnlyWoken(s: State, t: State) {
    && |t.procs| == |s.procs|
    && t.free == s.free && t.timeToReset == s.timeToReset && t.nextpid == s.nextpid && t.initproc == s.initproc
    && forall p: nat | p < |s.procs| ::
         t.procs[p] == s.procs[p] || (s.procs[p].state == SLEEPING && t.procs[p] == s.procs[p].(state := RUNNABLE))
  }

  /** Exactly the sleepers on the channel below n have become RUNNABLE. */
  lemma {:induction false} WakeUpToProcs(s: State, ch: Chan, n: nat)
    requires Wf(s) && n <= NPROC
    ensures OnlyWoken(s, WakeUpTo(s, ch, n))
    ensures forall p: nat | p < NPROC ::
              WakeUpTo(s, ch, n).procs[p]
              == if p < n && s.procs[p].state == SLEEPING && s.procs[p].chan == ch then
                s.procs[p].(state := RUNNABLE) else s.procs[p]
  {
    if n > 0 {
      WakeUpToProcs(s, ch, n - 1);
    }
  }

  lemma {:induction false} WakeUpToLists(s: State, ch: Chan, n: nat, out: nat)
    requires Wf(s) && Lists(s, out) && FreeOk(s) && n <= NPROC && (out < NPROC ==> s.procs[out].state != SLEEPING)
    ensures Lists(WakeUpTo(s, ch, n), out) && FreeOk(WakeUpTo(s, ch, n))
  {
    hide Lists, FreeOk, Wake;
    if n > 0 {
      WakeUpToLists(s, ch, n - 1, out);
      var t := WakeUpTo(s, ch, n - 1);
      WakeUpToProcs(s, ch, n - 1);
      if t.procs[n - 1].state == SLEEPING && t.procs[n - 1].chan == ch {
        WakeLists(t, n - 1, out);
      }
    }
  }

  // ----- exit

  /** exit's loop over the first n slots: children of q go to init. */
  ghost function Reparent(s: State, q: nat, n: nat): (r: State)
    requires Wf(s) && n <= NPROC
    ensures Wf(r) && r.initproc == s.initproc
  {
    if n == 0 then s else Adopt(Reparent(s, q, n - 1), q, n - 1)
  }

  /** One slot of exit's loop. */
  ghost function Adopt(s: State, q: nat, c: nat): (r: State)
    requires Wf(s) && c < NPROC
    ensures Wf(r) && r.initproc == s.initproc
  {
    if s.procs[c].parent != q then s
    else
      var u := s.(procs := s.procs[c := s.procs[c].(parent := s.initproc)]);
      if u.procs[c].state == ZOMBIE then
        WakeInit(u);
        WakeUpTo(u, OfProc(u.initproc), NPROC)
      else u
  }

  lemma {:induction false} WakeUpToInit(s: State, ch: Chan, n: nat)
    requires Wf(s) && n <= NPROC
    ensures WakeUpTo(s, ch, n).initproc == s.initproc
  {
    if n > 0 {
      WakeUpToInit(s, ch, n - 1);
    }
  }

  lemma WakeInit(s: State)
    requires Wf(s)
    ensures WakeUpTo(s, OfProc(s.initproc), NPROC).initproc == s.initproc
  {
    WakeUpToInit(s, OfProc(s.initproc), NPROC);
  }

  /** A process changed in anything but state and priority is on the same lists. */
  lemma SameLists(s: State, t: State, out: nat)
    requires Wf(s) && Lists(s, out) && FreeOk(s)
    requires |t.procs| == NPROC && t == s.(procs := t.procs)
    requires forall p: nat | p < NPROC ::
               t.procs[p].state == s.procs[p].state && t.procs[p].priority == s.procs[p].priority
    ensures Wf(t) && Lists(t, out) && FreeOk(t)
  {
  }

  /** A process that is on no list moves between states that are on no list. */
  lemma OffList(s: State, q: nat, st: ProcState)
    requires Wf(s) && Lists(s, NIL) && FreeOk(s) && q < NPROC && s.procs[q].state != RUNNABLE && st != RUNNABLE
    requires q !in s.free || st == UNUSED
    ensures Wf(SetState(s, q, st)) && Lists(SetState(s, q, st), NIL) && FreeOk(SetState(s, q, st))
  {
  }

  /** What reparenting has done to slot p. */
  ghost predicate Reparented(s: State, t: State, q: nat, n: nat, p: nat)
    requires Wf(s) && Wf(t) && p < NPROC
  {
    var a, b := s.procs[p], t.procs[p];
    && b.parent == (if p < n && a.parent == q then s.initproc else a.parent)
    && (b == a.(parent := b.parent)
        || (a.state == SLEEPING && a.chan == OfProc(s.initproc) && b == a.(parent := b.parent, state := RUNNABLE)))
  }

  /** Init is awake. */
  ghost predicate InitUp(t: State, init: nat)
    requires Wf(t)
  {
    forall p: nat | p < NPROC && t.procs[p].chan == OfProc(init) :: t.procs[p].state != SLEEPING
  }

  /** One slot of the loop. */
  lemma AdoptOne(s: State, t: State, q: nat, n: nat, m: nat)
    requires Wf(s) && Wf(t) && m == n + 1 <= NPROC && t.initproc == s.initproc
    requires forall p: nat | p < NPROC :: Reparented(s, t, q, n, p)
    ensures forall p: nat | p < NPROC :: Reparented(s, Adopt(t, q, n), q, m, p)
    ensures (s.procs[n].parent == q && s.procs[n].state == ZOMBIE) || InitUp(t, s.initproc) ==>
              InitUp(Adopt(t, q, n), s.initproc)
  {
    hide WakeUpTo;
    assert Reparented(s, t, q, n, n);
    var u := t.(procs := t.procs[n := t.procs[n].(parent := t.initproc)]);
    WakeUpToProcs(u, OfProc(u.initproc), NPROC);
    forall p: nat | p < NPROC ensures Reparented(s, Adopt(t, q, n), q, m, p) {
      assert Reparented(s, t, q, n, p);
    }
  }

  /** What reparenting does: parents move to init, and a zombie child wakes init. */
  lemma {:induction false} ReparentProcs(s: State, q: nat, n: nat)
    requires Wf(s) && n <= NPROC
    ensures forall p: nat | p < NPROC ::
              var a, b := s.procs[p], Reparent(s, q, n).procs[p];
              && b.parent == (if p < n && a.parent == q then s.initproc else a.parent)
              && (b == a.(parent := b.parent)
                  || (a.state == SLEEPING && a.chan == OfProc(s.initproc) &&
                    b == a.(parent := b.parent, state := RUNNABLE)))
    ensures (exists c: nat :: c < n && s.procs[c].parent == q && s.procs[c].state == ZOMBIE) ==>
              forall p: nat | p < NPROC && s.procs[p].chan == OfProc(s.initproc) ::
                Reparent(s, q, n).procs[p].state != SLEEPING
  {
    ReparentedAll(s, q, n);
    hide Reparent;
    var r := Reparent(s, q, n);
    forall p: nat | p < NPROC
      ensures var a, b := s.procs[p], r.procs[p];
              && b.chan == a.chan && b.parent == (if p < n && a.parent == q then s.initproc else a.parent)
              && (b == a.(parent := b.parent)
                  || (a.state == SLEEPING && a.chan == OfProc(s.initproc) &&
                    b == a.(parent := b.parent, state := RUNNABLE)))
    {
      assert Reparented(s, r, q, n, p);
    }
  }

  lemma {:induction false} ReparentedAll(s: State, q: nat, n: nat)
    requires Wf(s) && n <= NPROC
    ensures forall p: nat | p < NPROC :: Reparented(s, Reparent(s, q, n), q, n, p)
    ensures (exists c: nat :: c < n && s.procs[c].parent == q && s.procs[c].state == ZOMBIE) ==>
              InitUp(Reparent(s, q, n), s.initproc)
  {
    hide Adopt, Reparented, InitUp;
    if n == 0 {
      forall p: nat | p < NPROC ensures Reparented(s, s, q, 0, p) {
        NotReparented(s, q, p);
      }
    } else {
      ReparentedAll(s, q, n - 1);
      AdoptOne(s, Reparent(s, q, n - 1), q, n - 1, n);
    }
  }

  lemma NotReparented(s: State, q: nat, p: nat)
    requires Wf(s) && p < NPROC
    ensures Reparented(s, s, q, 0, p)
  {
  }

  lemma {:induction false} ReparentLists(s: State, q: nat, n: nat)
    requires Wf(s) && Lists(s, NIL) && FreeOk(s) && n <= NPROC
    ensures Lists(Reparent(s, q, n), NIL) && FreeOk(Reparent(s, q, n))
  {
    hide Lists, FreeOk;
    if n > 0 {
      ReparentLists(s, q, n - 1);
      var t := Reparent(s, q, n - 1);
      if t.procs[n - 1].parent == q {
        var u := t.(procs := t.procs[n - 1 := t.procs[n - 1].(parent := t.initproc)]);
        SameLists(t, u, NIL);
        if u.procs[n - 1].state == ZOMBIE {
          WakeUpToLists(u, OfProc(u.initproc), NPROC, NIL);
        }
      }
    }
  }

  /** exit */
  ghost function Exit(s: State, q: nat): (r: State)
    requires Wf(s) && q < NPROC
  {
    SetState(Reparent(WakeUpTo(s, OfProc(s.procs[q].parent), NPROC), q, NPROC), q, ZOMBIE)
  }

  lemma ExitLists(s: State, q: nat)
    requires Inv(s) && q < NPROC && s.procs[q].state == RUNNING
    ensures Wf(Exit(s, q)) && Lists(Exit(s, q), NIL) && FreeOk(Exit(s, q))
  {
    hide Lists, NoLostChild;
    var ch := OfProc(s.procs[q].parent);
    WakeUpToProcs(s, ch, NPROC);
    WakeUpToLists(s, ch, NPROC, NIL);
    var t := WakeUpTo(s, ch, NPROC);
    ReparentProcs(t, q, NPROC);
    ReparentLists(t, q, NPROC);
    var u := Reparent(t, q, NPROC);
    assert u.procs[q].state == RUNNING;
    OffList(u, q, ZOMBIE);
  }

  /** What exit does to each slot. */
  lemma ExitProcs(s: State, q: nat)
    requires Wf(s) && q < NPROC && s.procs[q].state == RUNNING && s.procs[q].parent != q
    ensures var r := Exit(s, q);
            && |r.procs| == NPROC && r.initproc == s.initproc && r.nextpid == s.nextpid && r.free == s.free
            && r.procs[q] == s.procs[q].(state := ZOMBIE)
            && forall p: nat | p < NPROC && p != q ::
                 var a, b := s.procs[p], r.procs[p];
                 && b.parent == (if a.parent == q then s.initproc else a.parent)
                 && (b == a.(parent := b.parent) || (a.state == SLEEPING &&
                       b == a.(parent := b.parent, state := RUNNABLE)))
                 && (b.state == SLEEPING ==>
                     && a.chan != OfProc(s.procs[q].parent)
                     && (a.chan == OfProc(s.initproc) ==>
                         forall c: nat | c < NPROC && s.procs[c].parent == q :: s.procs[c].state != ZOMBIE))
  {
    var ch := OfProc(s.procs[q].parent);
    WakeUpToProcs(s, ch, NPROC);
    var t := WakeUpTo(s, ch, NPROC);
    ReparentProcs(t, q, NPROC);
    ReparentRest(t, q, NPROC);
    hide WakeUpTo, Reparent, Wf;
    var u := Reparent(t, q, NPROC);
    forall p: nat | p < NPROC && p != q && u.procs[p].state == SLEEPING && s.procs[p].chan == OfProc(s.initproc)
      ensures forall c: nat | c < NPROC && s.procs[c].parent == q :: s.procs[c].state != ZOMBIE
    {
      assert forall c: nat | c < NPROC && s.procs[c].parent == q && s.procs[c].state == ZOMBIE ::
          t.procs[c].parent == q && t.procs[c].state == ZOMBIE;
    }
  }

  lemma {:induction false} ReparentRest(s: State, q: nat, n: nat)
    requires Wf(s) && n <= NPROC
    ensures Reparent(s, q, n).nextpid == s.nextpid && Reparent(s, q, n).free == s.free
  {
    if n > 0 {
      ReparentRest(s, q, n - 1);
      var t := Reparent(s, q, n - 1);
      if t.procs[n - 1].parent == q {
        var u := t.(procs := t.procs[n - 1 := t.procs[n - 1].(parent := t.initproc)]);
        if u.procs[n - 1].state == ZOMBIE {
          WakeUpToProcs(u, OfProc(u.initproc), NPROC);
        }
      }
    }
  }

  lemma ExitChildren(s: State, q: nat)
    requires Inv(s) && q < NPROC && s.procs[q].state == RUNNING && q != s.initproc
    ensures Wf(Exit(s, q)) && NoLostChild(Exit(s, q))
  {
    ExitLists(s, q);
    ExitProcs(s, q);
    hide Lists, FreeOk, WakeUpTo, Reparent, Exit, Pids;
  }

  lemma ExitFamily(s: State, q: nat)
    requires Inv(s) && q < NPROC && s.procs[q].state == RUNNING && q != s.initproc
    ensures Wf(Exit(s, q)) && Family(Exit(s, q)) && Pids(Exit(s, q))
  {
    ExitLists(s, q);
    ExitProcs(s, q);
    hide Lists, FreeOk, WakeUpTo, Reparent, Exit, NoLostChild;
  }

  lemma ExitInv(s: State, q: nat)
    requires Inv(s) && q < NPROC && s.procs[q].state == RUNNING && q != s.initproc
    ensures Inv(Exit(s, q))
  {
    hide Lists, FreeOk, Exit, NoLostChild, Family, Pids, Wf;
    ExitLists(s, q);
    ExitChildren(s, q);
    ExitFamily(s, q);
  }

  // ----- wait, allocproc, fork

  /** The first ZOMBIE child of q from slot i on, or NIL. */
  function FirstZombie(procs: seq<Proc>, q: nat, i: nat): (r: nat)
    requires i <= |procs| == NPROC
    ensures i <= r <= NPROC
    ensures r < NPROC ==> procs[r].parent == q && procs[r].state == ZOMBIE
    ensures forall c: nat | i <= c < r :: !(procs[c].parent == q && procs[c].state == ZOMBIE)
    decreases NPROC - i
  {
    if i == NPROC || (procs[i].parent == q && procs[i].state == ZOMBIE) then i else FirstZombie(procs, q, i + 1)
  }

  predicate HasKids(procs: seq<Proc>, q: nat) {
    exists c: nat :: c < |procs| && procs[c].parent == q
  }

  /** One pass of wait's loop. */
  ghost function Wait(s: State, q: nat): (r: State)
    requires Wf(s) && q < NPROC
  {
    var z := FirstZombie(s.procs, q, 0);
    if z < NPROC then
      s.(procs := s.procs[z := s.procs[z].(state := UNUSED, pid := 0, parent := NIL, killed := false)])
    else if !HasKids(s.procs, q) || s.procs[q].killed then s
    else s.(procs := s.procs[q := s.procs[q].(state := SLEEPING, chan := OfProc(q))])
  }

  lemma WaitInv(s: State, q: nat)
    requires Inv(s) && q < NPROC && s.procs[q].state == RUNNING
    ensures Inv(Wait(s, q))
  {
    var z := FirstZombie(s.procs, q, 0);
    if z < NPROC {
      ReapInv(s, z);
    } else if HasKids(s.procs, q) && !s.procs[q].killed {
      SleepInv(s, q, OfProc(q));
    }
  }

  lemma ReapInv(s: State, z: nat)
    requires Inv(s) && z < NPROC && s.procs[z].state == ZOMBIE
    ensures Inv(s.(procs := s.procs[z := s.procs[z].(state := UNUSED, pid := 0, parent := NIL, killed := false)]))
  {
    OffList(s, z, UNUSED);
    hide Lists, FreeOk;
    var r := s.(procs := s.procs[z := s.procs[z].(state := UNUSED, pid := 0, parent := NIL, killed := false)]);
    SameLists(SetState(s, z, UNUSED), r, NIL);
  }

  /** allocproc up to its release of the lock. */
  ghost function Alloc(s: State): (r: State)
    requires Wf(s)
  {
    if s.free == [] then s
    else
      var p := s.free[0];
      assert p in s.free;
      s.(free := s.free[1..], nextpid := s.nextpid + 1,
        procs := s.procs[p := s.procs[p].(state := EMBRYO, pid := s.nextpid)])
  }

  lemma AllocLists(s: State)
    requires Wf(s) && Lists(s, NIL) && FreeOk(s)
    ensures Wf(Alloc(s)) && Lists(Alloc(s), NIL) && FreeOk(Alloc(s))
  {
    if s.free != [] {
      assert s.free[0] in s.free;
      assert forall x | x in s.free[1..] :: x in s.free && x != s.free[0];
    }
  }

  lemma AllocInv(s: State)
    requires Inv(s)
    ensures Inv(Alloc(s))
  {
    if s.free != [] {
      var p, r := s.free[0], Alloc(s);
      assert p in s.free;
      assert forall x | x in r.free :: x in s.free && x != p;
      AllocLists(s);
      hide Lists, FreeOk;
    }
  }

  /** The slot of an EMBRYO goes back to UNUSED when allocproc finds no kernel stack ... */
  ghost function AllocFail(s: State, p: nat): (r: State)
    requires Wf(s) && p < NPROC
  {
    SetState(s, p, UNUSED)
  }

  /** ... and to the free list as well when fork finds no memory. */
  ghost function ForkFail(s: State, p: nat): (r: State)
    requires Wf(s) && p < NPROC
  {
    SetState(s, p, UNUSED).(free := s.free + [p])
  }

  lemma FailInv(s: State, p: nat)
    requires Inv(s) && p < NPROC && s.procs[p].state == EMBRYO
    ensures Inv(AllocFail(s, p)) && Inv(ForkFail(s, p))
  {
    OffList(s, p, UNUSED);
  }

  /** The rest of fork: the child becomes RUNNABLE at the default priority. */
  ghost function ForkDone(s: State, q: nat, p: nat): (r: State)
    requires Wf(s) && p < NPROC
  {
    Wake(s.(procs := s.procs[p := s.procs[p].(parent := q, priority := DEFAULTPRIO)]), p)
  }

  lemma ForkDoneInv(s: State, q: nat, p: nat)
    requires Inv(s) && q < NPROC && p < NPROC && s.procs[q].state == RUNNING && s.procs[p].state == EMBRYO
    ensures Inv(ForkDone(s, q, p))
  {
    var t := s.(procs := s.procs[p := s.procs[p].(parent := q, priority := DEFAULTPRIO)]);
    assert Lists(t, NIL) && FreeOk(t);
    hide Lists, FreeOk;
    WakeLists(t, p, NIL);
  }

  // ----- yield, sleep, wakeup, kill

  ghost function Sleep(s: State, q: nat, ch: Chan): (r: State)
    requires Wf(s) && q < NPROC
  {
    s.(procs := s.procs[q := s.procs[q].(state := SLEEPING, chan := ch)])
  }

  lemma SleepInv(s: State, q: nat, ch: Chan)
    requires Inv(s) && q < NPROC && s.procs[q].state == RUNNING
    requires ch == OfProc(q) ==> FirstZombie(s.procs, q, 0) == NIL
    ensures Inv(Sleep(s, q, ch))
  {
    OffList(s, q, SLEEPING);
    hide Lists, FreeOk;
    SameLists(SetState(s, q, SLEEPING), Sleep(s, q, ch), NIL);
  }

  lemma WakeupFamily(s: State, ch: Chan)
    requires Inv(s)
    ensures var r := WakeUpTo(s, ch, NPROC); NoLostChild(r) && Family(r) && Pids(r)
  {
    hide Lists, FreeOk, WakeUpTo;
    WakeUpToProcs(s, ch, NPROC);
  }

  lemma WakeupInv(s: State, ch: Chan)
    requires Inv(s)
    ensures Inv(WakeUpTo(s, ch, NPROC))
  {
    hide Lists, FreeOk, WakeUpTo;
    WakeUpToLists(s, ch, NPROC, NIL);
    WakeupFamily(s, ch);
  }

  /** The first slot from i on that has the pid, or NIL. */
  function FirstPid(procs: seq<Proc>, pid: nat, i: nat): (r: nat)
    requires i <= |procs| == NPROC
    ensures i <= r <= NPROC
    ensures r < NPROC ==> procs[r].pid == pid
    ensures forall c: nat | i <= c < r :: procs[c].pid != pid
    decreases NPROC - i
  {
    if i == NPROC || procs[i].pid == pid then i else FirstPid(procs, pid, i + 1)
  }

  ghost function Kill(s: State, pid: nat): (r: State)
    requires Wf(s)
  {
    var p := FirstPid(s.procs, pid, 0);
    if p == NIL then s
    else
      var t := s.(procs := s.procs[p := s.procs[p].(killed := true)]);
      if s.procs[p].state == SLEEPING then Wake(t, p) else t
  }

  /** Marking a process killed, or clearing the channel of one that is awake, is harmless. */
  lemma QuietInv(s: State, p: nat, x: Proc)
    requires Inv(s) && p < NPROC && x == s.procs[p].(killed := x.killed, chan := x.chan)
    requires s.procs[p].state == SLEEPING ==> x.chan == s.procs[p].chan
    ensures Inv(s.(procs := s.procs[p := x]))
  {
    hide Lists, FreeOk;
    SameLists(s, s.(procs := s.procs[p := x]), NIL);
  }

  lemma WakeInv(s: State, p: nat)
    requires Inv(s) && p < NPROC && (s.procs[p].state == SLEEPING || s.procs[p].state == RUNNING)
    ensures Inv(Wake(s, p))
  {
    hide Lists, FreeOk;
    WakeLists(s, p, NIL);
  }

  lemma KillInv(s: State, pid: nat)
    requires Inv(s)
    ensures Inv(Kill(s, pid))
  {
    hide Lists, FreeOk, NoLostChild, Family, Pids;
    var p := FirstPid(s.procs, pid, 0);
    if p < NPROC {
      QuietInv(s, p, s.procs[p].(killed := true));
      if s.procs[p].state == SLEEPING {
        WakeInv(s.(procs := s.procs[p := s.procs[p].(killed := true)]), p);
      }
    }
  }

  // ----- setPriority

  ghost predicate SetPriorityFaults(s: State, pid: nat, prio: nat)
    requires Wf(s)
  {
    var p := FirstPid(s.procs, pid, 0);
    p < NPROC && s.procs[p].priority != prio && s.procs[p].state == RUNNABLE &&
      RemoveFaults(s.ready[s.procs[p].priority], p)
  }

  lemma PidNames(s: State, p: nat)
    requires Inv(s) && p < NPROC && s.procs[p].state != UNUSED
    ensures FirstPid(s.procs, s.procs[p].pid, 0) == p
  {
    hide Lists, FreeOk, NoLostChild, Family;
  }

  /** setPriority reads through a null pointer exactly when it is to move the last of several
      processes on a ready list. */
  lemma SetPriorityFaultsIff(s: State, p: nat, prio: nat)
    requires Inv(s) && p < NPROC && s.procs[p].state != UNUSED
    ensures SetPriorityFaults(s, s.procs[p].pid, prio)
            <==> exists i: nat :: i < SIZE && i != prio && |s.ready[i]| > 1 && s.ready[i][|s.ready[i]| - 1] == p
  {
    PidNames(s, p);
    hide FreeOk, NoLostChild, Family, Pids, FirstPid;
    if exists i: nat :: i < SIZE && i != prio && |s.ready[i]| > 1 && s.ready[i][|s.ready[i]| - 1] == p {
      var i: nat :| i < SIZE && i != prio && |s.ready[i]| > 1 && s.ready[i][|s.ready[i]| - 1] == p;
      assert p in s.ready[i];
    }
  }

  ghost function SetPriority(s: State, pid: nat, prio: nat): (r: State)
    requires Wf(s) && prio < SIZE
  {
    var p := FirstPid(s.procs, pid, 0);
    if p == NIL || s.procs[p].priority == prio then s
    else
      var t := s.(procs := s.procs[p := s.procs[p].(priority := prio)]);
      if s.procs[p].state == RUNNABLE then Put(Unqueue(t, p, s.procs[p].priority), p, prio) else t
  }

  ghost function Unqueue(s: State, p: nat, i: nat): (r: State)
    requires i < |s.ready|
  {
    s.(ready := s.ready[i := Without(s.ready[i], p)])
  }

  /** What is left of a list without p: the same members in the same order. */
  lemma {:induction false} WithoutSplits(l: seq<nat>, p: nat) returns (k: nat)
    requires p in l && Distinct(l)
    ensures k < |l| && l[k] == p && Without(l, p) == l[..k] + l[k + 1..]
  {
    if l[0] == p {
      k := 0;
      assert p !in l[1..];
      WithoutAbsent(l[1..], p);
    } else {
      k := WithoutSplits(l[1..], p);
      assert Distinct(l[1..]);
      assert l[..k + 1] == [l[0]] + l[1..][..k] && l[1..][k + 1..] == l[k + 2..];
      k := k + 1;
    }
  }

  /** setPriority gives the first process with the pid its new priority and changes nothing
    else in the table. A RUNNABLE one
      leaves its list, whose others stay in order, and goes to the end of the list of the new priority. */
  lemma SetPriorityMoves(s: State, pid: nat, p: nat, prio: nat) returns (k: nat)
    requires Inv(s) && prio < SIZE && p < NPROC && s.procs[p].pid == pid && forall c: nat | c < p ::
               s.procs[c].pid != pid
    ensures var r, i := SetPriority(s, pid, prio), s.procs[p].priority;
            && r == s.(procs := s.procs[p := s.procs[p].(priority := prio)], ready := r.ready) && |r.ready| == SIZE
            && (s.procs[p].state != RUNNABLE || i == prio ==> r.ready == s.ready)
            && (s.procs[p].state == RUNNABLE && i != prio ==>
                  && r.ready[prio] == s.ready[prio] + [p]
                  && k < |s.ready[i]| && s.ready[i][k] == p && r.ready[i] == s.ready[i][..k] + s.ready[i][k + 1..]
                  && forall j: nat | j < SIZE && j != i && j != prio :: r.ready[j] == s.ready[j])
  {
    hide FreeOk, NoLostChild, Family, Pids, FirstPid, Without;
    assert FirstPid(s.procs, pid, 0) == p;
    k := 0;
    assert s.procs[p := s.procs[p]] == s.procs;
    if s.procs[p].state == RUNNABLE {
      k := WithoutSplits(s.ready[s.procs[p].priority], p);
    }
  }

  lemma RequeuedOnce(s: State, pid: nat, p: nat, prio: nat)
    requires Inv(s) && prio < SIZE && p == FirstPid(s.procs, pid, 0) && p < NPROC
    ensures s.procs[p].state == RUNNABLE && s.procs[p].priority != prio ==>
              p !in SetPriority(s, pid, prio).ready[s.procs[p].priority]
  {
    hide FreeOk, NoLostChild, Family, Pids, FirstPid;
  }

  /** A pid that nobody has. */
  lemma SetPriorityMisses(s: State, pid: nat, prio: nat)
    requires Wf(s) && prio < SIZE && forall p: nat | p < NPROC :: s.procs[p].pid != pid
    ensures SetPriority(s, pid, prio) == s && !SetPriorityFaults(s, pid, prio)
  {
  }

  /** Taking a process off its list leaves it `out`. */
  lemma UnqueueLists(s: State, p: nat)
    requires Wf(s) && Lists(s, NIL) && FreeOk(s) && p < NPROC && s.procs[p].state == RUNNABLE
    ensures var r := Unqueue(s, p, s.procs[p].priority); Wf(r) && Lists(r, p) && FreeOk(r)
  {
  }

  /** The process that is out joins the list of a new priority. */
  lemma RequeueLists(s: State, p: nat, prio: nat)
    requires Wf(s) && Lists(s, p) && FreeOk(s) && p < NPROC && s.procs[p].state == RUNNABLE && prio < SIZE
    ensures var r := Put(s.(procs := s.procs[p := s.procs[p].(priority := prio)]), p, prio);
            Wf(r) && Lists(r, NIL) && FreeOk(r)
  {
    var r := Put(s.(procs := s.procs[p := s.procs[p].(priority := prio)]), p, prio);
    assert r.ready[prio][|s.ready[prio]|] == p;
    forall j: nat, x | j < SIZE && x in r.ready[j]
      ensures x < NPROC && Placed(r, NIL, j, x)
    {
      assert x in s.ready[j] || (j == prio && x == p);
    }
    forall x: nat | x < NPROC && x != p && r.procs[x].state == RUNNABLE ensures x in r.ready[r.procs[x].priority] {
      assert x in s.ready[s.procs[x].priority];
    }
    forall j: nat | j < SIZE ensures Distinct(r.ready[j]) {
      assert Distinct(s.ready[j]);
      if j == prio {
        DistinctConcat(s.ready[j], [p]);
      }
    }
  }

  lemma SetPriorityLists(s: State, pid: nat, prio: nat)
    requires Wf(s) && Lists(s, NIL) && FreeOk(s) && prio < SIZE
    ensures Wf(SetPriority(s, pid, prio)) && Lists(SetPriority(s, pid, prio), NIL) && FreeOk(SetPriority(s, pid, prio))
  {
    var p := FirstPid(s.procs, pid, 0);
    if p < NPROC && s.procs[p].priority != prio {
      if s.procs[p].state == RUNNABLE {
        hide Lists, FreeOk, Wf;
        UnqueueLists(s, p);
        RequeueLists(Unqueue(s, p, s.procs[p].priority), p, prio);
      } else {
        assert forall i: nat | i < SIZE :: p !in s.ready[i];
      }
    }
  }

  lemma SetPriorityInv(s: State, pid: nat, prio: nat)
    requires Inv(s) && prio < SIZE
    ensures Inv(SetPriority(s, pid, prio))
  {
    hide Lists, FreeOk;
    SetPriorityLists(s, pid, prio);
  }

  // ----- scheduler

  /** A process after resetReadyList. */
  ghost function ResetProc(s: State, p: nat): (r: Proc)
    requires Wf(s) && p < NPROC
  {
    if p in s.ready[HIGH] || p in s.ready[LOW] || s.procs[p].state == RUNNING || s.procs[p].state == SLEEPING
    then s.procs[p].(priority := DEFAULTPRIO) else s.procs[p]
  }

  /** resetReadyList: everybody moves to the default list, the HIGH ones ahead of the LOW ones. */
  ghost function Reset(s: State): (r: State)
    requires Wf(s)
  {
    s.(ready := [[], s.ready[DEFAULTPRIO] + s.ready[HIGH] + s.ready[LOW], []],
       procs := seq(NPROC, p requires 0 <= p < NPROC => ResetProc(s, p)))
  }

  lemma ResetLists(s: State, out: nat)
    requires Wf(s) && Lists(s, out) && FreeOk(s)
    ensures Wf(Reset(s)) && Lists(Reset(s), out) && FreeOk(Reset(s))
  {
    var r := Reset(s);
    forall x: nat | x < NPROC ensures r.procs[x] == ResetProc(s, x) {
    }
    MergedLists(s, out, r);
  }

  lemma MergedLists(s: State, out: nat, r: State)
    requires Wf(s) && Lists(s, out) && FreeOk(s)
    requires r == s.(ready := r.ready, procs := r.procs) && |r.procs| == NPROC && forall x: nat | x < NPROC ::
               r.procs[x] == ResetProc(s, x)
    requires |r.ready| == SIZE && r.ready[HIGH] == [] && r.ready[LOW] == []
    requires r.ready[DEFAULTPRIO] == s.ready[DEFAULTPRIO] + s.ready[HIGH] + s.ready[LOW]
    ensures Wf(r) && Lists(r, out) && FreeOk(r)
  {
    hide Distinct;
    var d, h, l := s.ready[DEFAULTPRIO], s.ready[HIGH], s.ready[LOW];
    EmptyDistinct();
    ResetDistinct(s, out);
    forall i: nat | i < SIZE ensures Distinct(r.ready[i]) {
      assert r.ready[i] == if i == DEFAULTPRIO then d + h + l else [];
    }
    forall i: nat, x | i < SIZE && x in r.ready[i]
      ensures x < NPROC && Placed(r, out, i, x)
    {
      assert i == DEFAULTPRIO && (x in d || x in h || x in l);
      assert r.procs[x] == ResetProc(s, x);
    }
    forall x: nat | x < NPROC && x != out && r.procs[x].state == RUNNABLE ensures x in r.ready[r.procs[x].priority] {
      assert r.procs[x] == ResetProc(s, x);
      assert x in s.ready[s.procs[x].priority];
    }
    forall x: nat | x < NPROC ensures r.procs[x].priority < SIZE && r.procs[x].state == s.procs[x].state {
      assert r.procs[x] == ResetProc(s, x);
    }
  }

  lemma EmptyDistinct()
    ensures Distinct([])
  {
  }

  lemma ResetDistinct(s: State, out: nat)
    requires Wf(s) && Lists(s, out)
    ensures Distinct(s.ready[DEFAULTPRIO] + s.ready[HIGH] + s.ready[LOW])
  {
    var d, h, l := s.ready[DEFAULTPRIO], s.ready[HIGH], s.ready[LOW];
    assert forall x | x in d :: s.procs[x].priority == DEFAULTPRIO;
    assert forall x | x in h :: s.procs[x].priority == HIGH;
    assert forall x | x in l :: s.procs[x].priority == LOW;
    DistinctConcat(d, h);
    DistinctConcat(d + h, l);
  }

  lemma DistinctConcat(a: seq<nat>, b: seq<nat>)
    requires Distinct(a) && Distinct(b) && forall x | x in a :: x !in b
    ensures Distinct(a + b)
  {
    forall i, j | 0 <= i < j < |a + b| ensures (a + b)[i] != (a + b)[j] {
      assert i < |a| ==> a[i] in a;
      assert j >= |a| ==> b[j - |a|] in b;
    }
  }

  /** The highest-priority list that is not empty (LOW when all are). */
  ghost function Top(s: State): (i: nat)
    requires Wf(s)
    ensures i < SIZE && forall j: nat | j < i :: s.ready[j] == []
  {
    if s.ready[HIGH] != [] then HIGH else if s.ready[DEFAULTPRIO] != [] then DEFAULTPRIO else LOW
  }

  /** The process the scheduler picks next. */
  ghost function Pick(s: State): (p: nat)
    requires Wf(s) && s.ready[Top(s)] != []
    ensures p < NPROC && p in s.ready[Top(s)]
  {
    assert s.ready[Top(s)][0] in s.ready[Top(s)];
    s.ready[Top(s)][0]
  }

  ghost function Popped(s: State): (r: State)
    requires Wf(s) && s.ready[Top(s)] != []
    ensures Wf(r) && r == s.(ready := r.ready)
  {
    assert forall x | x in s.ready[Top(s)][1..] :: x in s.ready[Top(s)];
    s.(ready := s.ready[Top(s) := s.ready[Top(s)][1..]])
  }

  /** One dispatch, with the periodic reset. */
  ghost function Dispatch(s: State): (r: State)
    requires Wf(s) && s.ready[Top(s)] != []
  {
    SetState(CountedDown(Popped(s)), Pick(s), RUNNING)
  }

  /** The countdown to the next reset. */
  ghost function CountedDown(s: State): (r: State)
    requires Wf(s)
  {
    if s.timeToReset == 1 then Reset(s).(timeToReset := COUNT) else s.(timeToReset := s.timeToReset - 1)
  }

  lemma PoppedLists(s: State)
    requires Wf(s) && Lists(s, NIL) && FreeOk(s) && s.ready[Top(s)] != []
    ensures Lists(Popped(s), Pick(s)) && FreeOk(Popped(s))
  {
    var i, r, p := Top(s), Popped(s), Pick(s);
    assert forall x | x in s.ready[i] :: x == p || x in r.ready[i];
    assert forall x | x in r.ready[i] :: x in s.ready[i] && x != p;
  }

  lemma RunLists(s: State, p: nat)
    requires Wf(s) && Lists(s, p) && FreeOk(s) && p < NPROC && s.procs[p].state == RUNNABLE
    ensures Wf(SetState(s, p, RUNNING)) && Lists(SetState(s, p, RUNNING), NIL) && FreeOk(SetState(s, p, RUNNING))
  {
  }

  lemma DispatchLists(s: State)
    requires Wf(s) && Lists(s, NIL) && FreeOk(s) && s.ready[Top(s)] != []
    ensures Wf(Dispatch(s)) && Lists(Dispatch(s), NIL) && FreeOk(Dispatch(s))
  {
    PoppedLists(s);
    var t, p := Popped(s), Pick(s);
    assert t.procs[p].state == RUNNABLE;
    if t.timeToReset == 1 {
      ResetLists(t, p);
      RunLists(Reset(t).(timeToReset := COUNT), p);
    } else {
      RunLists(t.(timeToReset := t.timeToReset - 1), p);
    }
  }

  lemma DispatchInv(s: State)
    requires Inv(s) && s.ready[Top(s)] != []
    ensures Inv(Dispatch(s))
  {
    DispatchLists(s);
    DispatchProcs(s);
    hide Lists, FreeOk, Dispatch;
  }

  /** Dispatching makes one process RUNNING and changes priorities only. */
  lemma DispatchProcs(s: State)
    requires Inv(s) && s.ready[Top(s)] != []
    ensures var r := Dispatch(s);
            && |r.procs| == NPROC && r.initproc == s.initproc && r.nextpid == s.nextpid && r.free == s.free
            && s.procs[Pick(s)].state == RUNNABLE
            && r.procs[Pick(s)] == s.procs[Pick(s)].(state := RUNNING)
            && forall p: nat | p < NPROC && p != Pick(s) :: r.procs[p] == s.procs[p].(priority := r.procs[p].priority)
  {
    PoppedLists(s);
  }

  // ----- runs

  /** One critical section under ptable.lock; q is the process whose code it is. */
  datatype Event =
    | DoYield(q: nat)
    | DoSleep(q: nat, ch: Chan)
    | DoTidy(q: nat)
    | DoWakeup(q: nat, a: nat)
    | DoInterrupt(a: nat)
    | DoKill(q: nat, pid: nat)
    | DoExit(q: nat)
    | DoWait(q: nat)
    | DoAlloc(q: nat)
    | DoAllocFail(q: nat, p: nat)
    | DoForkFail(q: nat, p: nat)
    | DoFork(q: nat, p: nat)
    | DoSetPriority(q: nat, pid: nat, prio: nat)
    | DoDispatch

  ghost predicate Is(s: State, p: nat, st: ProcState)
    requires Wf(s)
  {
    p < NPROC && s.procs[p].state == st
  }

  /** Who may take which step: only the scheduler and interrupts act without a running process. exit
      is not for init (that panics), setPriority only where it does not fault. */
  ghost predicate Enabled(s: State, e: Event)
    requires Wf(s)
  {
    match e
    case DoInterrupt(_) => true
    case DoDispatch => s.ready[Top(s)] != []
    case DoSleep(q, ch) => Is(s, q, RUNNING) && (ch.Device? || ch.Other?)
    case DoExit(q) => Is(s, q, RUNNING) && q != s.initproc
    case DoAllocFail(q, p) => Is(s, q, RUNNING) && Is(s, p, EMBRYO)
    case DoForkFail(q, p) => Is(s, q, RUNNING) && Is(s, p, EMBRYO)
    case DoFork(q, p) => Is(s, q, RUNNING) && Is(s, p, EMBRYO)
    case DoSetPriority(q, pid, prio) => Is(s, q, RUNNING) && prio < SIZE && !SetPriorityFaults(s, pid, prio)
    case _ => Is(s, e.q, RUNNING)
  }

  ghost function Next(s: State, e: Event): (r: State)
    requires Wf(s) && Enabled(s, e)
  {
    match e
    case DoYield(q) => Wake(s, q)
    case DoSleep(q, ch) => Sleep(s, q, ch)
    case DoTidy(q) => s.(procs := s.procs[q := s.procs[q].(chan := NoChan)])
    case DoWakeup(_, a) => WakeUpTo(s, Other(a), NPROC)
    case DoInterrupt(a) => WakeUpTo(s, Device(a), NPROC)
    case DoKill(_, pid) => Kill(s, pid)
    case DoExit(q) => Exit(s, q)
    case DoWait(q) => Wait(s, q)
    case DoAlloc(_) => Alloc(s)
    case DoAllocFail(_, p) => AllocFail(s, p)
    case DoForkFail(_, p) => ForkFail(s, p)
    case DoFork(q, p) => ForkDone(s, q, p)
    case DoSetPriority(_, pid, prio) => SetPriority(s, pid, prio)
    case DoDispatch => Dispatch(s)
  }

  lemma NextInv(s: State, e: Event)
    requires Inv(s) && Enabled(s, e)
    ensures Inv(Next(s, e))
  {
    hide Lists, FreeOk, NoLostChild, Family, Pids, Wake, Sleep, Kill, Exit, Wait, Alloc, AllocFail, ForkFail, ForkDone;
    hide SetPriority, Dispatch, WakeUpTo;
    match e
    case DoYield(q) => WakeInv(s, q);
    case DoSleep(q, ch) => SleepInv(s, q, ch);
    case DoTidy(q) => QuietInv(s, q, s.procs[q].(chan := NoChan));
    case DoWakeup(_, a) => WakeupInv(s, Other(a));
    case DoInterrupt(a) => WakeupInv(s, Device(a));
    case DoKill(_, pid) => KillInv(s, pid);
    case DoExit(q) => ExitInv(s, q);
    case DoWait(q) => WaitInv(s, q);
    case DoAlloc(_) => AllocInv(s);
    case DoAllocFail(_, p) => FailInv(s, p);
    case DoForkFail(_, p) => FailInv(s, p);
    case DoFork(q, p) => ForkDoneInv(s, q, p);
    case DoSetPriority(_, pid, prio) => SetPriorityInv(s, pid, prio);
    case DoDispatch => DispatchInv(s);
  }

  ghost predicate Run(s: State, es: seq<Event>)
    decreases |es|
  {
    Wf(s) && (es == [] || (Enabled(s, es[0]) && Run(Next(s, es[0]), es[1..])))
  }

  ghost function Final(s: State, es: seq<Event>): (r: State)
    requires Run(s, es)
    decreases |es|
  {
    if es == [] then s else Final(Next(s, es[0]), es[1..])
  }

  /** After userinit: init, in the last slot, is queued; the other slots are on the free list. */
  ghost predicate Booted(s: State) {
    && Wf(s) && s.initproc == NPROC - 1 && s.nextpid == 2 && s.timeToReset == COUNT
    && (forall p: nat | p < NPROC && p != s.initproc :: s.procs[p] == Proc(UNUSED, 0, NIL, NoChan, false, DEFAULTPRIO))
    && s.procs[s.initproc] == Proc(RUNNABLE, 1, NIL, NoChan, false, DEFAULTPRIO)
    && s.ready == [[], [s.initproc], []]
    && Distinct(s.free) && forall p: nat :: p in s.free <==> p < NPROC && p != s.initproc
  }

  lemma BootedInv(s: State)
    requires Booted(s)
    ensures Inv(s)
  {
  }

  /** Every state with the lock free, in every run since start-up, keeps the list discipline and
      has no parent asleep on a zombie child. */
  lemma {:induction false} RunInv(s: State, es: seq<Event>)
    requires Inv(s) && Run(s, es)
    ensures Inv(Final(s, es))
    decreases |es|
  {
    hide Lists, FreeOk, NoLostChild, Family, Pids, Next, Enabled;
    if es != [] {
      NextInv(s, es[0]);
      RunInv(Next(s, es[0]), es[1..]);
    }
  }
}
