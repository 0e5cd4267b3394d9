/** Whether a HIGH process that sleeps in wait can be woken before q is dispatched and the lists are reset
    (exit, wait, kill and fork in proc.c): by an exit, for init also by two exits or by a fork and two exits.
    Without a chance there is none later. */
module Chances {

  import opened ProcSpec
  import opened Fairness
  import opened Starvation
  import opened Turns
  import ForkBudget

  // ----- steps of processes

  /** What a step of some process can do to slot x. */
  ghost predicate Slot(s: State, t: State, x: nat)
    requires Wf(s) && Wf(t) && x < NPROC
  {
    var a, b := s.procs[x], t.procs[x];
    && (b.state == RUNNING ==> a.state == RUNNING)
    && (a.state != RUNNING && !(a.state == EMBRYO && b.state == RUNNABLE) ==> Traces(s, t, x))
    && (a.state == EMBRYO && b.state == RUNNABLE ==> Is(s, b.parent, RUNNING) && b.priority == DEFAULTPRIO)
    && (b.parent == a.parent || a.state == EMBRYO || b.state == UNUSED
        || (b.parent == s.initproc && a.parent != s.initproc && Is(s, a.parent, RUNNING)))
    && (b.state == ZOMBIE ==>
          a.state == ZOMBIE || (a.state == RUNNING && x != s.initproc && b.parent == a.parent))
  }

  ghost predicate Slots(s: State, t: State)
    requires Wf(s) && Wf(t)
  {
    t.initproc == s.initproc && forall x: nat | x < NPROC :: Slot(s, t, x)
  }

  lemma OneSlot(s: State, t: State, p: nat)
    requires Wf(s) && Wf(t) && p < NPROC && t.procs == s.procs[p := t.procs[p]] && t.initproc == s.initproc &&
             Slot(s, t, p)
    ensures Slots(s, t)
  {
    forall x: nat | x < NPROC ensures Slot(s, t, x) {
    }
  }

  lemma WakeUpSlots(s: State, ch: Chan)
    requires Wf(s)
    ensures Slots(s, WakeUpTo(s, ch, NPROC))
  {
    WakeUpToProcs(s, ch, NPROC);
    hide WakeUpTo;
  }

  lemma ExitSlots(s: State, q: nat)
    requires Inv(s) && q < NPROC && s.procs[q].state == RUNNING && q != s.initproc
    ensures Wf(Exit(s, q)) && Slots(s, Exit(s, q))
  {
    hide Lists, NoLostChild, Pids, FreeOk, Exit;
    ExitInv(s, q);
    InvShape(Exit(s, q));
    ExitProcs(s, q);
  }

  /** kill marks one process, and wakes it. */
  lemma KillProcs(s: State, pid: nat)
    requires Inv(s)
    ensures Inv(Kill(s, pid)) && Kill(s, pid).initproc == s.initproc
    ensures var p := FirstPid(s.procs, pid, 0);
            if p == NIL then Kill(s, pid) == s
            else
              p < NPROC && Kill(s, pid).procs
                           == s.procs[p := s.procs[p].(killed := true, state := if s.procs[p].state == SLEEPING then
                             RUNNABLE else s.procs[p].state)]
  {
    hide Inv, FirstPid, Wf;
    KillInv(s, pid);
    InvShape(s);
  }

  lemma KillSlots(s: State, pid: nat)
    requires Inv(s)
    ensures Wf(Kill(s, pid)) && Slots(s, Kill(s, pid))
  {
    hide Inv, FirstPid, Kill, Wf, Slots, Traces;
    InvShape(s);
    KillProcs(s, pid);
    InvShape(Kill(s, pid));
    var p := FirstPid(s.procs, pid, 0);
    if p == NIL {
      SelfSlots(s);
    } else {
      KilledSlot(s, Kill(s, pid), p);
      OneSlot(s, Kill(s, pid), p);
    }
  }

  lemma KilledSlot(s: State, t: State, p: nat)
    requires Wf(s) && Wf(t) && p < NPROC && t.initproc == s.initproc
    requires t.procs[p] == s.procs[p].(killed := true, state := if s.procs[p].state == SLEEPING then RUNNABLE
                                                                else s.procs[p].state)
    ensures Slot(s, t, p)
  {
  }

  lemma SelfSlots(s: State)
    requires Wf(s)
    ensures Slots(s, s)
  {
  }

  lemma WaitSlots(s: State, q: nat)
    requires Inv(s) && q < NPROC && s.procs[q].state == RUNNING
    ensures Wf(Wait(s, q)) && Slots(s, Wait(s, q))
  {
    hide Inv, HasKids, Wf, Slots, Slot, FirstZombie;
    InvShape(s);
    WaitInv(s, q);
    InvShape(Wait(s, q));
    var z := FirstZombie(s.procs, q, 0);
    var x, t := if z < NPROC then z else q, Wait(s, q);
    WaitedSlot(s, t, x);
    OneSlot(s, t, x);
  }

  lemma WaitedSlot(s: State, t: State, x: nat)
    requires Wf(s) && Wf(t) && x < NPROC && t.initproc == s.initproc
    requires || t.procs[x] == s.procs[x]
             || (s.procs[x].state == ZOMBIE && t.procs[x].state == UNUSED)
             || (s.procs[x].state == RUNNING && t.procs[x].state == SLEEPING && t.procs[x].parent == s.procs[x].parent)
    ensures Slot(s, t, x)
  {
  }

  lemma AllocSlots(s: State)
    requires Inv(s)
    ensures Wf(Alloc(s)) && Slots(s, Alloc(s))
  {
    AllocInv(s);
    InvShape(Alloc(s));
    hide Lists, NoLostChild, Family, Pids;
    if s.free != [] {
      assert s.free[0] in s.free;
      OneSlot(s, Alloc(s), s.free[0]);
    }
  }

  lemma PlainSlots(s: State, e: Event)
    requires Inv(s) && Enabled(s, e)
    requires e.DoYield? || e.DoSleep? || e.DoTidy? || e.DoAllocFail? || e.DoForkFail? || e.DoFork?
    ensures Wf(Next(s, e)) && Slots(s, Next(s, e))
  {
    hide Inv;
    InvShape(s);
    NextInv(s, e);
    InvShape(Next(s, e));
    match e
    case DoYield(q) => OneSlot(s, Next(s, e), q);
    case DoSleep(q, _) => OneSlot(s, Next(s, e), q);
    case DoTidy(q) => OneSlot(s, Next(s, e), q);
    case DoAllocFail(_, p) => OneSlot(s, Next(s, e), p);
    case DoForkFail(_, p) => OneSlot(s, Next(s, e), p);
    case DoFork(_, p) => OneSlot(s, Next(s, e), p);
  }

  lemma StepSlots(s: State, e: Event)
    requires Inv(s) && Enabled(s, e) && !e.DoDispatch? && !e.DoSetPriority?
    ensures Inv(Next(s, e)) && Slots(s, Next(s, e))
  {
    InvShape(s);
    hide Inv, Slots, WakeUpTo, Exit, Kill, Wait, Alloc, Sleep, AllocFail, ForkFail, ForkDone, Wake;
    NextInv(s, e);
    match e
    case DoWakeup(_, a) => WakeUpSlots(s, Other(a));
    case DoInterrupt(a) => WakeUpSlots(s, Device(a));
    case DoKill(_, pid) => KillSlots(s, pid);
    case DoExit(q) => ExitSlots(s, q);
    case DoWait(q) => WaitSlots(s, q);
    case DoAlloc(_) => AllocSlots(s);
    case _ => PlainSlots(s, e);
  }

  // ----- ways to wake a sleeper in wait

  /** h sleeps in wait. */
  ghost predicate InWait(s: State, h: nat)
    requires Wf(s)
  {
    Is(s, h, SLEEPING) && s.procs[h].chan == OfProc(h)
  }

  /** The exits of x and y wake h: that of x alone, or, for init, those of a parent and its child. */
  ghost predicate Tie(s: State, h: nat, x: nat, y: nat)
    requires Wf(s) && x < NPROC && y < NPROC
  {
    if x == y then Rouses(s, h, x) else h == s.initproc && s.procs[y].parent == x
  }

  ghost predicate Pair(s: State, q: nat, h: nat, x: nat, y: nat)
    requires Wf(s) && Listed(s, q)
  {
    Both(s, q, x, y) && Tie(s, h, x, y) && x != s.initproc && y != s.initproc && x != h && y != h
  }

  /** Somebody who runs can fork a child, which is queued ahead of q and in time. */
  ghost predicate MayFork(s: State, q: nat)
    requires Wf(s) && Listed(s, q)
  {
    ForkBudget.Spare(s) > 0 && s.procs[q].priority == LOW && Ahead(s, LOW) + 1 < s.timeToReset
  }

  /** If somebody runs, h can be woken before q is dispatched and the lists are reset. */
  ghost predicate Way(s: State, q: nat, h: nat)
    requires Wf(s) && Listed(s, q)
  {
    (exists x: nat, y: nat :: Pair(s, q, h, x, y)) || (h == s.initproc && MayFork(s, q))
  }

  lemma WithRunner(s: State, q: nat, x: nat, r: nat)
    requires Inv(s) && Is(s, q, RUNNABLE) && Listed(s, q) && Both(s, q, x, x) && Is(s, r, RUNNING)
    ensures Both(s, q, r, x) && Both(s, q, x, r)
  {
    hide Inv, Turn, Ahead;
    InvShape(s);
    IsListed(s, r);
  }

  /** t is a step after s, as far as q is concerned. */
  ghost predicate Follows(s: State, t: State, q: nat) {
    && Inv(s) && Inv(t) && Is(s, q, RUNNABLE) && Is(t, q, RUNNABLE) && s.procs[q].priority != HIGH
    && Listed(s, q) && Listed(t, q) && Before(s, t, q) && Slots(s, t) && ForkBudget.Spare(t) <= ForkBudget.Spare(s)
  }

  lemma TieBack(s: State, t: State, q: nat, h: nat, x: nat, y: nat) returns (u: nat, v: nat)
    requires Follows(s, t, q) && Pair(t, q, h, x, y) && Both(s, q, x, y) && x != h && y != h
    ensures Pair(s, q, h, u, v)
  {
    hide Inv, Both, Before, Traces;
    InvShape(s);
    InvShape(t);
    BothFacts(s, q, x, y);
    BothFacts(t, q, x, y);
    u, v := x, y;
    NotOwnParent(s);
    assert Slot(s, t, x) && Slot(s, t, y);
    if x == y && !Rouses(s, h, x) {
      if t.procs[x].parent == h {
        u := s.procs[x].parent;
        WithRunner(s, q, x, u);
      } else {
        var z: nat :| Leaves(t, x, z);
        assert Slot(s, t, z);
        assert !Leaves(s, x, z);
        v := z;
        WithRunner(s, q, x, v);
      }
    }
  }

  lemma NotOwnParent(s: State)
    requires Inv(s)
    ensures forall c: nat | c < NPROC :: s.procs[c].parent != c
    ensures s.procs[s.initproc].parent == NIL
  {
    hide Lists, FreeOk, NoLostChild, Pids;
  }

  /** A child born in this step is on time only if there was time to fork. */
  lemma BornInTime(s: State, t: State, q: nat, x: nat)
    requires Follows(s, t, q) && OnTime(t, q, x) && Rank(t, x) < t.timeToReset
    requires Is(s, x, EMBRYO)
    ensures MayFork(s, q) && Is(s, t.procs[x].parent, RUNNING)
  {
    hide Inv, Turn, Ahead, Spot;
    InvShape(s);
    InvShape(t);
    IsListed(s, x);
    IsListed(t, x);
    assert Slot(s, t, x);
    SomeSpare(s, x);
    NotQueued(s, x, DEFAULTPRIO);
    JoinedBack(s, t, q, x);
  }

  lemma NotQueued(s: State, x: nat, i: nat)
    requires Inv(s) && i < SIZE && !Is(s, x, RUNNABLE)
    ensures x !in s.ready[i]
  {
    hide NoLostChild, Family, Pids, FreeOk;
  }

  lemma SomeSpare(s: State, x: nat)
    requires Wf(s) && Is(s, x, EMBRYO)
    ensures ForkBudget.Spare(s) > 0
  {
    assert x in ForkBudget.Embryos(s);
  }

  /** No step opens a way that was not there. */
  lemma WayBack(s: State, t: State, q: nat, h: nat)
    requires Follows(s, t, q) && !Is(s, h, RUNNING) && Way(t, q, h)
    ensures Way(s, q, h)
  {
    hide Inv, Turn, Ahead, Spot, OnTime, Rank, Lag;
    InvShape(s);
    InvShape(t);
    SameInit(s, t);
    if x: nat, y: nat :| Pair(t, q, h, x, y) {
      BothFacts(t, q, x, y);
      assert Slot(s, t, x) && Slot(s, t, y);
      if Is(s, x, EMBRYO) {
        BornInTime(s, t, q, x);
      } else if Is(s, y, EMBRYO) {
        BornInTime(s, t, q, y);
      } else {
        BothBack(s, t, q, x, y);
        var u, v := TieBack(s, t, q, h, x, y);
      }
    } else {
      BeforeAhead(s, t, q, LOW);
    }
  }

  lemma SameInit(s: State, t: State)
    requires Wf(s) && Wf(t) && Slots(s, t)
    ensures t.initproc == s.initproc
  {
  }

  lemma WayDispatch(s: State, q: nat, h: nat)
    requires Inv(s) && s.ready[Top(s)] != [] && s.timeToReset > 1 && Is(s, q, RUNNABLE) && Pick(s) != q
    requires Listed(s, q) && Inv(Dispatch(s)) && Listed(Dispatch(s), q) && Way(Dispatch(s), q, h)
    ensures Way(s, q, h)
  {
    hide Inv, Dispatch, Both, Top, Ahead;
    InvShape(s);
    var t := Dispatch(s);
    InvShape(t);
    PlainDispatch(s);
    if x: nat, y: nat :| Pair(t, q, h, x, y) {
      BothFacts(t, q, x, y);
      BothDispatch(s, q, x, y);
      if x == y && s.procs[x].parent != h {
        var z: nat :| Leaves(t, x, z);
        assert Leaves(s, x, z);
      }
      assert Pair(s, q, h, x, y);
    } else {
      ForkBudget.DispatchSpare(s);
      ForkBudget.SameSpare(s, t);
      DispatchAhead(s, DEFAULTPRIO);
    }
  }

  // ----- whether somebody gets the chance

  /** The next dispatch is not of q, and after it there is a way. */
  ghost predicate Opens(s: State, q: nat, h: nat)
    requires Inv(s) && Is(s, q, RUNNABLE)
  {
    QueueHead(s, q);
    s.timeToReset > 1 && Pick(s) != q && (DispatchTurn(s, q); Way(Dispatch(s), q, h))
  }

  ghost predicate OpensAfter(s: State, q: nat, h: nat, a: nat)
    requires Inv(s) && Is(s, q, RUNNABLE)
  {
    InterruptProcs(s, a);
    Opens(Interrupt(s, a), q, h)
  }

  /** h can be woken before q is dispatched and the lists are reset. While nobody runs, that is after the
      next dispatch, perhaps with an interrupt before it. */
  ghost predicate Chance(s: State, q: nat, h: nat)
    requires Inv(s) && Is(s, q, RUNNABLE)
  {
    IsListed(s, q);
    if Busy(s) then Way(s, q, h) else Opens(s, q, h) || exists a: nat :: OpensAfter(s, q, h, a)
  }

  lemma StepFollows(s: State, e: Event, q: nat)
    requires Inv(s) && Enabled(s, e) && !e.DoDispatch? && !e.DoSetPriority? && Is(s, q, RUNNABLE)
    requires s.procs[q].priority != HIGH
    ensures Follows(s, Next(s, e), q)
  {
    hide Inv, Next, Enabled, Slots, Before, ForkBudget.Spare;
    InvShape(s);
    StepGrows(s, e);
    StepSlots(s, e);
    InvShape(Next(s, e));
    ForkBudget.StepSpends(s, e);
    IsListed(s, q);
    IsListed(Next(s, e), q);
    LongerBefore(s, Next(s, e), q);
  }

  lemma InterruptFollows(s: State, a: nat, q: nat)
    requires Inv(s) && Is(s, q, RUNNABLE) && s.procs[q].priority != HIGH
    ensures Follows(s, Interrupt(s, a), q)
  {
    hide Inv, Follows, WakeUpTo;
    InvShape(s);
    StepFollows(s, DoInterrupt(a), q);
  }

  /** A chance is a way. */
  lemma ChanceWay(s: State, q: nat, h: nat)
    requires Inv(s) && Is(s, q, RUNNABLE) && s.procs[q].priority != HIGH && !Is(s, h, RUNNING) && Chance(s, q, h)
    ensures Listed(s, q) && Way(s, q, h)
  {
    hide Inv, Way, Dispatch, Top, Interrupt, Busy;
    InvShape(s);
    IsListed(s, q);
    if !Busy(s) {
      if Opens(s, q, h) {
        OpenWay(s, q, h);
      } else {
        var a: nat :| OpensAfter(s, q, h, a);
        var t := Interrupt(s, a);
        InterruptProcs(s, a);
        OpenWay(t, q, h);
        InterruptFollows(s, a, q);
        WayBack(s, t, q, h);
      }
    }
  }

  lemma OpenWay(s: State, q: nat, h: nat)
    requires Inv(s) && Is(s, q, RUNNABLE) && Opens(s, q, h)
    ensures Listed(s, q) && Way(s, q, h)
  {
    hide Inv, Way, Dispatch, Top;
    InvShape(s);
    IsListed(s, q);
    QueueHead(s, q);
    DispatchTurn(s, q);
    WayDispatch(s, q, h);
  }

  /** t with some of its sleepers woken. */
  ghost predicate Woken(t: State, u: State) {
    && |t.procs| == |u.procs| == NPROC && u.free == t.free && u.initproc == t.initproc
    && forall x: nat | x < NPROC ::
         u.procs[x] == t.procs[x] || (t.procs[x].state == SLEEPING && u.procs[x] == t.procs[x].(state := RUNNABLE))
  }

  /** The same process is dispatched in both. */
  lemma DispatchSlots(t: State, u: State)
    requires Inv(t) && Inv(u) && Woken(t, u) && t.ready[Top(t)] != [] && u.ready[Top(u)] != [] && Pick(t) == Pick(u)
    requires t.timeToReset == u.timeToReset > 1
    ensures Inv(Dispatch(t)) && Inv(Dispatch(u)) && Slots(Dispatch(t), Dispatch(u))
    ensures ForkBudget.Spare(Dispatch(u)) == ForkBudget.Spare(Dispatch(t))
  {
    hide Inv, Dispatch, Top, ForkBudget.Spare;
    InvShape(t);
    InvShape(u);
    PlainDispatch(t);
    PlainDispatch(u);
    InvShape(Dispatch(t));
    InvShape(Dispatch(u));
    forall x: nat | x < NPROC ensures Slot(Dispatch(t), Dispatch(u), x) {
    }
    ForkBudget.SameSpare(Dispatch(t), Dispatch(u));
  }

  /** With the same process at the head and no more ahead of q, what is open after an interrupt was so before. */
  lemma SameHead(t: State, u: State, q: nat, h: nat)
    requires Inv(t) && Inv(u) && Woken(t, u) && Is(t, q, RUNNABLE) && Is(u, q, RUNNABLE)
    requires t.procs[q].priority != HIGH && !Is(t, h, RUNNING) && t.ready[Top(t)] != [] && u.ready[Top(u)] != []
    requires Pick(t) == Pick(u) != h && Pick(t) != q && t.timeToReset == u.timeToReset > 1 && Opens(u, q, h)
    requires Inv(Dispatch(t)) && Inv(Dispatch(u)) && Listed(Dispatch(t), q) && Before(Dispatch(t), Dispatch(u), q)
    ensures Opens(t, q, h)
  {
    hide Inv, Dispatch, Top, Way, Follows, Slots, ForkBudget.Spare, Before;
    InvShape(t);
    InvShape(u);
    DispatchSlots(t, u);
    DispatchTurn(t, q);
    DispatchTurn(u, q);
    PlainDispatch(t);
    PlainDispatch(u);
    FollowsFrom(Dispatch(t), Dispatch(u), q);
    WayBack(Dispatch(t), Dispatch(u), q, h);
  }

  lemma SamePop(t: State, u: State, q: nat)
    requires Inv(t) && Inv(u) && Longer(t, u) && Is(t, q, RUNNABLE) && Is(u, q, RUNNABLE)
    requires u.procs[q] == t.procs[q] && t.timeToReset > 1 && t.ready[Top(t)] != [] && u.ready[Top(u)] != []
    requires Pick(t) == Pick(u) != q && u.procs[Pick(u)] == t.procs[Pick(u)]
    ensures Inv(Dispatch(t)) && Inv(Dispatch(u)) && Listed(Dispatch(t), q) && Before(Dispatch(t), Dispatch(u), q)
  {
    hide Inv, Dispatch, Top, Spot, Turn;
    InvShape(t);
    InvShape(u);
    PlainDispatch(t);
    PlainDispatch(u);
    InvShape(Dispatch(t));
    InvShape(Dispatch(u));
    DispatchTurn(t, q);
    assert Longer(Dispatch(t), Dispatch(u)) by {
      forall i: nat | i < SIZE ensures Dispatch(t).ready[i] <= Dispatch(u).ready[i] {
        assert t.ready[i] <= u.ready[i];
      }
    }
    LongerBefore(Dispatch(t), Dispatch(u), q);
  }

  lemma FollowsFrom(s: State, t: State, q: nat)
    requires Inv(s) && Inv(t) && Is(s, q, RUNNABLE) && Is(t, q, RUNNABLE) && s.procs[q].priority != HIGH
    requires Listed(s, q) && Listed(t, q) && Before(s, t, q) && Slots(s, t) &&
             ForkBudget.Spare(t) <= ForkBudget.Spare(s)
    ensures Follows(s, t, q)
  {
  }

  lemma InterruptWakes(s: State, a: nat)
    requires Inv(s)
    ensures Inv(Interrupt(s, a)) && Woken(s, Interrupt(s, a)) && Interrupt(s, a).timeToReset == s.timeToReset
  {
    hide Inv, WakeUpTo;
    InvShape(s);
    InterruptProcs(s, a);
    WakeUpToProcs(s, Device(a), NPROC);
  }

  /** a wakes the same, before and after b. */
  lemma WokenTwice(s: State, a: nat, b: nat)
    requires Inv(s)
    ensures Inv(Interrupt(s, b)) && Woken(Interrupt(s, a), Interrupt(Interrupt(s, b), a))
  {
    hide Inv, Interrupt;
    InvShape(s);
    InterruptProcs(s, b);
    InterruptProcs(s, a);
    InterruptProcs(Interrupt(s, b), a);
    InterruptWakes(s, a);
    InterruptWakes(s, b);
    InterruptWakes(Interrupt(s, b), a);
  }

  /** Nobody HIGH sleeps on a device. */
  ghost predicate OffDevices(s: State)
    requires Wf(s)
  {
    forall x: nat | Is(s, x, SLEEPING) && s.procs[x].priority == HIGH :: !s.procs[x].chan.Device?
  }

  lemma NoHighSleepers(s: State, a: nat)
    requires Wf(s) && OffDevices(s)
    ensures Sleepers(s, a, HIGH, NPROC) == []
  {
    hide Sleepers;
    var l := Sleepers(s, a, HIGH, NPROC);
    assert l == [] || l[0] in l;
    InSleepers(s, a, HIGH, NPROC, if l == [] then 0 else l[0]);
  }

  /** The second interrupt changes the head: then q is LOW, and the second alone has the same effect ahead of it. */
  lemma NewHead(s: State, t: State, u: State, v: State, q: nat, a: nat, b: nat)
    requires Wf(s) && Wf(t) && Parted(s, t, u, v, a, b) && Sleepers(s, a, HIGH, NPROC) == []
    requires Listed(s, q) && s.procs[q].priority != HIGH && t.ready[Top(t)] != [] && u.ready[Top(u)] != []
    requires Pick(t) != Pick(u)
    ensures s.procs[q].priority == LOW && a != b && Top(u) == Top(v) == DEFAULTPRIO
    ensures v.ready[HIGH] == u.ready[HIGH] == [] && v.ready[DEFAULTPRIO] == u.ready[DEFAULTPRIO] != []
    ensures s.ready[LOW] <= v.ready[LOW] && s.ready[LOW] <= u.ready[LOW]
  {
    hide Sleepers;
    assert forall i: nat | i < SIZE :: t.ready[i] <= u.ready[i];
    assert q in s.ready[s.procs[q].priority];
    assert t.ready[0] == s.ready[0] + Sleepers(s, b, 0, NPROC) && t.ready[1] == s.ready[1] + Sleepers(s, b, 1, NPROC);
  }

  lemma OtherPop(s: State, u: State, v: State, q: nat)
    requires Inv(u) && Inv(v) && Wf(s) && Listed(s, q) && s.procs[q].priority == LOW
    requires u.procs[q] == v.procs[q] == s.procs[q] && s.procs[q].state == RUNNABLE
    requires Top(u) == Top(v) == DEFAULTPRIO && v.ready[HIGH] == u.ready[HIGH] == []
    requires v.ready[DEFAULTPRIO] == u.ready[DEFAULTPRIO] != [] && s.ready[LOW] <= v.ready[LOW] &&
             s.ready[LOW] <= u.ready[LOW]
    requires u.timeToReset == v.timeToReset > 1
    ensures Pick(u) == Pick(v) != q
    ensures Inv(Dispatch(v)) && Inv(Dispatch(u)) && Listed(Dispatch(v), q) && Before(Dispatch(v), Dispatch(u), q)
  {
    hide Inv, Dispatch, Top, Spot;
    InvShape(u);
    InvShape(v);
    PlainDispatch(u);
    PlainDispatch(v);
    InvShape(Dispatch(u));
    InvShape(Dispatch(v));
    SpotPrefix(s.ready[LOW], v.ready[LOW], q);
    assert Dispatch(v).ready[LOW] == v.ready[LOW] && Dispatch(u).ready[LOW] == u.ready[LOW];
    assert Dispatch(v).ready[0] <= Dispatch(u).ready[0] && Dispatch(v).ready[1] <= Dispatch(u).ready[1];
  }

  /** Two interrupts open no more than one of them. */
  lemma TwoInterrupts(s: State, q: nat, h: nat, a: nat, b: nat)
    requires Inv(s) && Is(s, q, RUNNABLE) && s.procs[q].priority != HIGH && OffDevices(s)
    requires Is(s, h, SLEEPING) && !s.procs[h].chan.Device? && h != q
    requires Inv(Interrupt(s, b)) && Is(Interrupt(s, b), q, RUNNABLE) && OpensAfter(Interrupt(s, b), q, h, a)
    ensures OpensAfter(s, q, h, a) || OpensAfter(s, q, h, b)
  {
    hide Inv, Interrupt, Opens, Parted, Top, Dispatch, Before;
    InvShape(s);
    var t, v := Interrupt(s, b), Interrupt(s, a);
    var u := Interrupt(t, a);
    InterruptWakes(s, a);
    InterruptWakes(s, b);
    InterruptWakes(t, a);
    InterruptProcs(s, a);
    InterruptProcs(s, b);
    InterruptProcs(t, a);
    PartedLists(s, a, b);
    IsListed(s, q);
    QueueHead(t, q);
    QueueHead(u, q);
    OpenFacts(u, q, h);
    if Pick(t) == Pick(u) {
      InterruptLists(t, a);
      HeadRunnable(t);
      SamePop(t, u, q);
      SameHead(t, u, q, h);
    } else {
      NoHighSleepers(s, a);
      NewHead(s, t, u, v, q, a, b);
      WokenTwice(s, a, b);
      OtherPop(s, u, v, q);
      HeadRunnable(v);
      SameHead(v, u, q, h);
    }
  }

  lemma OpenFacts(s: State, q: nat, h: nat)
    requires Inv(s) && Is(s, q, RUNNABLE) && Opens(s, q, h)
    ensures s.ready[Top(s)] != [] && s.timeToReset > 1 && Pick(s) != q
  {
    hide Inv;
    QueueHead(s, q);
  }

  lemma HeadRunnable(s: State)
    requires Inv(s) && s.ready[Top(s)] != []
    ensures Is(s, Pick(s), RUNNABLE)
  {
    hide NoLostChild, Family, Pids, FreeOk;
    assert Pick(s) in s.ready[Top(s)];
  }

  lemma NotBusy(s: State)
    requires Wf(s) && !Busy(s)
    ensures Still(s)
  {
    forall p: nat | p < NPROC ensures s.procs[p].state != RUNNING {
      assert !Is(s, p, RUNNING);
    }
  }

  /** No step gives a chance that was not there. */
  lemma StepChance(s: State, e: Event, q: nat, h: nat)
    requires Inv(s) && Enabled(s, e) && !e.DoDispatch? && !e.DoSetPriority? && Is(s, q, RUNNABLE)
    requires s.procs[q].priority != HIGH && OffDevices(s) && InWait(s, h)
    requires Inv(Next(s, e)) && Is(Next(s, e), q, RUNNABLE) && Chance(Next(s, e), q, h) && !Is(Next(s, e), h, RUNNING)
    ensures Chance(s, q, h)
  {
    hide Inv, Enabled, Way, Opens, WakeUpTo, Follows;
    InvShape(s);
    IsListed(s, q);
    var t := Next(s, e);
    if Busy(s) {
      StepFollows(s, e, q);
      FollowsPriority(s, t, q);
      ChanceWay(t, q, h);
      WayBack(s, t, q, h);
    } else {
      NotBusy(s);
      StillInterrupt(s, e);
      InterruptProcs(s, e.a);
      if a: nat :| OpensAfter(t, q, h, a) {
        TwoInterrupts(s, q, h, a, e.a);
      } else {
        assert OpensAfter(s, q, h, e.a);
      }
    }
  }

  lemma FollowsPriority(s: State, t: State, q: nat)
    requires Follows(s, t, q)
    ensures Wf(s) && Wf(t) && q < NPROC && t.procs[q].priority == s.procs[q].priority
  {
    hide Spot;
  }

  lemma StillInterrupt(s: State, e: Event)
    requires Wf(s) && Still(s) && Enabled(s, e) && !e.DoDispatch?
    ensures e.DoInterrupt? && Next(s, e) == Interrupt(s, e.a)
  {
    StillEvents(s, e);
  }

  lemma DispatchChance(s: State, q: nat, h: nat)
    requires Inv(s) && s.ready[Top(s)] != [] && s.timeToReset > 1 && Is(s, q, RUNNABLE) && Pick(s) != q
    requires Inv(Dispatch(s)) && Is(Dispatch(s), q, RUNNABLE) && Chance(Dispatch(s), q, h)
    ensures Chance(s, q, h)
  {
    hide Inv, Way, Dispatch, Top;
    InvShape(s);
    IsListed(s, q);
    IsListed(Dispatch(s), q);
    RankDispatch(s, q, q);
    if Busy(s) {
      WayDispatch(s, q, h);
    }
  }

  // ----- every state since start-up is settled

  /** A sleeper that is where it should be. */
  ghost predicate Proper(t: State, x: nat)
    requires Wf(t)
  {
    Is(t, x, SLEEPING) ==>
      !t.procs[x].killed && (t.procs[x].chan.Device? || t.procs[x].chan.Other? || t.procs[x].chan == OfProc(x))
  }

  lemma FellAsleep(s: State, e: Event, x: nat)
    requires Inv(s) && Enabled(s, e) && !e.DoDispatch? && !e.DoSetPriority? && Behaves(s, e) && Is(s, x, RUNNING)
    ensures Wf(Next(s, e)) && Proper(Next(s, e), x)
  {
    InvShape(s);
    NextInv(s, e);
    InvShape(Next(s, e));
    hide Inv, Proper, WakeUpTo, Exit, Kill, Wait, Alloc, Sleep, AllocFail, ForkFail, ForkDone, Wake;
    match e
    case DoExit(q) => ExitRunning(s, q, x);
    case DoWakeup(_, a) => WakeupRunning(s, Other(a), x);
    case DoInterrupt(a) => WakeupRunning(s, Device(a), x);
    case DoKill(_, pid) => KillRunning(s, pid, x);
    case DoAlloc(_) => AllocRunning(s, x);
    case DoWait(q) => WaitRunning(s, q, x);
    case _ => PlainRunning(s, e, x);
  }

  lemma WakeupRunning(s: State, ch: Chan, x: nat)
    requires Wf(s) && Is(s, x, RUNNING)
    ensures Proper(WakeUpTo(s, ch, NPROC), x)
  {
    WakeUpToProcs(s, ch, NPROC);
    hide WakeUpTo;
  }

  lemma KillRunning(s: State, pid: nat, x: nat)
    requires Inv(s) && Is(s, x, RUNNING)
    ensures Wf(Kill(s, pid)) && Proper(Kill(s, pid), x)
  {
    KillProcs(s, pid);
    InvShape(Kill(s, pid));
    hide Inv, Kill, FirstPid, Wf;
  }

  lemma AllocRunning(s: State, x: nat)
    requires Inv(s) && Is(s, x, RUNNING)
    ensures Wf(Alloc(s)) && Proper(Alloc(s), x)
  {
    AllocInv(s);
    hide Lists, NoLostChild, Family, Pids;
    if s.free != [] {
      assert s.free[0] in s.free;
    }
  }

  lemma WaitRunning(s: State, q: nat, x: nat)
    requires Inv(s) && Is(s, q, RUNNING) && Is(s, x, RUNNING)
    ensures Wf(Wait(s, q)) && Proper(Wait(s, q), x)
  {
    hide Inv, HasKids, Wf;
    WaitInv(s, q);
    InvShape(s);
    InvShape(Wait(s, q));
  }

  lemma PlainRunning(s: State, e: Event, x: nat)
    requires Inv(s) && Enabled(s, e) && Behaves(s, e) && Is(s, x, RUNNING)
    requires e.DoYield? || e.DoSleep? || e.DoTidy? || e.DoAllocFail? || e.DoForkFail? || e.DoFork?
    ensures Wf(Next(s, e)) && Proper(Next(s, e), x)
  {
    hide Inv, Wf;
    InvShape(s);
    NextInv(s, e);
    InvShape(Next(s, e));
  }

  lemma ExitRunning(s: State, q: nat, x: nat)
    requires Inv(s) && Is(s, q, RUNNING) && q != s.initproc && Is(s, x, RUNNING)
    ensures Wf(Exit(s, q)) && Proper(Exit(s, q), x)
  {
    hide Lists, NoLostChild, Pids, FreeOk, Exit;
    ExitInv(s, q);
    InvShape(Exit(s, q));
    ExitProcs(s, q);
  }

  lemma StepSettled(s: State, e: Event)
    requires Inv(s) && Settled(s) && Enabled(s, e) && !e.DoDispatch? && !e.DoSetPriority? && Behaves(s, e)
    ensures Inv(Next(s, e)) && Settled(Next(s, e))
  {
    StepSlots(s, e);
    InvShape(s);
    InvShape(Next(s, e));
    hide Inv, Next, Enabled, Behaves;
    var t := Next(s, e);
    forall x: nat | Is(t, x, SLEEPING) ensures Proper(t, x) {
      if Is(s, x, RUNNING) {
        FellAsleep(s, e, x);
      } else {
        assert Slot(s, t, x);
        assert Is(s, x, SLEEPING);
      }
    }
  }

  lemma DispatchSettled(s: State)
    requires Inv(s) && Settled(s) && s.ready[Top(s)] != []
    ensures Inv(Dispatch(s)) && Settled(Dispatch(s))
  {
    DispatchInv(s);
    DispatchProcs(s);
    InvShape(Dispatch(s));
    hide Inv, Dispatch;
    assert forall x: nat | Is(Dispatch(s), x, SLEEPING) :: Is(s, x, SLEEPING);
  }

  lemma PrioritySettled(s: State, e: Event)
    requires Inv(s) && Settled(s) && Enabled(s, e) && e.DoSetPriority?
    ensures Inv(Next(s, e)) && Settled(Next(s, e))
  {
    hide Inv, FirstPid, SetPriorityFaults, Wf;
    NextInv(s, e);
    InvShape(s);
    InvShape(Next(s, e));
    assert forall x: nat | Is(Next(s, e), x, SLEEPING) :: Is(s, x, SLEEPING);
  }

  /** Orderly runs stay settled. */
  lemma {:induction false} SettledRun(s: State, es: seq<Event>)
    requires Inv(s) && Settled(s) && Run(s, es) && Orderly(s, es)
    ensures Inv(Final(s, es)) && Settled(Final(s, es))
    decreases |es|
  {
    if es != [] {
      hide Inv, Next, Enabled, Settled, Behaves, Dispatch;
      if es[0].DoDispatch? {
        InvShape(s);
        NextDispatch(s, es[0]);
        DispatchEnabled(s, es[0]);
        DispatchSettled(s);
      } else if es[0].DoSetPriority? {
        PrioritySettled(s, es[0]);
      } else {
        StepSettled(s, es[0]);
      }
      SettledRun(Next(s, es[0]), es[1..]);
    }
  }

  lemma BootedSettled(s: State)
    requires Booted(s)
    ensures Inv(s) && Settled(s)
  {
    BootedInv(s);
  }

  // ----- a sleeper in wait stays asleep

  /** Without a zombie among its children, reparenting changes parents alone. */
  lemma {:induction false} ReparentQuiet(s: State, q: nat, n: nat)
    requires Wf(s) && n <= NPROC && q != s.initproc
    requires forall c: nat | c < NPROC && s.procs[c].parent == q :: s.procs[c].state != ZOMBIE
    ensures forall p: nat | p < NPROC ::
              && Reparent(s, q, n).procs[p] == s.procs[p].(parent := Reparent(s, q, n).procs[p].parent)
              && (Reparent(s, q, n).procs[p].parent == q ==> s.procs[p].parent == q)
  {
    if n > 0 {
      ReparentQuiet(s, q, n - 1);
    }
  }

  lemma ExitInWait(s: State, q: nat, h: nat)
    requires Inv(s) && Is(s, q, RUNNING) && q != s.initproc && InWait(s, h) && !Rouses(s, h, q)
    ensures Wf(Exit(s, q)) && InWait(Exit(s, q), h)
  {
    hide Lists, NoLostChild, Family, Pids, FreeOk, WakeUpTo, Reparent;
    ExitInv(s, q);
    InvShape(Exit(s, q));
    var ch := OfProc(s.procs[q].parent);
    WakeUpToProcs(s, ch, NPROC);
    var t := WakeUpTo(s, ch, NPROC);
    assert t.procs[h] == s.procs[h];
    ReparentProcs(t, q, NPROC);
    if h == s.initproc {
      forall c: nat | c < NPROC && t.procs[c].parent == q ensures t.procs[c].state != ZOMBIE {
        assert !Leaves(s, q, c);
      }
      ReparentQuiet(t, q, NPROC);
    }
  }

  lemma WakeupInWait(s: State, ch: Chan, h: nat)
    requires Wf(s) && InWait(s, h) && ch != OfProc(h)
    ensures InWait(WakeUpTo(s, ch, NPROC), h)
  {
    WakeUpToProcs(s, ch, NPROC);
    hide WakeUpTo;
  }

  lemma KillInWait(s: State, pid: nat, h: nat)
    requires Inv(s) && InWait(s, h)
    ensures Wf(Kill(s, pid)) && (Kill(s, pid).procs[h].killed || InWait(Kill(s, pid), h))
  {
    hide Inv, FirstPid, Wf;
    InvShape(s);
    KillInv(s, pid);
    InvShape(Kill(s, pid));
  }

  lemma WaitInWait(s: State, q: nat, h: nat)
    requires Inv(s) && InWait(s, h) && Is(s, q, RUNNING)
    ensures Wf(Wait(s, q)) && InWait(Wait(s, q), h)
  {
    hide Inv, HasKids, Wf;
    InvShape(s);
    WaitInv(s, q);
    InvShape(Wait(s, q));
  }

  lemma AllocInWait(s: State, h: nat)
    requires Inv(s) && InWait(s, h)
    ensures Wf(Alloc(s)) && InWait(Alloc(s), h)
  {
    AllocInv(s);
    hide Lists, NoLostChild, Family, Pids;
    if s.free != [] {
      assert s.free[0] in s.free;
    }
  }

  lemma PlainInWait(s: State, e: Event, h: nat)
    requires Inv(s) && Enabled(s, e) && InWait(s, h)
    requires e.DoYield? || e.DoSleep? || e.DoTidy? || e.DoAllocFail? || e.DoForkFail? || e.DoFork?
    ensures Wf(Next(s, e)) && InWait(Next(s, e), h)
  {
    hide Inv, Wf;
    InvShape(s);
    NextInv(s, e);
    InvShape(Next(s, e));
  }

  /** Unless somebody runs whose exit wakes it, every step leaves it asleep, or it has been killed. */
  lemma StepInWait(s: State, e: Event, h: nat)
    requires Inv(s) && Enabled(s, e) && !e.DoDispatch? && !e.DoSetPriority? && InWait(s, h)
    requires forall x: nat | Is(s, x, RUNNING) :: !Rouses(s, h, x)
    ensures Wf(Next(s, e)) && (Next(s, e).procs[h].killed || InWait(Next(s, e), h))
  {
    InvShape(s);
    hide Inv, WakeUpTo, Exit, Kill, Wait, Alloc, Sleep, AllocFail, ForkFail, ForkDone, Wake, Rouses;
    match e
    case DoExit(q) => ExitInWait(s, q, h);
    case DoWakeup(_, a) => WakeupInWait(s, Other(a), h);
    case DoInterrupt(a) => WakeupInWait(s, Device(a), h);
    case DoKill(_, pid) => KillInWait(s, pid, h);
    case DoWait(q) => WaitInWait(s, q, h);
    case DoAlloc(_) => AllocInWait(s, h);
    case _ => PlainInWait(s, e, h);
  }

  // ----- nobody gets the chance

  /** h sleeps in wait, and nobody gets the chance to wake it. */
  ghost predicate Mute(s: State, q: nat, h: nat)
    requires Inv(s) && Is(s, q, RUNNABLE)
  {
    InWait(s, h) && !Chance(s, q, h)
  }

  /** All HIGH processes are on the way to exit, or mute. */
  ghost predicate Muted(s: State, q: nat) {
    && Inv(s) && Settled(s) && Is(s, q, RUNNABLE) && s.procs[q].priority != HIGH
    && forall p: nat | ActiveHigh(s, p) :: s.procs[p].killed || Mute(s, q, p)
  }

  lemma MutedOffDevices(s: State, q: nat)
    requires Muted(s, q)
    ensures Inv(s) && Wf(s) && OffDevices(s)
  {
    hide Lists, FreeOk, NoLostChild, Family, Pids, Chance;
    forall x: nat | Is(s, x, SLEEPING) && s.procs[x].priority == HIGH ensures !s.procs[x].chan.Device? {
      assert ActiveHigh(s, x);
    }
  }

  /** A runner whose exit wakes h is a chance. */
  lemma RunnerRouses(s: State, q: nat, h: nat, x: nat)
    requires Inv(s) && Is(s, q, RUNNABLE) && InWait(s, h) && Is(s, x, RUNNING) && Rouses(s, h, x)
    ensures Chance(s, q, h)
  {
    hide Inv, Turn, Ahead;
    InvShape(s);
    NotOwnParent(s);
    IsListed(s, q);
    IsListed(s, x);
    assert Pair(s, q, h, x, x);
  }

  lemma StepMute(s: State, e: Event, q: nat, h: nat)
    requires Inv(s) && Enabled(s, e) && !e.DoDispatch? && !e.DoSetPriority? && Is(s, q, RUNNABLE) && Mute(s, q, h)
    requires s.procs[q].priority != HIGH && OffDevices(s) && Inv(Next(s, e)) && Is(Next(s, e), q, RUNNABLE)
    ensures Next(s, e).procs[h].killed || Mute(Next(s, e), q, h)
  {
    hide Inv, Next, Enabled, Chance, Rouses;
    InvShape(s);
    InvShape(Next(s, e));
    forall x: nat | Is(s, x, RUNNING) ensures !Rouses(s, h, x) {
      if Rouses(s, h, x) {
        RunnerRouses(s, q, h, x);
      }
    }
    StepInWait(s, e, h);
    if InWait(Next(s, e), h) && Chance(Next(s, e), q, h) {
      StepChance(s, e, q, h);
    }
  }

  lemma StepMuted(s: State, e: Event, q: nat)
    requires Muted(s, q) && Enabled(s, e) && !e.DoDispatch? && !e.DoSetPriority? && Behaves(s, e)
    ensures Muted(Next(s, e), q)
  {
    hide Inv, Next, Enabled, Mute, Settled, Behaves;
    InvShape(s);
    StepGrows(s, e);
    StepSettled(s, e);
    InvShape(Next(s, e));
    MutedOffDevices(s, q);
    var t := Next(s, e);
    forall p: nat | ActiveHigh(t, p) ensures t.procs[p].killed || Mute(t, q, p) {
      if !s.procs[p].killed {
        StepMute(s, e, q, p);
      }
    }
  }

  lemma DispatchMuted(s: State, q: nat)
    requires Muted(s, q) && s.ready[Top(s)] != [] && s.timeToReset > 1 && Pick(s) != q
    ensures Muted(Dispatch(s), q)
  {
    hide Inv, Dispatch, Top, Chance, Settled;
    InvShape(s);
    PlainDispatch(s);
    DispatchSettled(s);
    InvShape(Dispatch(s));
    var t := Dispatch(s);
    forall p: nat | ActiveHigh(t, p) ensures t.procs[p].killed || Mute(t, q, p) {
      assert ActiveHigh(s, p);
      if !s.procs[p].killed && Chance(t, q, p) {
        DispatchChance(s, q, p);
      }
    }
  }

  /** Then no reset picks a live HIGH process. */
  lemma {:induction false} MutedRun(s: State, es: seq<Event>, q: nat)
    requires Muted(s, q) && Passing(s, es, q)
    ensures ResetsPickNoHigh(s, es, true)
    decreases |es|
  {
    if es != [] {
      assert es[0] == es[0] && !es[0].DoSetPriority?;
      var t := Next(s, es[0]);
      hide Muted, Inv, Next, Dispatch, NoLive, Enabled, Top, Behaves;
      MutedFacts(s, q);
      if es[0].DoDispatch? {
        NextDispatch(s, es[0]);
        DispatchEnabled(s, es[0]);
        if s.timeToReset == 1 {
          DispatchNoLive(s);
          NoLiveRun(t, es[1..]);
        } else {
          DispatchMuted(s, q);
          MutedRun(t, es[1..], q);
        }
      } else {
        StepMuted(s, es[0], q);
        MutedRun(t, es[1..], q);
      }
    }
  }

  lemma DispatchEnabled(s: State, e: Event)
    requires Wf(s) && Enabled(s, e) && e.DoDispatch?
    ensures s.ready[Top(s)] != []
  {
  }

  lemma MutedFacts(s: State, q: nat)
    requires Muted(s, q)
    ensures Inv(s) && Wf(s) && s.timeToReset >= 1
    ensures s.ready[Top(s)] != [] ==> Harmless(s.procs[Pick(s)], true)
  {
    hide NoLostChild, Family, Pids, FreeOk, Chance;
  }
}
