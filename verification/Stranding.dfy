/** With a chance to wake a HIGH process that sleeps in wait, q can be passed over for ever: exactly when,
    from the state alone (proc.c). */
module Stranding {

  import opened ProcSpec
  import opened Fairness
  import opened Starvation
  import opened Turns
  import opened Chances
  import ForkBudget

  // ----- somebody gets the chance

  /** h, live and HIGH, sleeps in wait; there is time for one more HIGH process before the reset, and q is
      not HIGH. */
  ghost predicate Hoping(s: State, q: nat, h: nat) {
    && Inv(s) && Settled(s) && Is(s, q, RUNNABLE) && s.procs[q].priority != HIGH && |s.ready[HIGH]| < s.timeToReset
    && LiveHigh(s, h) && InWait(s, h)
  }

  lemma HopingFacts(s: State, q: nat, h: nat)
    requires Hoping(s, q, h)
    ensures Inv(s) && Wf(s) && Listed(s, q) && h < NPROC && Is(s, q, RUNNABLE) && InWait(s, h) && h != q
  {
    hide Inv;
    InvShape(s);
    IsListed(s, q);
  }

  /** A step before which nothing is lost. */
  lemma StarveByStep(s: State, e: Event, q: nat, n: nat)
    requires Wf(s) && Enabled(s, e) && !e.DoSetPriority? && (e.DoDispatch? ==> Pick(s) != q) && Behaves(s, e)
    requires StarvedFor(Next(s, e), q, n)
    ensures StarvedFor(s, q, n)
  {
    hide Enabled, Next, Behaves, StarvedFor;
    StarveCons(s, e, q, n);
    if e.DoDispatch? {
      StarveLess(s, q, n);
    }
  }

  lemma ExitStarves(s: State, q: nat, h: nat, x: nat, n: nat)
    requires Hoping(s, q, h) && Wf(s) && Is(s, x, RUNNING) && Rouses(s, h, x)
    ensures StarvedFor(s, q, n)
  {
    hide Inv, StarvedFor, Settled;
    NotOwnParent(s);
    StarveByExit(s, q, h, x, n);
  }

  /** exit wakes nobody who sleeps on a device or another object. */
  lemma ExitWakes(s: State, q: nat, p: nat)
    requires Inv(s) && Is(s, q, RUNNING) && q != s.initproc && Is(s, p, SLEEPING) && !s.procs[p].chan.OfProc?
    ensures Wf(Exit(s, q)) && Is(Exit(s, q), p, SLEEPING)
  {
    hide Lists, NoLostChild, Family, Pids, FreeOk, WakeUpTo, Reparent;
    ExitInv(s, q);
    InvShape(Exit(s, q));
    var ch := OfProc(s.procs[q].parent);
    WakeUpToProcs(s, ch, NPROC);
    ReparentProcs(WakeUpTo(s, ch, NPROC), q, NPROC);
  }

  /** Nobody HIGH is woken by the exit of x. */
  ghost predicate Unmoved(s: State, x: nat)
    requires Wf(s) && x < NPROC
  {
    forall g: nat | LiveHigh(s, g) && InWait(s, g) :: !Rouses(s, g, x)
  }

  lemma ExitKeepsHigh(s: State, x: nat, g: nat)
    requires Inv(s) && Settled(s) && Is(s, x, RUNNING) && x != s.initproc && Unmoved(s, x)
    requires Inv(Exit(s, x)) && Grows(s, Exit(s, x)) && g in Exit(s, x).ready[HIGH]
    ensures g in s.ready[HIGH]
  {
    hide Inv, Exit, Rouses;
    InvShape(s);
    InvShape(Exit(s, x));
    NotOwnParent(s);
    ExitProcs(s, x);
    InHighList(Exit(s, x), g);
    InHighList(s, g);
    if Is(s, g, SLEEPING) {
      if s.procs[g].chan.OfProc? {
        ExitInWait(s, x, g);
      } else {
        ExitWakes(s, x, g);
      }
    }
  }

  lemma ExitHoping(s: State, q: nat, x: nat)
    requires Hoping(s, q, s.initproc) && Wf(s) && Is(s, x, RUNNING) && x != s.initproc && Unmoved(s, x)
    ensures Inv(Exit(s, x)) && Hoping(Exit(s, x), q, s.initproc)
  {
    hide Inv, Exit, Rouses, Settled, Behaves;
    NotOwnParent(s);
    ExitStep(s, x);
    StepSettled(s, DoExit(x));
    StepGrows(s, DoExit(x));
    var t := Exit(s, x);
    InvShape(t);
    ExitProcs(s, x);
    ExitInWait(s, x, s.initproc);
    var n := |s.ready[HIGH]|;
    if n < |t.ready[HIGH]| {
      var g := t.ready[HIGH][n];
      InHighList(t, g);
      NewMember(s.ready[HIGH], t.ready[HIGH], n);
      ExitKeepsHigh(s, x, g);
      assert false;
    }
  }

  lemma ExitStep(s: State, x: nat)
    requires Wf(s) && Is(s, x, RUNNING) && x != s.initproc
    ensures Enabled(s, DoExit(x)) && Behaves(s, DoExit(x)) && Next(s, DoExit(x)) == Exit(s, x)
  {
    hide Exit;
  }

  /** A parent and its child both run: with both gone, init is awake. */
  lemma OrphanStarves(s: State, q: nat, x: nat, y: nat, n: nat)
    requires Hoping(s, q, s.initproc) && Wf(s) && Is(s, x, RUNNING) && Is(s, y, RUNNING) && s.procs[y].parent == x
    requires x != s.initproc
    ensures StarvedFor(s, q, n)
  {
    hide Inv, Exit, Rouses, Settled, StarvedFor, Enabled, Behaves, Next;
    NotOwnParent(s);
    if g: nat :| LiveHigh(s, g) && InWait(s, g) && Rouses(s, g, x) {
      ExitStarves(s, q, g, x, n);
    } else {
      ExitHoping(s, q, x);
      ExitProcs(s, x);
      var t := Exit(s, x);
      HopingFacts(t, q, s.initproc);
      OwnChild(t, s.initproc, y);
      ExitStarves(t, q, s.initproc, y, n);
      ExitStep(s, x);
      StarveByStep(s, DoExit(x), q, n);
    }
  }

  lemma OwnChild(s: State, h: nat, y: nat)
    requires Wf(s) && y < NPROC && s.procs[y].parent == h
    ensures Rouses(s, h, y)
  {
  }

  // ----- kills and dispatches on the way

  lemma KillOne(s: State, c: nat)
    requires Inv(s) && Is(s, c, SLEEPING)
    ensures var t := Kill(s, s.procs[c].pid);
            && Inv(t) && t.procs == s.procs[c := s.procs[c].(killed := true, state := RUNNABLE)] && |t.ready| == SIZE
            && t.ready == s.ready[s.procs[c].priority := s.ready[s.procs[c].priority] + [c]]
            && t.timeToReset == s.timeToReset && t.initproc == s.initproc
  {
    PidNames(s, c);
    KillProcs(s, s.procs[c].pid);
    KillLists(s, c);
    hide Inv, Kill, FirstPid;
  }

  lemma KillSettled(s: State, t: State, c: nat)
    requires Wf(s) && Wf(t) && Settled(s) && c < NPROC && t.procs == s.procs[c := t.procs[c]] &&
             t.procs[c].state == RUNNABLE
    ensures Settled(t)
  {
    assert forall p: nat | Is(t, p, SLEEPING) :: Is(s, p, SLEEPING);
  }

  lemma KillLists(s: State, c: nat)
    requires Inv(s) && Is(s, c, SLEEPING)
    ensures var t := Kill(s, s.procs[c].pid);
            |t.ready| == SIZE && t.ready == s.ready[s.procs[c].priority := s.ready[s.procs[c].priority] + [c]] &&
            t.timeToReset == s.timeToReset
  {
    PidNames(s, c);
    hide Lists, NoLostChild, Family, Pids, FreeOk, FirstPid;
  }

  lemma HighRoom(s: State, t: State, c: nat)
    requires Wf(s) && |t.ready| == SIZE && c < NPROC && |s.ready[HIGH]| < s.timeToReset
    requires t.ready == s.ready[s.procs[c].priority := s.ready[s.procs[c].priority] + [c]]
    requires Ahead(s, s.procs[c].priority + 1) + 2 <= s.timeToReset
    ensures |t.ready[HIGH]| < s.timeToReset
  {
  }

  lemma TurnGrowsBy(s: State, t: State, q: nat, c: nat)
    requires Wf(s) && Wf(t) && c < NPROC && Listed(s, q) && t.procs[q] == s.procs[q] &&
             t.procs[c].priority == s.procs[c].priority
    requires t.ready == s.ready[s.procs[c].priority := s.ready[s.procs[c].priority] + [c]] && !Listed(s, c)
    requires s.procs[c].priority < s.procs[q].priority
    ensures Listed(t, q) && Listed(t, c) && Turn(t, c) == Ahead(s, s.procs[c].priority + 1) && Turn(t, c) < Turn(t, q)
  {
    var p := s.procs[c].priority;
    SpotAfter(s.ready[p], [c], c);
    TurnLess(t, c, q);
    hide Spot;
  }

  lemma KillStep(s: State, e: Event)
    requires Wf(s) && e.DoKill? && Is(s, e.q, RUNNING)
    ensures Enabled(s, e) && Behaves(s, e) && Next(s, e) == Kill(s, e.pid)
  {
    hide Kill;
  }

  lemma KillAhead(s: State, t: State, x: nat, j: nat)
    requires Wf(s) && Wf(t) && x < NPROC && j <= SIZE
    requires t.ready == s.ready[s.procs[x].priority := s.ready[s.procs[x].priority] + [x]]
    ensures Ahead(t, j) == Ahead(s, j) + if s.procs[x].priority < j then 1 else 0
  {
  }

  /** What killing a sleeper x does to the turn of somebody queued. */
  lemma KillTurn(s: State, t: State, x: nat, y: nat)
    requires Wf(s) && Wf(t) && x < NPROC && Listed(s, y) && t.procs[y] == s.procs[y]
    requires t.ready == s.ready[s.procs[x].priority := s.ready[s.procs[x].priority] + [x]]
    ensures Listed(t, y)
    ensures Turn(t, y) == Turn(s, y) + if s.procs[x].priority < s.procs[y].priority then 1 else 0
  {
    hide Spot, Ahead;
    var j := s.procs[y].priority;
    KillAhead(s, t, x, j);
    assert s.ready[j] <= t.ready[j];
    SpotPrefix(s.ready[j], t.ready[j], y);
  }

  lemma KillBoth(s: State, t: State, q: nat, x: nat, y: nat)
    requires Inv(s) && Inv(t) && Listed(s, q) && Is(s, q, RUNNABLE) && Is(s, x, SLEEPING) && Both(s, q, x, y)
    requires t.procs == s.procs[x := s.procs[x].(killed := true, state := RUNNABLE)]
    requires t.ready == s.ready[s.procs[x].priority := s.ready[s.procs[x].priority] + [x]]
    requires t.timeToReset == s.timeToReset
    ensures Listed(t, q) && Listed(t, x) && Both(t, q, x, y)
  {
    hide Inv, Turn, Ahead, Spot;
    InvShape(s);
    InvShape(t);
    IsListed(s, x);
    IsListed(s, y);
    IsListed(t, y);
    KillTurn(s, t, x, q);
    TurnGrowsBy(s, t, q, x);
    KillAhead(s, t, x, s.procs[y].priority + 1);
    if Is(s, y, RUNNABLE) {
      KillTurn(s, t, x, y);
    }
  }

  lemma KillHoping(s: State, q: nat, h: nat, x: nat, y: nat)
    requires Hoping(s, q, h) && Wf(s) && Listed(s, q) && Is(s, x, SLEEPING) && Both(s, q, x, y) && x != h
    ensures var t := Kill(s, s.procs[x].pid);
            && Hoping(t, q, h) && Wf(t) && Listed(t, q) && Both(t, q, x, y) && t.initproc == s.initproc
            && t.procs == s.procs[x := s.procs[x].(killed := true, state := RUNNABLE)]
  {
    hide Inv, Kill, FirstPid, Turn, Ahead, Spot, Both;
    HopingFacts(s, q, h);
    InTime(s, q, x, y);
    KillOne(s, x);
    var t := Kill(s, s.procs[x].pid);
    InvShape(t);
    KillBoth(s, t, q, x, y);
    HighRoom(s, t, x);
    KillSettled(s, t, x);
  }

  lemma KillPair(s: State, t: State, q: nat, h: nat, u: nat, x: nat, y: nat)
    requires Wf(s) && Wf(t) && Listed(s, q) && Listed(t, q) && Busy(s) && Pair(s, q, h, x, y) && Both(t, q, x, y)
    requires Is(s, u, SLEEPING) && t.procs == s.procs[u := s.procs[u].(killed := true, state := RUNNABLE)]
    requires t.initproc == s.initproc
    ensures Pair(t, q, h, x, y) && Busy(t)
  {
    hide OnTime, Rank, Lag, Rouses;
    assert x < NPROC && y < NPROC by {
      WithinTable(s, q, x, y);
    }
    if x == y {
      StillRouses(s, t, h, x);
    }
    var r: nat :| Is(s, r, RUNNING);
    assert Is(t, r, RUNNING);
  }

  lemma WithinTable(s: State, q: nat, x: nat, y: nat)
    requires Wf(s) && Listed(s, q) && Both(s, q, x, y)
    ensures x < NPROC && y < NPROC
  {
    hide Turn, Rank, Lag;
  }

  lemma InTime(s: State, q: nat, x: nat, y: nat)
    requires Inv(s) && Wf(s) && Listed(s, q) && Both(s, q, x, y) && Is(s, x, SLEEPING)
    ensures Ahead(s, s.procs[x].priority + 1) + 2 <= s.timeToReset && s.procs[x].priority < s.procs[q].priority
  {
    hide Inv, Turn, Ahead;
    IsListed(s, x);
  }

  lemma StillRouses(s: State, t: State, h: nat, c: nat)
    requires Wf(s) && Wf(t) && t.initproc == s.initproc && c < NPROC && Rouses(s, h, c)
    requires t.procs[c].parent == s.procs[c].parent
    requires forall z: nat | Is(s, z, ZOMBIE) :: Is(t, z, ZOMBIE) && t.procs[z].parent == s.procs[z].parent
    ensures Rouses(t, h, c)
  {
    if s.procs[c].parent != h {
      var z: nat :| Leaves(s, c, z);
      assert Leaves(t, c, z);
    }
  }

  lemma DispatchHoping(s: State, q: nat, h: nat)
    requires Hoping(s, q, h) && s.ready[Top(s)] != [] && s.timeToReset > 1 && Pick(s) != q
    ensures Inv(Dispatch(s)) && Wf(Dispatch(s)) && Hoping(Dispatch(s), q, h) && Listed(Dispatch(s), q)
    ensures Busy(Dispatch(s)) && Enabled(s, DoDispatch) && Behaves(s, DoDispatch)
    ensures Next(s, DoDispatch) == Dispatch(s)
  {
    hide Inv, Dispatch, Settled, Top;
    HopingFacts(s, q, h);
    PlainDispatch(s);
    DispatchSettled(s);
    HighShorter(s);
    InvShape(Dispatch(s));
    IsListed(Dispatch(s), q);
    BehavesDispatch(s);
    assert Is(Dispatch(s), Pick(s), RUNNING);
  }

  lemma HighShorter(s: State)
    requires Wf(s) && s.ready[Top(s)] != [] && |s.ready[HIGH]| < s.timeToReset
    ensures |s.ready[Top(s) := s.ready[Top(s)][1..]][HIGH]| < s.timeToReset - 1 || s.timeToReset <= 1
  {
  }

  lemma DispatchPair(s: State, q: nat, h: nat, x: nat, y: nat)
    requires Hoping(s, q, h) && Wf(s) && Listed(s, q) && Pair(s, q, h, x, y)
    requires !Is(s, x, SLEEPING) && !Is(s, y, SLEEPING) && Rank(s, x) + Rank(s, y) > 0
    ensures s.ready[Top(s)] != [] && s.timeToReset > 1 && Pick(s) != q
    ensures var t := Dispatch(s);
            && Inv(t) && Wf(t) && Listed(t, q) && Pair(t, q, h, x, y)
            && !Is(t, x, SLEEPING) && !Is(t, y, SLEEPING) && Rank(t, x) + Rank(t, y) < Rank(s, x) + Rank(s, y)
  {
    hide Inv, Dispatch, Top, Turn, Ahead, Rouses;
    HopingFacts(s, q, h);
    BothFacts(s, q, x, y);
    QueueHead(s, q);
    RankPositive(s, x);
    RankPositive(s, y);
    DispatchTurn(s, q);
    PlainDispatch(s);
    RankDispatch(s, q, x);
    RankDispatch(s, q, y);
    InvShape(Dispatch(s));
    if x == y {
      StillRouses(s, Dispatch(s), h, x);
    }
  }

  /** Both are brought to run: sleepers are killed, then all those ahead are dispatched. */
  lemma {:induction false} PairStarves(s: State, q: nat, h: nat, x: nat, y: nat, n: nat)
    requires Hoping(s, q, h) && Wf(s) && Listed(s, q) && Busy(s) && Pair(s, q, h, x, y)
    ensures StarvedFor(s, q, n)
    decreases Sleeping(s, x) + Sleeping(s, y), if x < NPROC && y < NPROC then Rank(s, x) + Rank(s, y) else 0
  {
    hide Inv, Kill, Hoping, Rouses, Both, Rank, StarvedFor, Next, Enabled, Behaves, Dispatch, Top, FirstPid;
    HopingFacts(s, q, h);
    BothFacts(s, q, x, y);
    RankPositive(s, x);
    RankPositive(s, y);
    if Is(s, x, SLEEPING) || Is(s, y, SLEEPING) {
      var u, v := if Is(s, x, SLEEPING) then x else y, if Is(s, x, SLEEPING) then y else x;
      var r: nat :| Is(s, r, RUNNING);
      var e := DoKill(r, s.procs[u].pid);
      KillStep(s, e);
      KillEither(s, q, h, x, y);
      PairStarves(Kill(s, s.procs[u].pid), q, h, x, y, n);
      StarveByStep(s, e, q, n);
    } else if Rank(s, x) + Rank(s, y) > 0 {
      DispatchPair(s, q, h, x, y);
      DispatchHoping(s, q, h);
      PairStarves(Dispatch(s), q, h, x, y, n);
      StarveByStep(s, DoDispatch, q, n);
    } else if x == y {
      ExitStarves(s, q, h, x, n);
    } else {
      OrphanStarves(s, q, x, y, n);
    }
  }

  ghost function Sleeping(s: State, x: nat): (n: nat)
    requires Wf(s)
  {
    if Is(s, x, SLEEPING) then 1 else 0
  }

  /** The first of the two that sleeps is killed. */
  lemma KillEither(s: State, q: nat, h: nat, x: nat, y: nat)
    requires Hoping(s, q, h) && Wf(s) && Listed(s, q) && Busy(s) && Pair(s, q, h, x, y)
    requires Is(s, x, SLEEPING) || Is(s, y, SLEEPING)
    ensures var t := Kill(s, s.procs[if Is(s, x, SLEEPING) then x else y].pid);
            && Hoping(t, q, h) && Wf(t) && Listed(t, q) && Busy(t) && Pair(t, q, h, x, y)
            && Sleeping(t, x) + Sleeping(t, y) < Sleeping(s, x) + Sleeping(s, y)
  {
    hide Inv, Kill, Hoping, Rouses, OnTime, Rank, FirstPid, Turn;
    var u, v := if Is(s, x, SLEEPING) then x else y, if Is(s, x, SLEEPING) then y else x;
    KillHoping(s, q, h, u, v);
    KillPair(s, Kill(s, s.procs[u].pid), q, h, u, x, y);
  }

  // ----- forks

  /** Steps that touch neither q nor h nor the HIGH list. */
  lemma StepHoping(s: State, e: Event, q: nat, h: nat)
    requires Hoping(s, q, h) && Wf(s) && Enabled(s, e) && (e.DoAlloc? || e.DoFork?)
    ensures Inv(Next(s, e)) && Wf(Next(s, e)) && Hoping(Next(s, e), q, h) && Listed(Next(s, e), q)
    ensures Behaves(s, e)
  {
    hide Inv, Settled;
    StepSettled(s, e);
    StepGrows(s, e);
    InvShape(Next(s, e));
    IsListed(Next(s, e), q);
    if e.DoAlloc? {
      AllocKeeps(s, h);
    } else {
      assert Next(s, e).procs[h] == s.procs[h] && Next(s, e).ready[HIGH] == s.ready[HIGH];
    }
  }

  lemma AllocKeeps(s: State, h: nat)
    requires Inv(s) && InWait(s, h)
    ensures |Alloc(s).procs| == NPROC && Alloc(s).procs[h] == s.procs[h] && Alloc(s).ready == s.ready
  {
    hide Lists, NoLostChild, Family, Pids;
    if s.free != [] {
      assert s.free[0] in s.free;
    }
  }

  lemma BornPair(s: State, q: nat, r: nat, g: nat)
    requires Hoping(s, q, s.initproc) && Wf(s) && Listed(s, q) && MayFork(s, q) && Is(s, r, RUNNING) && Is(s, g, EMBRYO)
    requires Inv(ForkDone(s, r, g)) && Wf(ForkDone(s, r, g)) && Listed(ForkDone(s, r, g), q)
    ensures Busy(ForkDone(s, r, g)) && Pair(ForkDone(s, r, g), q, s.initproc, r, g)
  {
    hide Inv, Spot, ForkBudget.Spare;
    var t := ForkDone(s, r, g);
    NotQueued(s, g, DEFAULTPRIO);
    NotQueued(t, r, DEFAULTPRIO);
    assert t.ready[DEFAULTPRIO] == s.ready[DEFAULTPRIO] + [g] && t.ready[HIGH] == s.ready[HIGH];
    SpotAfter(s.ready[DEFAULTPRIO], [g], g);
    assert Is(t, r, RUNNING);
    IsListed(t, r);
    assert Turn(t, g) == Ahead(s, LOW);
  }

  lemma EmbryoStarves(s: State, q: nat, g: nat, n: nat)
    requires Hoping(s, q, s.initproc) && Wf(s) && Listed(s, q) && Busy(s) && MayFork(s, q) && Is(s, g, EMBRYO)
    ensures StarvedFor(s, q, n)
  {
    hide Inv, Hoping, MayFork, Pair, StarvedFor, Behaves, ForkDone;
    var r: nat :| Is(s, r, RUNNING);
    var e := DoFork(r, g);
    StepHoping(s, e, q, s.initproc);
    BornPair(s, q, r, g);
    PairStarves(Next(s, e), q, s.initproc, r, g, n);
    StarveByStep(s, e, q, n);
  }

  /** Somebody who runs forks and exits, and then the child does. */
  lemma ForkStarves(s: State, q: nat, n: nat)
    requires Hoping(s, q, s.initproc) && Wf(s) && Listed(s, q) && Busy(s) && MayFork(s, q)
    ensures StarvedFor(s, q, n)
  {
    hide Inv, Hoping, StarvedFor, Behaves;
    HopingFacts(s, q, s.initproc);
    if g: nat :| Is(s, g, EMBRYO) {
      EmbryoStarves(s, q, g, n);
    } else {
      var r: nat :| Is(s, r, RUNNING);
      var e := DoAlloc(r);
      StepHoping(s, e, q, s.initproc);
      ForkBudget.AllocSpare(s);
      AllocEmbryo(s, r, q);
      EmbryoStarves(Next(s, e), q, s.free[0], n);
      StarveByStep(s, e, q, n);
    }
  }

  lemma AllocEmbryo(s: State, r: nat, q: nat)
    requires Inv(s) && Is(s, r, RUNNING) && Is(s, q, RUNNABLE) && ForkBudget.Spare(s) > 0
    requires forall g: nat :: !Is(s, g, EMBRYO)
    ensures s.free != [] && Inv(Alloc(s)) && Is(Alloc(s), s.free[0], EMBRYO) && Is(Alloc(s), r, RUNNING)
    ensures Alloc(s).ready == s.ready && Alloc(s).timeToReset == s.timeToReset && Alloc(s).procs[q] == s.procs[q]
    ensures Alloc(s).initproc == s.initproc
  {
    AllocInv(s);
    hide Lists, NoLostChild, Family, Pids;
    forall p: nat | p < NPROC ensures s.procs[p].state != EMBRYO {
      assert !Is(s, p, EMBRYO);
    }
    assert ForkBudget.Embryos(s) == {};
    assert s.free[0] in s.free;
  }

  lemma WayStarves(s: State, q: nat, h: nat, n: nat)
    requires Hoping(s, q, h) && Wf(s) && Listed(s, q) && Busy(s) && Way(s, q, h)
    ensures StarvedFor(s, q, n)
  {
    hide Inv, Hoping, Pair, MayFork, StarvedFor;
    if x: nat, y: nat :| Pair(s, q, h, x, y) {
      PairStarves(s, q, h, x, y, n);
    } else {
      ForkStarves(s, q, n);
    }
  }

  lemma OpenStarves(s: State, q: nat, h: nat, n: nat)
    requires Hoping(s, q, h) && Inv(s) && Is(s, q, RUNNABLE) && Opens(s, q, h)
    ensures StarvedFor(s, q, n)
  {
    hide Inv, Hoping, Way, StarvedFor, Dispatch, Top, Next, Enabled, Behaves;
    InvShape(s);
    QueueHead(s, q);
    DispatchHoping(s, q, h);
    WayStarves(Dispatch(s), q, h, n);
    StarveByStep(s, DoDispatch, q, n);
  }

  lemma InterruptHigh(s: State, a: nat)
    requires Inv(s) && Settled(s) && NoDeviceHigh(s)
    ensures Interrupt(s, a).ready[HIGH] == s.ready[HIGH]
  {
    hide Inv, WakeUpTo;
    InterruptKeepsHigh(s, Device(a));
  }

  lemma InterruptHoping(s: State, q: nat, h: nat, a: nat)
    requires Hoping(s, q, h) && Wf(s) && NoDeviceHigh(s)
    ensures Inv(Interrupt(s, a)) && Hoping(Interrupt(s, a), q, h) && Is(Interrupt(s, a), q, RUNNABLE)
  {
    hide Inv, WakeUpTo, Interrupt, Sleepers;
    InterruptProcs(s, a);
    InterruptLists(s, a);
    InterruptHigh(s, a);
    var t := Interrupt(s, a);
    InvShape(t);
    assert Settled(t) by {
      assert forall p: nat | Is(t, p, SLEEPING) :: Is(s, p, SLEEPING) && t.procs[p] == s.procs[p];
    }
  }

  /** Whoever gets the chance to wake h can starve q. */
  lemma ChanceStarves(s: State, q: nat, h: nat, n: nat)
    requires Hoping(s, q, h) && Wf(s) && NoDeviceHigh(s) && Inv(s) && Is(s, q, RUNNABLE) && Chance(s, q, h)
    ensures StarvedFor(s, q, n)
  {
    hide Inv, Hoping, Way, StarvedFor, Opens, Interrupt, Next, Enabled, Behaves, NoDeviceHigh;
    IsListed(s, q);
    if Busy(s) {
      WayStarves(s, q, h, n);
    } else if Opens(s, q, h) {
      OpenStarves(s, q, h, n);
    } else {
      var a: nat :| OpensAfter(s, q, h, a);
      InterruptHoping(s, q, h, a);
      OpenStarves(Interrupt(s, a), q, h, n);
      InterruptStep(s, a);
      InterruptEnabled(s, DoInterrupt(a));
      StarveByStep(s, DoInterrupt(a), q, n);
    }
  }

  lemma InterruptStep(s: State, a: nat)
    requires Wf(s)
    ensures Enabled(s, DoInterrupt(a)) && Next(s, DoInterrupt(a)) == Interrupt(s, a)
  {
    hide WakeUpTo;
  }

  // ----- exactly

  /** Somebody gets the chance to wake a HIGH process that sleeps in wait, in time for the reset. */
  ghost predicate Called(s: State, q: nat)
    requires Inv(s) && Is(s, q, RUNNABLE)
  {
    && s.procs[q].priority != HIGH && |s.ready[HIGH]| < s.timeToReset
    && exists h: nat :: LiveHigh(s, h) && InWait(s, h) && Chance(s, q, h)
  }

  lemma CalledStarvable(s: State, q: nat)
    requires Inv(s) && Settled(s) && Is(s, q, RUNNABLE) && Called(s, q)
    ensures Starvable(s, q)
  {
    var h: nat :| LiveHigh(s, h) && InWait(s, h) && Chance(s, q, h);
    InvShape(s);
    hide Inv, Chance, StarvedFor;
    forall n: nat ensures StarvedFor(s, q, n) {
      if NoDeviceHigh(s) {
        ChanceStarves(s, q, h, n);
      } else {
        var g: nat :| LiveHigh(s, g) && s.procs[g].state == SLEEPING && s.procs[g].chan.Device?;
        StarveByInterrupt(s, q, g, n);
      }
    }
  }

  /** With nobody exposing q and nobody calling, all HIGH processes are mute. */
  lemma NobodyCalls(s: State, q: nat)
    requires Inv(s) && Settled(s) && Is(s, q, RUNNABLE) && !Exposed(s, q) && !Called(s, q) && Company(s, q)
    requires s.procs[q].priority != HIGH && |s.ready[HIGH]| < s.timeToReset
    ensures Muted(s, q)
  {
    hide Inv, Chance, Company;
    InvShape(s);
    forall p: nat | ActiveHigh(s, p) ensures s.procs[p].killed || Mute(s, q, p) {
      if !s.procs[p].killed {
        assert LiveHigh(s, p) && !CanRun(s, q, p);
        assert Is(s, p, SLEEPING);
      }
    }
  }

  /** Neither exposed nor called, q is dispatched after so many dispatches at most. */
  lemma UncalledBound(s: State, q: nat, es: seq<Event>)
    requires Inv(s) && Settled(s) && Is(s, q, RUNNABLE) && !Exposed(s, q) && !Called(s, q) && Passing(s, es, q)
    ensures Dispatches(es) <= s.timeToReset + NPROC - 2
  {
    InvShape(s);
    hide Inv, Company, Settled, Muted, Called, Run, Passes, Orderly, Exposed;
    if s.procs[q].priority != HIGH && |s.ready[HIGH]| < s.timeToReset && Company(s, q) {
      NobodyCalls(s, q);
      MutedRun(s, es, q);
      BoundedWaiting(s, es, q, true);
    } else {
      UnexposedBound(s, q, es);
    }
  }

  /** Exactly when q can be starved without end, by looking at the state: it is exposed, or somebody can
      call a HIGH process out of wait in time. */
  lemma StarvableIff(s: State, q: nat)
    requires Inv(s) && Settled(s) && Is(s, q, RUNNABLE)
    ensures Starvable(s, q) <==> Exposed(s, q) || Called(s, q)
  {
    InvShape(s);
    hide Inv, Passing, Settled, Company, Exposed, Called, Stranded;
    if Exposed(s, q) {
      ExposedStarves(s, q);
    } else if Called(s, q) {
      CalledStarvable(s, q);
    } else {
      forall es | Passing(s, es, q) ensures Dispatches(es) <= s.timeToReset + NPROC - 2 {
        UncalledBound(s, q, es);
      }
      BoundEnds(s, q, s.timeToReset + NPROC - 2);
    }
  }
}
