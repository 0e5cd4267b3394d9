/** Runs from start-up that reach the states in which proc.c does less than it promises. */
module BootRuns {

  import opened ProcSpec
  import opened Fairness
  import opened Starvation

  lemma {:induction false} RunSnoc(s: State, es: seq<Event>, e: Event)
    requires Inv(s) && Run(s, es) && Wf(Final(s, es)) && Enabled(Final(s, es), e)
    ensures Run(s, es + [e]) && Final(s, es + [e]) == Next(Final(s, es), e)
    decreases |es|
  {
    hide Lists, FreeOk, NoLostChild, Family, Pids, Next, Enabled;
    if es == [] {
      NextInv(s, e);
      assert ([] + [e])[1..] == [] && ([] + [e])[0] == e;
    } else {
      NextInv(s, es[0]);
      assert (es + [e])[0] == es[0] && (es + [e])[1..] == es[1..] + [e];
      RunSnoc(Next(s, es[0]), es[1..], e);
    }
  }

  /** init runs and has forked `kids`, which wait on the default list. */
  ghost predicate Parenting(s: State, kids: seq<nat>, free: seq<nat>) {
    && Inv(s) && s.ready == [[], kids, []] && s.free == free && s.timeToReset == COUNT - 1 && s.nextpid == 2 + |kids|
    && s.procs[s.initproc] == Proc(RUNNING, 1, NIL, NoChan, false, DEFAULTPRIO)
    && (forall k: nat | k < |kids| ::
          kids[k] < NPROC && s.procs[kids[k]] == Proc(RUNNABLE, 2 + k, s.initproc, NoChan, false, DEFAULTPRIO))
    && (forall x | x in free :: x < NPROC && s.procs[x] == Proc(UNUSED, 0, NIL, NoChan, false, DEFAULTPRIO))
  }

  lemma BootDispatch(s: State)
    requires Booted(s)
    ensures Run(s, [DoDispatch]) && Final(s, [DoDispatch]).initproc == s.initproc
    ensures Parenting(Final(s, [DoDispatch]), [], s.free)
  {
    BootedInv(s);
    DispatchInv(s);
    DispatchProcs(s);
    hide Lists, FreeOk, NoLostChild, Family, Pids;
    var t := Dispatch(s);
    assert [DoDispatch][1..] == [] && Next(s, DoDispatch) == t;
    assert t.ready[DEFAULTPRIO] == [] && t.ready == [[], [], []];
  }

  lemma ForkAllocs(s: State, kids: seq<nat>, free: seq<nat>)
    requires Parenting(s, kids, free) && free != []
    ensures var t := Alloc(s);
            && Inv(t) && t == s.(procs := t.procs, free := free[1..], nextpid := s.nextpid + 1)
            && t.procs == s.procs[free[0] := Proc(EMBRYO, 2 + |kids|, NIL, NoChan, false, DEFAULTPRIO)]
            && free[0] != s.initproc && free[0] !in kids && free[0] !in free[1..]
  {
    AllocInv(s);
    assert free[0] in free && Distinct(free);
    hide Inv;
  }

  lemma ForkQueues(s: State, kids: seq<nat>, free: seq<nat>)
    requires Parenting(s, kids, free) && free != []
    ensures var t := Alloc(s);
            Inv(t) && Is(t, t.initproc, RUNNING) && Is(t, free[0], EMBRYO) &&
              Parenting(ForkDone(t, t.initproc, free[0]), kids + [free[0]], free[1..])
  {
    ForkAllocs(s, kids, free);
    var t, p := Alloc(s), free[0];
    hide Lists, FreeOk, NoLostChild, Family, Pids, Alloc;
    ForkDoneInv(t, t.initproc, p);
    var u := ForkDone(t, t.initproc, p);
    assert u.ready[DEFAULTPRIO] == kids + [p];
    assert u.ready == [[], kids + [p], []];
    forall k: nat | k < |kids| ensures kids[k] != p {
      assert kids[k] in kids;
    }
  }

  /** init forks once more. */
  lemma ForkOnce(s: State, es: seq<Event>, kids: seq<nat>, free: seq<nat>)
    requires Inv(s) && Run(s, es) && Parenting(Final(s, es), kids, free) && free != []
    ensures var i := Final(s, es).initproc;
            var fs := es + [DoAlloc(i)] + [DoFork(i, free[0])];
            Run(s, fs) && Parenting(Final(s, fs), kids + [free[0]], free[1..]) && Final(s, fs).initproc == i
  {
    var t := Final(s, es);
    var i := t.initproc;
    ForkQueues(t, kids, free);
    ForkEvents(t, kids, free);
    hide Inv, Alloc, ForkDone, Next, Enabled, Parenting;
    ParentingWf(t, kids, free);
    RunSnoc(s, es, DoAlloc(i));
    RunSnoc(s, es + [DoAlloc(i)], DoFork(i, free[0]));
  }

  lemma ParentingWf(s: State, kids: seq<nat>, free: seq<nat>)
    requires Parenting(s, kids, free)
    ensures Inv(s) && Wf(s)
  {
  }

  lemma ForkEvents(s: State, kids: seq<nat>, free: seq<nat>)
    requires Parenting(s, kids, free) && free != []
    ensures var i := s.initproc;
            && Enabled(s, DoAlloc(i)) && Next(s, DoAlloc(i)) == Alloc(s)
            && Inv(Alloc(s)) && Enabled(Alloc(s), DoFork(i, free[0])) && Alloc(s).initproc == i
            && Next(Alloc(s), DoFork(i, free[0])) == ForkDone(Alloc(s), i, free[0])
            && ForkDone(Alloc(s), i, free[0]).initproc == i
  {
    ForkAllocs(s, kids, free);
    ForkQueues(s, kids, free);
    hide Inv, Alloc;
  }

  lemma TwoFree(s: State)
    requires Booted(s)
    ensures |s.free| >= 2
  {
    assert 0 in s.free && 1 in s.free;
  }

  /** init has forked once. */
  lemma OneChild(s: State)
    requires Booted(s)
    ensures |s.free| >= 2
    ensures var i := s.initproc;
            var es := [DoDispatch, DoAlloc(i), DoFork(i, s.free[0])];
            Run(s, es) && Parenting(Final(s, es), [s.free[0]], s.free[1..]) && Final(s, es).initproc == i
  {
    TwoFree(s);
    BootedInv(s);
    BootDispatch(s);
    hide Inv, Parenting, Booted;
    var i := s.initproc;
    ForkOnce(s, [DoDispatch], [], s.free);
    assert [DoDispatch] + [DoAlloc(i)] + [DoFork(i, s.free[0])] == [DoDispatch, DoAlloc(i), DoFork(i, s.free[0])];
    assert [] + [s.free[0]] == [s.free[0]];
  }

  /** setPriority's null read, two forks after start-up: init moves its second child, the last on the
      default list. */
  lemma SetPriorityCanFault(s: State)
    requires Booted(s)
    ensures |s.free| >= 2
    ensures var i := s.initproc;
            var es := [DoDispatch, DoAlloc(i), DoFork(i, s.free[0]), DoAlloc(i), DoFork(i, s.free[1])];
            Run(s, es) && var t := Final(s, es); Inv(t) && Is(t, i, RUNNING) && SetPriorityFaults(t, 3, HIGH)
  {
    OneChild(s);
    BootedInv(s);
    var i, a, b := s.initproc, s.free[0], s.free[1];
    var es := [DoDispatch, DoAlloc(i), DoFork(i, a)];
    var fs := es + [DoAlloc(i)] + [DoFork(i, b)];
    hide Inv, Booted, Parenting;
    ForkOnce(s, es, [a], s.free[1..]);
    assert fs == [DoDispatch, DoAlloc(i), DoFork(i, a), DoAlloc(i), DoFork(i, b)];
    assert [a] + [b] == [a, b];
    SecondFaults(Final(s, fs), a, b, s.free[1..][1..]);
  }

  lemma SecondFaults(t: State, a: nat, b: nat, free: seq<nat>)
    requires Parenting(t, [a, b], free)
    ensures Inv(t) && Is(t, t.initproc, RUNNING) && SetPriorityFaults(t, 3, HIGH)
  {
    assert [a, b][1] == b && t.procs[b].pid == 3 && t.procs[b].state == RUNNABLE;
    PidNames(t, b);
    hide Inv, FirstPid;
  }

  /** After start-up init forks a child and makes itself HIGH: the child can be starved without end. */
  lemma StarvedChild(s: State)
    requires Booted(s)
    ensures |s.free| >= 2
    ensures var i, p := s.initproc, s.free[0];
            var es := [DoDispatch, DoAlloc(i), DoFork(i, p), DoSetPriority(i, 1, HIGH)];
            Run(s, es) && Inv(Final(s, es)) && Is(Final(s, es), p, RUNNABLE) && Starvable(Final(s, es), p)
  {
    OneChild(s);
    BootedInv(s);
    var i, p := s.initproc, s.free[0];
    var es := [DoDispatch, DoAlloc(i), DoFork(i, p)];
    hide Inv, Booted, Parenting, Doomed, Starvable;
    var t := Final(s, es);
    MadeHigh(t, p, s.free[1..]);
    RunSnoc(s, es, DoSetPriority(i, 1, HIGH));
    assert es + [DoSetPriority(i, 1, HIGH)] == [DoDispatch, DoAlloc(i), DoFork(i, p), DoSetPriority(i, 1, HIGH)];
    DoomedStarves(Next(t, DoSetPriority(i, 1, HIGH)), p, i);
  }

  lemma DoomedStarves(s: State, q: nat, h: nat)
    requires Inv(s) && Doomed(s, q, h)
    ensures Starvable(s, q)
  {
    forall n: nat ensures StarvedFor(s, q, n) {
      Spin(s, q, h, n);
    }
  }

  lemma MadeHigh(t: State, p: nat, free: seq<nat>)
    requires Parenting(t, [p], free)
    ensures var e := DoSetPriority(t.initproc, 1, HIGH);
            Inv(t) && Enabled(t, e) && Inv(Next(t, e)) && Doomed(Next(t, e), p, t.initproc) &&
              Is(Next(t, e), p, RUNNABLE)
  {
    MadeHighStep(t, p, free);
    ParentingWf(t, [p], free);
    hide Inv, Enabled, Next, Parenting;
    NextInv(t, DoSetPriority(t.initproc, 1, HIGH));
  }

  lemma MadeHighStep(t: State, p: nat, free: seq<nat>)
    requires Parenting(t, [p], free)
    ensures var i := t.initproc;
            var e := DoSetPriority(i, 1, HIGH);
            && Inv(t) && Enabled(t, e) && p < NPROC && Is(t, p, RUNNABLE) && t.procs[p].priority == DEFAULTPRIO
            && i < NPROC && Is(t, i, RUNNING) && !t.procs[i].killed && t.ready[HIGH] == [] && t.timeToReset == COUNT - 1
            && Next(t, e) == t.(procs := t.procs[i := t.procs[i].(priority := HIGH)])
  {
    hide Lists, FreeOk, NoLostChild, Family, Pids, FirstPid, Put, Unqueue, SetPriorityFaults;
    var i := t.initproc;
    assert [p][0] == p;
    PidNames(t, i);
    NoFaultRunning(t, i);
  }

  lemma NoFaultRunning(t: State, i: nat)
    requires Inv(t) && Is(t, i, RUNNING)
    ensures !SetPriorityFaults(t, t.procs[i].pid, HIGH)
  {
    PidNames(t, i);
    hide Lists, FreeOk, NoLostChild, Family, Pids, FirstPid;
  }
}
