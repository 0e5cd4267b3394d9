/** How long a RUNNABLE process can wait (scheduler and resetReadyList in proc.c). */
module Fairness {

  import opened ProcSpec

  ghost predicate NoSetPriority(es: seq<Event>) {
    forall i | 0 <= i < |es| :: !es[i].DoSetPriority?
  }

  ghost function Dispatches(es: seq<Event>): (n: nat) {
    if es == [] then 0 else (if es[0].DoDispatch? then 1 else 0) + Dispatches(es[1..])
  }

  /** No dispatch of the run picks q. */
  ghost predicate Passes(s: State, es: seq<Event>, q: nat)
    requires Run(s, es)
    decreases |es|
  {
    es == [] || ((es[0].DoDispatch? ==> Pick(s) != q) && Passes(Next(s, es[0]), es[1..], q))
  }

  /** A killed process goes on to exit: it does not yield and does not sleep. */
  ghost predicate Behaves(s: State, e: Event)
    requires Wf(s)
  {
    (e.DoYield? || e.DoSleep?) && e.q < NPROC ==> !s.procs[e.q].killed
  }

  /** All killed processes of the run behave. */
  ghost predicate Orderly(s: State, es: seq<Event>)
    requires Run(s, es)
    decreases |es|
  {
    es == [] || (Behaves(s, es[0]) && Orderly(Next(s, es[0]), es[1..]))
  }

  /** Wherever the run resets the lists, the process picked there is not a HIGH one, or, in an
      orderly run, one that is killed. */
  ghost predicate ResetsPickNoHigh(s: State, es: seq<Event>, orderly: bool)
    requires Run(s, es)
    decreases |es|
  {
    es == [] || ((es[0].DoDispatch? && s.timeToReset == 1 ==> Harmless(s.procs[Pick(s)], orderly))
                 && ResetsPickNoHigh(Next(s, es[0]), es[1..], orderly))
  }

  predicate Harmless(p: Proc, orderly: bool) {
    p.priority != HIGH || (orderly && p.killed)
  }

  /** Lists only grow at their tails; RUNNABLE processes stay. */
  ghost predicate Grows(s: State, t: State)
    requires Wf(s) && Wf(t)
  {
    && t.timeToReset == s.timeToReset
    && (forall i: nat | i < SIZE :: s.ready[i] <= t.ready[i])
    && (forall p: nat | p < NPROC && s.procs[p].state == RUNNABLE ::
          t.procs[p].state == RUNNABLE && t.procs[p].priority == s.procs[p].priority)
    && (forall p: nat | p < NPROC && ActiveHigh(t, p) :: ActiveHigh(s, p) && (s.procs[p].killed ==> t.procs[p].killed))
  }

  ghost predicate ActiveHigh(s: State, p: nat)
    requires Wf(s)
  {
    p < NPROC && Active(s.procs[p]) && s.procs[p].priority == HIGH
  }

  lemma GrowsTrans(s: State, t: State, u: State)
    requires Wf(s) && Wf(t) && Wf(u) && Grows(s, t) && Grows(t, u)
    ensures Grows(s, u)
  {
    forall i: nat | i < SIZE ensures s.ready[i] <= u.ready[i] {
      assert s.ready[i] <= t.ready[i] <= u.ready[i];
    }
  }

  lemma WakeGrows(s: State, p: nat)
    requires Wf(s) && p < NPROC && (s.procs[p].state == SLEEPING || s.procs[p].state == RUNNING)
    ensures Wf(Wake(s, p)) && Grows(s, Wake(s, p))
  {
    WakeWf(s, p);
  }

  lemma {:induction false} WakeUpToGrows(s: State, ch: Chan, n: nat)
    requires Wf(s) && n <= NPROC
    ensures Grows(s, WakeUpTo(s, ch, n))
  {
    if n > 0 {
      WakeUpToGrows(s, ch, n - 1);
      var t := WakeUpTo(s, ch, n - 1);
      hide Grows, Wf;
      if t.procs[n - 1].state == SLEEPING && t.procs[n - 1].chan == ch {
        WakeGrows(t, n - 1);
        GrowsTrans(s, t, Wake(t, n - 1));
      }
    }
  }

  lemma {:induction false} ReparentGrows(s: State, q: nat, n: nat)
    requires Wf(s) && n <= NPROC
    ensures Grows(s, Reparent(s, q, n))
  {
    if n > 0 {
      ReparentGrows(s, q, n - 1);
      var t := Reparent(s, q, n - 1);
      if t.procs[n - 1].parent == q {
        var u := t.(procs := t.procs[n - 1 := t.procs[n - 1].(parent := t.initproc)]);
        assert Grows(t, u);
        hide Grows, Wf;
        GrowsTrans(s, t, u);
        if u.procs[n - 1].state == ZOMBIE {
          WakeUpToGrows(u, OfProc(u.initproc), NPROC);
          GrowsTrans(s, u, WakeUpTo(u, OfProc(u.initproc), NPROC));
        }
      }
    }
  }

  lemma ExitGrows(s: State, q: nat)
    requires Inv(s) && q < NPROC && s.procs[q].state == RUNNING && q != s.initproc
    ensures Wf(Exit(s, q)) && Grows(s, Exit(s, q))
  {
    hide Lists, FreeOk, NoLostChild, Pids;
    ExitInv(s, q);
    var ch := OfProc(s.procs[q].parent);
    WakeUpToGrows(s, ch, NPROC);
    var t := WakeUpTo(s, ch, NPROC);
    ReparentGrows(t, q, NPROC);
    var u := Reparent(t, q, NPROC);
    WakeUpToProcs(s, ch, NPROC);
    ReparentProcs(t, q, NPROC);
    assert u.procs[q].state == RUNNING;
    hide Grows, Wf;
    OneSlotGrows(u, SetState(u, q, ZOMBIE), q);
    GrowsTrans(s, t, u);
    GrowsTrans(s, u, SetState(u, q, ZOMBIE));
  }

  lemma ForkGrows(s: State, q: nat, p: nat)
    requires Inv(s) && q < NPROC && p < NPROC && s.procs[q].state == RUNNING && s.procs[p].state == EMBRYO
    ensures Wf(ForkDone(s, q, p)) && Grows(s, ForkDone(s, q, p))
  {
    ForkDoneInv(s, q, p);
  }

  lemma KillGrows(s: State, pid: nat)
    requires Inv(s)
    ensures Wf(Kill(s, pid)) && Grows(s, Kill(s, pid))
  {
    hide Lists, FreeOk, NoLostChild, Family, Pids;
    KillInv(s, pid);
  }

  /** A slot that is not RUNNABLE may change, if it does not come to life. */
  lemma OneSlotGrows(s: State, t: State, p: nat)
    requires Wf(s) && Wf(t) && p < NPROC && t.procs == s.procs[p := t.procs[p]]
    requires t.ready == s.ready && t.timeToReset == s.timeToReset && s.procs[p].state != RUNNABLE &&
             t.procs[p].state != RUNNABLE
    requires Active(t.procs[p]) ==>
               Active(s.procs[p]) && t.procs[p].priority == s.procs[p].priority &&
               t.procs[p].killed == s.procs[p].killed
    ensures Grows(s, t)
  {
  }

  lemma AllocGrows(s: State)
    requires Inv(s)
    ensures Wf(Alloc(s)) && Grows(s, Alloc(s))
  {
    AllocInv(s);
    hide Lists, NoLostChild, Family, Pids;
    if s.free != [] {
      assert s.free[0] in s.free;
      OneSlotGrows(s, Alloc(s), s.free[0]);
    }
  }

  lemma InvShape(s: State)
    requires Inv(s)
    ensures Wf(s) && |s.procs| == NPROC
  {
  }

  lemma WaitGrows(s: State, q: nat)
    requires Inv(s) && q < NPROC && s.procs[q].state == RUNNING
    ensures Wf(Wait(s, q)) && Grows(s, Wait(s, q))
  {
    hide Lists, FreeOk, NoLostChild, Family, Pids, Wf, Grows, HasKids;
    InvShape(s);
    WaitInv(s, q);
    InvShape(Wait(s, q));
    var z := FirstZombie(s.procs, q, 0);
    OneSlotGrows(s, Wait(s, q), if z < NPROC then z else q);
  }

  /** Steps that change one slot and no list. */
  lemma SlotStepGrows(s: State, e: Event)
    requires Inv(s) && Enabled(s, e) && (e.DoSleep? || e.DoTidy? || e.DoAllocFail? || e.DoForkFail?)
    ensures Wf(Next(s, e)) && Grows(s, Next(s, e))
  {
    InvShape(s);
    NextInv(s, e);
    InvShape(Next(s, e));
    hide Inv, Grows;
    match e
    case DoSleep(q, _) => OneSlotGrows(s, Next(s, e), q);
    case DoTidy(q) => OneSlotGrows(s, Next(s, e), q);
    case DoAllocFail(_, p) => OneSlotGrows(s, Next(s, e), p);
    case DoForkFail(_, p) => OneSlotGrows(s, Next(s, e), p);
  }

  /** Every step but a dispatch or setPriority only appends to the lists. */
  lemma StepGrows(s: State, e: Event)
    requires Inv(s) && Enabled(s, e) && !e.DoDispatch? && !e.DoSetPriority?
    ensures Inv(Next(s, e)) && Grows(s, Next(s, e))
  {
    InvShape(s);
    hide Inv, Grows, Wake, WakeUpTo, Exit, ForkDone, Kill, Wait, Alloc, Sleep, AllocFail, ForkFail;
    NextInv(s, e);
    match e
    case DoYield(q) => WakeGrows(s, q);
    case DoWakeup(_, a) => WakeUpToGrows(s, Other(a), NPROC);
    case DoInterrupt(a) => WakeUpToGrows(s, Device(a), NPROC);
    case DoKill(_, pid) => KillGrows(s, pid);
    case DoExit(q) => ExitGrows(s, q);
    case DoFork(q, p) => ForkGrows(s, q, p);
    case DoWait(q) => WaitGrows(s, q);
    case DoAlloc(_) => AllocGrows(s);
    case _ => SlotStepGrows(s, e);
  }

  // ----- no HIGH process left

  /** Nobody is HIGH, or, in an orderly run, only killed processes that are about to exit. */
  ghost predicate NoHigh(s: State, orderly: bool)
    requires Wf(s)
  {
    forall p: nat | ActiveHigh(s, p) :: orderly && s.procs[p].killed && s.procs[p].state == RUNNING
  }

  /** q is the k-th of the default list and nobody is HIGH. */
  ghost predicate Queued(s: State, q: nat, k: nat, orderly: bool) {
    Inv(s) && NoHigh(s, orderly) && k < |s.ready[DEFAULTPRIO]| && s.ready[DEFAULTPRIO][k] == q
  }

  lemma HighListed(s: State, p: nat)
    requires Inv(s) && p in s.ready[HIGH]
    ensures ActiveHigh(s, p) && s.procs[p].state == RUNNABLE
  {
    hide NoLostChild, Family, Pids, FreeOk;
  }

  lemma HighNotListed(s: State, orderly: bool)
    requires Inv(s) && s.ready[HIGH] != []
    ensures !NoHigh(s, orderly)
  {
    hide Lists, NoLostChild, Family, Pids, FreeOk;
    HighListed(s, s.ready[HIGH][0]);
  }

  lemma NoHighList(s: State, orderly: bool)
    requires Inv(s) && NoHigh(s, orderly)
    ensures s.ready[HIGH] == []
  {
    hide Lists, NoLostChild, Family, Pids, FreeOk, NoHigh;
    if s.ready[HIGH] != [] {
      HighNotListed(s, orderly);
    }
  }

  /** A killed process that is RUNNING stays so, or ends, in a step that behaves. */
  lemma StaysRunning(s: State, e: Event, p: nat)
    requires Inv(s) && Enabled(s, e) && !e.DoDispatch? && !e.DoSetPriority? && Behaves(s, e)
    requires p < NPROC && s.procs[p].state == RUNNING && s.procs[p].killed
    ensures Inv(Next(s, e)) && (Active(Next(s, e).procs[p]) ==> Next(s, e).procs[p].state == RUNNING)
  {
    hide Lists, FreeOk, NoLostChild, Pids, WakeUpTo, Exit, Kill, Wait, Alloc;
    NextInv(s, e);
    match e
    case DoWakeup(_, a) => WakeUpToProcs(s, Other(a), NPROC);
    case DoInterrupt(a) => WakeUpToProcs(s, Device(a), NPROC);
    case DoExit(q) => ExitProcs(s, q);
    case DoKill(_, pid) => KillStays(s, pid, p);
    case DoWait(q) => WaitStays(s, q, p);
    case DoAlloc(_) => AllocStays(s, p);
    case _ =>
  }

  lemma KillStays(s: State, pid: nat, p: nat)
    requires Wf(s) && p < NPROC && s.procs[p].state == RUNNING
    ensures |Kill(s, pid).procs| == NPROC && Kill(s, pid).procs[p].state == RUNNING
  {
    hide FirstPid;
  }

  lemma WaitStays(s: State, q: nat, p: nat)
    requires Wf(s) && q < NPROC && p < NPROC && s.procs[p].state == RUNNING && s.procs[p].killed
    ensures |Wait(s, q).procs| == NPROC && Wait(s, q).procs[p].state == RUNNING
  {
    hide HasKids, FirstZombie;
  }

  lemma AllocStays(s: State, p: nat)
    requires Inv(s) && p < NPROC && s.procs[p].state == RUNNING
    ensures |Alloc(s).procs| == NPROC && Alloc(s).procs[p].state == RUNNING
  {
    hide Lists, NoLostChild, Family, Pids;
    if s.free != [] {
      assert s.free[0] in s.free;
    }
  }

  lemma StepNoHigh(s: State, e: Event, orderly: bool)
    requires Inv(s) && Enabled(s, e) && !e.DoDispatch? && !e.DoSetPriority? && NoHigh(s, orderly) &&
             (orderly ==> Behaves(s, e))
    ensures Inv(Next(s, e)) && NoHigh(Next(s, e), orderly)
  {
    hide Lists, FreeOk, NoLostChild, Family, Pids, Next, Enabled;
    StepGrows(s, e);
    var t := Next(s, e);
    forall p: nat | ActiveHigh(t, p) ensures orderly && t.procs[p].killed && t.procs[p].state == RUNNING {
      assert ActiveHigh(s, p);
      StaysRunning(s, e, p);
    }
  }

  /** What a dispatch does to the lists and the priorities. */
  lemma DispatchReady(s: State)
    requires Inv(s) && s.ready[Top(s)] != []
    ensures var t, r := Popped(s), Dispatch(s);
            && r.timeToReset == (if s.timeToReset == 1 then COUNT else s.timeToReset - 1)
            && r.ready == (if s.timeToReset == 1 then [[], t.ready[DEFAULTPRIO] + t.ready[HIGH] + t.ready[LOW], []]
                 else t.ready)
            && (forall p: nat | p < NPROC && Active(s.procs[p]) && p != Pick(s) && p < |r.procs| ::
                  r.procs[p].priority == (if s.timeToReset == 1 then DEFAULTPRIO else s.procs[p].priority))
  {
    PoppedLists(s);
    hide NoLostChild, Family, Pids, FreeOk;
    var t := Popped(s);
    forall p: nat | p < NPROC && Active(s.procs[p]) && p != Pick(s) && s.timeToReset == 1
      ensures ResetProc(t, p).priority == DEFAULTPRIO
    {
      if s.procs[p].state == RUNNABLE {
        assert p in t.ready[t.procs[p].priority];
      }
    }
  }

  lemma DispatchKeepsNoHigh(s: State, orderly: bool)
    requires Inv(s) && s.ready[Top(s)] != []
    requires NoHigh(s, orderly) || (s.timeToReset == 1 && Harmless(s.procs[Pick(s)], orderly))
    ensures Inv(Dispatch(s)) && NoHigh(Dispatch(s), orderly)
  {
    DispatchInv(s);
    DispatchReady(s);
    DispatchProcs(s);
    hide Lists, FreeOk, NoLostChild, Family, Pids, Dispatch, Wf;
  }

  lemma DispatchQueued(s: State, q: nat, k: nat, orderly: bool)
    requires Queued(s, q, k, orderly) && Pick(s) != q
    ensures k > 0 && Queued(Dispatch(s), q, k - 1, orderly)
  {
    NoHighList(s, orderly);
    DispatchKeepsNoHigh(s, orderly);
    DispatchReady(s);
    hide Lists, FreeOk, NoLostChild, Family, Pids, Dispatch, NoHigh;
  }

  lemma StepQueued(s: State, e: Event, q: nat, k: nat, orderly: bool)
    requires Queued(s, q, k, orderly) && Enabled(s, e) && !e.DoDispatch? && !e.DoSetPriority? &&
             (orderly ==> Behaves(s, e))
    ensures Queued(Next(s, e), q, k, orderly)
  {
    hide Lists, FreeOk, NoLostChild, Family, Pids, NoHigh, Next, Enabled;
    StepGrows(s, e);
    StepNoHigh(s, e, orderly);
  }

  /** With nobody HIGH, the default list is served in order. */
  lemma {:induction false} QueuedWait(s: State, es: seq<Event>, q: nat, k: nat, orderly: bool)
    requires Queued(s, q, k, orderly) && Run(s, es) && NoSetPriority(es) && Passes(s, es, q) &&
             (orderly ==> Orderly(s, es))
    ensures Dispatches(es) <= k
    decreases |es|
  {
    hide Queued;
    if es != [] {
      assert es[0] == es[0] && !es[0].DoSetPriority?;
      var t := Next(s, es[0]);
      QueuedInv(s, q, k, orderly);
      hide Next, Inv, Wf, Enabled, Passes, Behaves;
      PassesFirst(s, es, q);
      if es[0].DoDispatch? {
        NextDispatch(s, es[0]);
        DispatchQueued(s, q, k, orderly);
        QueuedWait(t, es[1..], q, k - 1, orderly);
      } else {
        StepQueued(s, es[0], q, k, orderly);
        QueuedWait(t, es[1..], q, k, orderly);
      }
    }
  }

  lemma QueuedInv(s: State, q: nat, k: nat, orderly: bool)
    requires Queued(s, q, k, orderly)
    ensures Inv(s) && s.ready[Top(s)] != []
  {
    NoHighList(s, orderly);
  }

  lemma NextDispatch(s: State, e: Event)
    requires Wf(s) && Enabled(s, e) && e.DoDispatch?
    ensures Next(s, e) == Dispatch(s)
  {
  }

  lemma PassesFirst(s: State, es: seq<Event>, q: nat)
    requires Run(s, es) && Passes(s, es, q) && es != [] && Inv(s) && s.ready[Top(s)] != []
    ensures Enabled(s, es[0]) && Run(Next(s, es[0]), es[1..]) && Passes(Next(s, es[0]), es[1..], q)
    ensures es[0].DoDispatch? ==> Pick(s) != q
  {
  }

  // ----- bounded waiting

  lemma {:induction false} DistinctBelow(l: seq<nat>, n: nat)
    requires Distinct(l) && forall x | x in l :: x < n
    ensures |l| <= n
    decreases n
  {
    hide Without;
    if l != [] {
      assert l[0] in l;
      WithoutLength(l, n - 1);
      DistinctBelow(Without(l, n - 1), n - 1);
    }
  }

  lemma {:induction false} WithoutLength(l: seq<nat>, x: nat)
    requires Distinct(l)
    ensures |Without(l, x)| >= |l| - 1
  {
    if l != [] {
      assert Distinct(l[1..]);
      if l[0] == x {
        assert x !in l[1..];
        WithoutAbsent(l[1..], x);
      } else {
        WithoutLength(l[1..], x);
      }
    }
  }

  /** A list that leaves out one process has at most NPROC - 1 members. */
  lemma ShortList(l: seq<nat>, p: nat)
    requires Distinct(l) && p < NPROC && forall x | x in l :: x < NPROC && x != p
    ensures |l| <= NPROC - 1
  {
    DistinctConcat(l, [p]);
    DistinctBelow(l + [p], NPROC);
  }

  lemma DefaultList(s: State, q: nat, p: nat)
    requires Inv(s) && q < NPROC && p < NPROC && s.procs[q].state == RUNNABLE &&
             s.procs[q].priority == DEFAULTPRIO && s.procs[p].state == RUNNING
    ensures var l := s.ready[DEFAULTPRIO]; q in l && Distinct(l) && forall x | x in l :: x < NPROC && x != p
  {
    hide NoLostChild, Family, Pids, FreeOk;
  }

  /** A reset that picks somebody else, not HIGH, queues q with at most NPROC - 2 ahead of it. */
  lemma ResetQueues(s: State, q: nat, orderly: bool) returns (k: nat)
    requires Inv(s) && q < NPROC && s.procs[q].state == RUNNABLE && s.timeToReset == 1
    requires s.ready[Top(s)] != [] && Pick(s) != q && Harmless(s.procs[Pick(s)], orderly)
    ensures k <= NPROC - 2 && Queued(Dispatch(s), q, k, orderly)
  {
    hide Lists, NoLostChild, Family, Pids, FreeOk, Dispatch, Popped;
    DispatchKeepsNoHigh(s, orderly);
    DispatchReady(s);
    DispatchProcs(s);
    var r := Dispatch(s);
    DefaultList(r, q, Pick(s));
    k :| 0 <= k < |r.ready[DEFAULTPRIO]| && r.ready[DEFAULTPRIO][k] == q;
    ShortList(r.ready[DEFAULTPRIO], Pick(s));
  }

  /** A dispatch of somebody else leaves q RUNNABLE. */
  lemma DispatchKeepsRunnable(s: State, q: nat)
    requires Inv(s) && q < NPROC && s.procs[q].state == RUNNABLE && s.ready[Top(s)] != [] && Pick(s) != q
    ensures Inv(Dispatch(s)) && Dispatch(s).procs[q].state == RUNNABLE
  {
    DispatchInv(s);
    DispatchProcs(s);
    hide Lists, NoLostChild, Family, Pids, FreeOk, Dispatch;
  }

  /** Where the reset never picks a HIGH process (in an orderly run: one that is not killed), a
      process that is passed over all the time sees at most timeToReset + NPROC - 2 dispatches: it is
      picked by the next one. */
  lemma {:induction false} BoundedWaiting(s: State, es: seq<Event>, q: nat, orderly: bool)
    requires Inv(s) && q < NPROC && s.procs[q].state == RUNNABLE
    requires Run(s, es) && NoSetPriority(es) && Passes(s, es, q)
    requires ResetsPickNoHigh(s, es, orderly) && (orderly ==> Orderly(s, es))
    ensures Dispatches(es) <= s.timeToReset + NPROC - 2
    decreases |es|
  {
    if es != [] {
      assert es[0] == es[0] && !es[0].DoSetPriority?;
      var t := Next(s, es[0]);
      hide Lists, NoLostChild, Family, Pids, FreeOk, Dispatch, Next, Queued;
      if es[0].DoDispatch? {
        NextDispatch(s, es[0]);
        if s.timeToReset == 1 {
          var k := ResetQueues(s, q, orderly);
          QueuedWait(t, es[1..], q, k, orderly);
        } else {
          DispatchKeepsRunnable(s, q);
          DispatchReady(s);
          BoundedWaiting(t, es[1..], q, orderly);
        }
      } else {
        StepGrows(s, es[0]);
        BoundedWaiting(t, es[1..], q, orderly);
      }
    }
  }
}
