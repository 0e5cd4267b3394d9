/** When a RUNNABLE process can be passed over for ever although nobody calls setPriority: the
    process that the resetting dispatch picks keeps its priority (proc.c). */
module Starvation {

  import opened ProcSpec
  import opened Fairness

  /** An orderly run without setPriority that never dispatches q. */
  ghost predicate Passing(s: State, es: seq<Event>, q: nat) {
    Run(s, es) && NoSetPriority(es) && Orderly(s, es) && Passes(s, es, q)
  }

  /** Some such run makes n dispatches or more. */
  ghost predicate StarvedFor(s: State, q: nat, n: nat) {
    exists es :: Passing(s, es, q) && Dispatches(es) >= n
  }

  ghost predicate Starvable(s: State, q: nat) {
    forall n: nat :: StarvedFor(s, q, n)
  }

  /** HIGH, and not on the way to exit. */
  ghost predicate LiveHigh(s: State, p: nat)
    requires Wf(s)
  {
    ActiveHigh(s, p) && !s.procs[p].killed
  }

  predicate Awake(p: Proc) {
    p.state == RUNNABLE || p.state == RUNNING
  }

  /** q waits, and a live HIGH process h is the one that the coming reset picks, if the scheduler and
      the processes so choose: with as many HIGH processes queued as dispatches left, the last of
      them in time; with fewer, any that is awake. */
  ghost predicate Doomed(s: State, q: nat, h: nat)
    requires Wf(s)
  {
    var l, n := s.ready[HIGH], s.timeToReset;
    && q < NPROC && s.procs[q].state == RUNNABLE && LiveHigh(s, h)
    && if |l| >= n then l[n - 1] == h && q !in l[..n]
       else s.procs[q].priority != HIGH && Awake(s.procs[h])
  }

  // ----- runs step by step

  /** Prefix a run with one step. */
  lemma PassingCons(s: State, e: Event, es: seq<Event>, q: nat)
    requires Wf(s) && Enabled(s, e) && !e.DoSetPriority? && (e.DoDispatch? ==> Pick(s) != q) && Behaves(s, e)
    requires Passing(Next(s, e), es, q)
    ensures Passing(s, [e] + es, q) && Final(s, [e] + es) == Final(Next(s, e), es)
    ensures Dispatches([e] + es) == Dispatches(es) + if e.DoDispatch? then 1 else 0
  {
    hide Enabled, Next, Wf, Behaves;
    var fs := [e] + es;
    assert fs[1..] == es && fs[0] == e;
    assert Run(s, fs);
  }

  lemma StarveCons(s: State, e: Event, q: nat, n: nat)
    requires Wf(s) && Enabled(s, e) && !e.DoSetPriority? && (e.DoDispatch? ==> Pick(s) != q) && Behaves(s, e)
    requires StarvedFor(Next(s, e), q, n)
    ensures StarvedFor(s, q, if e.DoDispatch? then n + 1 else n)
  {
    var t := Next(s, e);
    var es :| Passing(t, es, q) && Dispatches(es) >= n;
    hide Enabled, Next, Wf, Behaves, Passing, Dispatches;
    PassingCons(s, e, es, q);
  }

  lemma PassingNone(s: State, q: nat)
    requires Wf(s)
    ensures Passing(s, [], q) && Final(s, []) == s && Dispatches([]) == 0
  {
  }

  lemma StarveNone(s: State, q: nat)
    requires Wf(s)
    ensures StarvedFor(s, q, 0)
  {
    PassingNone(s, q);
  }

  /** Where a process stands in the HIGH list. */
  lemma InHighList(s: State, p: nat)
    requires Inv(s)
    ensures p in s.ready[HIGH] <==> ActiveHigh(s, p) && s.procs[p].state == RUNNABLE
    ensures Distinct(s.ready[HIGH])
  {
    hide NoLostChild, Family, Pids, FreeOk;
  }

  lemma HighTop(s: State)
    requires Inv(s) && s.ready[HIGH] != []
    ensures Top(s) == HIGH && Pick(s) == s.ready[HIGH][0] && Popped(s).ready[HIGH] == s.ready[HIGH][1..]
  {
    hide Lists, NoLostChild, Family, Pids, FreeOk;
  }

  /** The dispatch that keeps q doomed. */
  lemma DoomedDispatch(s: State, q: nat, h: nat)
    requires Inv(s) && Doomed(s, q, h) && s.ready[HIGH] != []
    ensures s.ready[Top(s)] != [] && Pick(s) != q && Inv(Dispatch(s)) && Doomed(Dispatch(s), q, h)
  {
    hide Lists, NoLostChild, Family, Pids, FreeOk, Dispatch, Popped;
    HighTop(s);
    InHighList(s, q);
    var l := s.ready[HIGH];
    assert l[0] in l;
    if |l| >= s.timeToReset {
      assert l[0] == l[..s.timeToReset][0];
    }
    DispatchKeepsRunnable(s, q);
    DispatchReady(s);
    DispatchProcs(s);
    var t := Dispatch(s);
    if |l| >= s.timeToReset > 1 {
      assert l[1..][..s.timeToReset - 1] == l[..s.timeToReset][1..];
      assert forall x | x in l[..s.timeToReset][1..] :: x in l[..s.timeToReset];
    }
  }

  /** A live HIGH process that is running yields and stays in the game. */
  lemma DoomedYield(s: State, q: nat, h: nat)
    requires Inv(s) && Doomed(s, q, h) && s.ready[HIGH] == [] && s.procs[h].state == RUNNING
    ensures var e := DoYield(h);
            Enabled(s, e) && Behaves(s, e) && Inv(Next(s, e)) && Doomed(Next(s, e), q, h) &&
              Next(s, e).ready[HIGH] != []
  {
    hide Lists, NoLostChild, Family, Pids, FreeOk;
    NextInv(s, DoYield(h));
    var t := Next(s, DoYield(h));
    assert t.ready[HIGH] == [h];
    if s.timeToReset == 1 {
      assert t.ready[HIGH][..1] == [h];
    }
  }

  lemma DoomedRunning(s: State, q: nat, h: nat)
    requires Inv(s) && Doomed(s, q, h) && s.ready[HIGH] == []
    ensures s.procs[h].state == RUNNING
  {
    InHighList(s, h);
    hide Lists, NoLostChild, Family, Pids, FreeOk;
  }

  /** A doomed process can be passed over for ever. */
  lemma {:induction false} Spin(s: State, q: nat, h: nat, n: nat)
    requires Inv(s) && Doomed(s, q, h)
    ensures StarvedFor(s, q, n)
    decreases n, if s.ready[HIGH] == [] then 1 else 0
  {
    hide Inv, Doomed, Dispatch, StarvedFor, Behaves;
    InvShape(s);
    if n == 0 {
      StarveNone(s, q);
    } else if s.ready[HIGH] == [] {
      DoomedRunning(s, q, h);
      DoomedYield(s, q, h);
      Spin(Next(s, DoYield(h)), q, h, n);
      StarveCons(s, DoYield(h), q, n);
    } else {
      DoomedDispatch(s, q, h);
      Spin(Dispatch(s), q, h, n - 1);
      BehavesDispatch(s);
      assert Next(s, DoDispatch) == Dispatch(s);
      StarveCons(s, DoDispatch, q, n - 1);
    }
  }

  lemma BehavesDispatch(s: State)
    requires Wf(s)
    ensures Behaves(s, DoDispatch)
  {
  }

  // ----- at the reset

  /** Exactly a resetting dispatch of a live HIGH process lets the others be starved without end. */
  lemma ResetStarvesIff(s: State, q: nat)
    requires Inv(s) && q < NPROC && s.procs[q].state == RUNNABLE && s.timeToReset == 1
    requires s.ready[Top(s)] != [] && Pick(s) != q
    ensures Starvable(Dispatch(s), q) <==> s.procs[Pick(s)].priority == HIGH && !s.procs[Pick(s)].killed
  {
    hide Lists, NoLostChild, Family, Pids, FreeOk, Dispatch, Popped;
    DispatchKeepsRunnable(s, q);
    DispatchReady(s);
    DispatchProcs(s);
    var t, h := Dispatch(s), Pick(s);
    if s.procs[h].priority == HIGH && !s.procs[h].killed {
      assert Doomed(t, q, h);
      forall n: nat ensures StarvedFor(t, q, n) {
        Spin(t, q, h, n);
      }
    } else {
      var k := ResetQueues(s, q, true);
      hide Queued;
      assert !StarvedFor(t, q, k + 1) by {
        forall es | Passing(t, es, q) ensures Dispatches(es) <= k {
          QueuedWait(t, es, q, k, true);
        }
      }
    }
  }

  // ----- from any state

  /** The run ends where the next dispatch resets the lists and picks a live HIGH process, not q. */
  ghost predicate AtHighReset(s: State, q: nat) {
    Wf(s) && s.ready[Top(s)] != [] && s.timeToReset == 1 && Pick(s) != q && LiveHigh(s, Pick(s))
  }

  /** Such a state can be reached without setPriority and without a dispatch of q. */
  ghost predicate MeetsHighReset(s: State, q: nat) {
    exists es :: Passing(s, es, q) && AtHighReset(Final(s, es), q)
  }

  lemma MeetsCons(s: State, e: Event, q: nat)
    requires Wf(s) && Enabled(s, e) && !e.DoSetPriority? && (e.DoDispatch? ==> Pick(s) != q) && Behaves(s, e)
    requires MeetsHighReset(Next(s, e), q)
    ensures MeetsHighReset(s, q)
  {
    var t := Next(s, e);
    var es :| Passing(t, es, q) && AtHighReset(Final(t, es), q);
    hide Enabled, Next, Wf, Behaves, AtHighReset, Passing;
    PassingCons(s, e, es, q);
  }

  /** A run with a reset that picks a live HIGH process meets one. */
  lemma {:induction false} FindsHighReset(s: State, es: seq<Event>, q: nat)
    requires Passing(s, es, q) && !ResetsPickNoHigh(s, es, true)
    requires Inv(s)
    ensures MeetsHighReset(s, q)
    decreases |es|
  {
    assert es[0] == es[0] && !es[0].DoSetPriority?;
    if es[0].DoDispatch? && s.timeToReset == 1 && !Harmless(s.procs[Pick(s)], true) {
      hide Lists, NoLostChild, Family, Pids, FreeOk;
      DispatchProcs(s);
      assert AtHighReset(s, q);
      PassingNone(s, q);
    } else {
      hide Lists, NoLostChild, Family, Pids, FreeOk, Next, Behaves, MeetsHighReset;
      NextInv(s, es[0]);
      FindsHighReset(Next(s, es[0]), es[1..], q);
      MeetsCons(s, es[0], q);
    }
  }

  /** A run that passes q over leaves it RUNNABLE. */
  lemma {:induction false} StaysRunnable(s: State, es: seq<Event>, q: nat)
    requires Run(s, es) && NoSetPriority(es) && Passes(s, es, q) && Inv(s) && q < NPROC && s.procs[q].state == RUNNABLE
    ensures Inv(Final(s, es)) && Final(s, es).procs[q].state == RUNNABLE
    decreases |es|
  {
    if es != [] {
      assert es[0] == es[0] && !es[0].DoSetPriority?;
      hide Lists, NoLostChild, Family, Pids, FreeOk, Next, Dispatch;
      if es[0].DoDispatch? {
        NextDispatch(s, es[0]);
        DispatchKeepsRunnable(s, q);
      } else {
        StepGrows(s, es[0]);
      }
      StaysRunnable(Next(s, es[0]), es[1..], q);
    }
  }

  lemma {:induction false} StarveAfter(s: State, es: seq<Event>, q: nat, n: nat)
    requires Passing(s, es, q) && StarvedFor(Final(s, es), q, n)
    ensures StarvedFor(s, q, n)
    decreases |es|
  {
    if es != [] {
      assert es[0] == es[0] && !es[0].DoSetPriority?;
      hide Next, Enabled, Behaves, StarvedFor;
      StarveAfter(Next(s, es[0]), es[1..], q, n);
      StarveCons(s, es[0], q, n);
      StarveLess(s, q, n);
    }
  }

  lemma StarveLess(s: State, q: nat, n: nat)
    requires StarvedFor(s, q, n) || StarvedFor(s, q, n + 1)
    ensures StarvedFor(s, q, n)
  {
  }

  lemma MeetsStarves(s: State, q: nat, es: seq<Event>, n: nat)
    requires Inv(s) && q < NPROC && s.procs[q].state == RUNNABLE && Passing(s, es, q) && AtHighReset(Final(s, es), q)
    ensures StarvedFor(s, q, n)
  {
    hide Inv, StarvedFor, NoSetPriority, Orderly, AtHighReset;
    StaysRunnable(s, es, q);
    HighResetStarves(Final(s, es), q, n);
    StarveAfter(s, es, q, n);
  }

  lemma HighResetStarves(u: State, q: nat, n: nat)
    requires Inv(u) && q < NPROC && u.procs[q].state == RUNNABLE && AtHighReset(u, q)
    ensures StarvedFor(u, q, n)
  {
    hide Inv, Dispatch, StarvedFor, Behaves;
    ResetStarvesIff(u, q);
    assert StarvedFor(Dispatch(u), q, n);
    BehavesDispatch(u);
    assert Next(u, DoDispatch) == Dispatch(u);
    StarveCons(u, DoDispatch, q, n);
    StarveLess(u, q, n);
  }

  lemma MissesBound(s: State, q: nat, es: seq<Event>)
    requires Inv(s) && q < NPROC && s.procs[q].state == RUNNABLE && Passing(s, es, q) && !MeetsHighReset(s, q)
    ensures Dispatches(es) <= s.timeToReset + NPROC - 2
  {
    hide Inv, MeetsHighReset, ResetsPickNoHigh;
    if !ResetsPickNoHigh(s, es, true) {
      FindsHighReset(s, es, q);
    } else {
      BoundedWaiting(s, es, q, true);
    }
  }

  /** A bound for all runs that pass q over is the end of starvation. */
  lemma BoundEnds(s: State, q: nat, k: nat)
    requires forall es | Passing(s, es, q) :: Dispatches(es) <= k
    ensures !Starvable(s, q)
  {
    assert !StarvedFor(s, q, k + 1);
  }

  /** From any state, q can be starved without end exactly if a reset that picks a live HIGH process
      can be reached without dispatching q. */
  lemma StarvationIff(s: State, q: nat)
    requires Inv(s) && q < NPROC && s.procs[q].state == RUNNABLE
    ensures Starvable(s, q) <==> MeetsHighReset(s, q)
  {
    InvShape(s);
    hide Inv, Passing, AtHighReset;
    if MeetsHighReset(s, q) {
      var es :| Passing(s, es, q) && AtHighReset(Final(s, es), q);
      forall n: nat ensures StarvedFor(s, q, n) {
        MeetsStarves(s, q, es, n);
      }
    } else {
      forall es | Passing(s, es, q) ensures Dispatches(es) <= s.timeToReset + NPROC - 2 {
        MissesBound(s, q, es);
      }
      BoundEnds(s, q, s.timeToReset + NPROC - 2);
    }
  }

  // ----- what the state alone tells

  /** A sleeper that an interrupt can put ahead of q. */
  ghost predicate Rival(s: State, q: nat, x: nat)
    requires Wf(s) && q < NPROC
  {
    x < NPROC && s.procs[x].state == SLEEPING && s.procs[x].chan.Device? && s.procs[x].priority < s.procs[q].priority
  }

  /** Somebody other than q runs, or can be made to before q is dispatched and the lists are reset. */
  ghost predicate Company(s: State, q: nat)
    requires Wf(s) && q < NPROC
  {
    || (exists r: nat :: r != q && Is(s, r, RUNNING))
    || (s.timeToReset > 1 && s.ready[Top(s)] != [] && (Pick(s) != q || exists x :: Rival(s, q, x)))
  }

  /** The exit of c wakes h out of wait: c is its child, or leaves a zombie to init. */
  ghost predicate Rouses(s: State, h: nat, c: nat)
    requires Wf(s) && c < NPROC
  {
    s.procs[c].parent == h || (h == s.initproc && exists z: nat :: Leaves(s, c, z))
  }

  ghost predicate Leaves(s: State, c: nat, z: nat)
    requires Wf(s)
  {
    Is(s, z, ZOMBIE) && s.procs[z].parent == c
  }

  /** c runs, and h waits for its exit. */
  ghost predicate Awaited(s: State, h: nat, c: nat)
    requires Wf(s) && h < NPROC
  {
    s.procs[h].chan == OfProc(h) && c != s.initproc && Is(s, c, RUNNING) && Rouses(s, h, c)
  }

  /** h is awake, or can be woken: by an interrupt, by somebody who runs before q, by the exit of
      somebody who runs. */
  ghost predicate CanRun(s: State, q: nat, h: nat)
    requires Wf(s) && q < NPROC && h < NPROC
  {
    var p := s.procs[h];
    Awake(p) || p.chan.Device? || (p.chan.Other? && Company(s, q)) || exists c: nat :: Awaited(s, h, c)
  }

  /** q can be passed over for ever: among the HIGH processes that will be dispatched before the reset
      the last is live, and q is not one of them; or, if there are fewer, q is not HIGH and some
      process that can run is. */
  ghost predicate Exposed(s: State, q: nat)
    requires Wf(s) && q < NPROC
  {
    var l, n := s.ready[HIGH], s.timeToReset;
    if |l| >= n then q !in l[..n] && LiveHigh(s, l[n - 1])
    else s.procs[q].priority != HIGH && exists h: nat :: LiveHigh(s, h) && CanRun(s, q, h)
  }

  /** Killed processes are not asleep: kill wakes them, and they do not sleep again. Whoever sleeps waits
      for a device, for something else that is not a process, or for a child. */
  ghost predicate Settled(s: State)
    requires Wf(s)
  {
    forall p: nat | Is(s, p, SLEEPING) ::
      !s.procs[p].killed && (s.procs[p].chan.Device? || s.procs[p].chan.Other? || s.procs[p].chan == OfProc(p))
  }

  /** What a wakeup adds to the HIGH list was asleep on the channel. */
  lemma WokenHigh(s: State, ch: Chan, x: nat)
    requires Inv(s) && Inv(WakeUpTo(s, ch, NPROC)) && x in WakeUpTo(s, ch, NPROC).ready[HIGH]
    ensures x < NPROC && (x in s.ready[HIGH] ||
            (s.procs[x].state == SLEEPING && s.procs[x].chan == ch && s.procs[x].priority == HIGH))
  {
    var t := WakeUpTo(s, ch, NPROC);
    WakeUpToProcs(s, ch, NPROC);
    hide Lists, NoLostChild, Family, Pids, FreeOk, WakeUpTo;
    InHighList(t, x);
    InHighList(s, x);
  }

  /** Every process that is RUNNABLE now was so before, or asleep. */
  ghost predicate Wakes(s: State, t: State)
    requires Wf(s) && Wf(t)
  {
    forall x: nat | Is(t, x, RUNNABLE) ::
      && (Is(s, x, RUNNABLE) || Is(s, x, SLEEPING))
      && t.procs[x].priority == s.procs[x].priority && t.procs[x].killed == s.procs[x].killed
  }

  /** Waking a live HIGH sleeper dooms q. */
  lemma WakeDooms(s: State, t: State, q: nat, h: nat) returns (g: nat)
    requires Inv(s) && Settled(s) && q < NPROC && s.procs[q].state == RUNNABLE && s.procs[q].priority != HIGH
    requires |s.ready[HIGH]| < s.timeToReset && LiveHigh(s, h) && s.procs[h].state == SLEEPING
    requires Inv(t) && Grows(s, t) && Wakes(s, t) && Is(t, h, RUNNABLE)
    ensures Doomed(t, q, g)
  {
    hide Lists, NoLostChild, Family, Pids, FreeOk;
    var l, n := t.ready[HIGH], t.timeToReset;
    if |l| < n {
      g := h;
    } else {
      g := l[n - 1];
      assert g in l;
      InHighList(t, g);
      NewMember(s.ready[HIGH], l, n - 1);
      InHighList(s, g);
      InHighList(t, q);
      assert q !in l[..n] by {
        assert forall x | x in l[..n] :: x in l;
      }
    }
  }

  lemma WakeupDooms(s: State, q: nat, h: nat) returns (g: nat)
    requires Inv(s) && Settled(s) && q < NPROC && s.procs[q].state == RUNNABLE && s.procs[q].priority != HIGH
    requires |s.ready[HIGH]| < s.timeToReset && LiveHigh(s, h) && s.procs[h].state == SLEEPING
    ensures var t := WakeUpTo(s, s.procs[h].chan, NPROC); Inv(t) && Doomed(t, q, g)
  {
    hide Lists, NoLostChild, Family, Pids, FreeOk, WakeUpTo, Grows, Doomed;
    var ch := s.procs[h].chan;
    WakeupInv(s, ch);
    WakeUpToGrows(s, ch, NPROC);
    WakeUpToProcs(s, ch, NPROC);
    g := WakeDooms(s, WakeUpTo(s, ch, NPROC), q, h);
  }

  lemma ExitDooms(s: State, q: nat, h: nat, c: nat) returns (g: nat)
    requires Inv(s) && Settled(s) && q < NPROC && s.procs[q].state == RUNNABLE && s.procs[q].priority != HIGH
    requires |s.ready[HIGH]| < s.timeToReset && LiveHigh(s, h) && s.procs[h].state == SLEEPING && Awaited(s, h, c)
    ensures Inv(Exit(s, c)) && Doomed(Exit(s, c), q, g)
  {
    hide Lists, NoLostChild, Pids, FreeOk, Exit, Grows, Doomed;
    ExitInv(s, c);
    ExitGrows(s, c);
    ExitProcs(s, c);
    g := WakeDooms(s, Exit(s, c), q, h);
  }

  lemma NewMember(a: seq<nat>, b: seq<nat>, i: nat)
    requires a <= b && Distinct(b) && |a| <= i < |b|
    ensures b[i] !in a
  {
  }

  /** q waits, not HIGH, and there is room in time for one more HIGH process; h sleeps until somebody
      wakes it. */
  ghost predicate Waits(s: State, q: nat, h: nat) {
    && Inv(s) && Settled(s) && q < NPROC && s.procs[q].state == RUNNABLE && s.procs[q].priority != HIGH
    && |s.ready[HIGH]| < s.timeToReset && LiveHigh(s, h) && s.procs[h].state == SLEEPING && s.procs[h].chan.Other?
  }

  lemma StarveByWaker(s: State, q: nat, h: nat, r: nat, n: nat)
    requires Waits(s, q, h) && Is(s, r, RUNNING)
    ensures StarvedFor(s, q, n)
  {
    var e := DoWakeup(r, s.procs[h].chan.a);
    var g := WakeupDooms(s, q, h);
    hide Inv, StarvedFor, WakeUpTo, Doomed;
    Spin(Next(s, e), q, g, n);
    StarveCons(s, e, q, n);
  }

  /** The next dispatch brings somebody who can wake h. */
  lemma DispatchWaits(s: State, q: nat, h: nat)
    requires Waits(s, q, h) && s.timeToReset > 1 && s.ready[Top(s)] != [] && Pick(s) != q
    ensures Waits(Dispatch(s), q, h) && Is(Dispatch(s), Pick(s), RUNNING)
  {
    hide Lists, NoLostChild, Family, Pids, FreeOk, Dispatch, Popped;
    DispatchKeepsRunnable(s, q);
    DispatchReady(s);
    DispatchProcs(s);
    PoppedHigh(s);
  }

  lemma PoppedHigh(s: State)
    requires Inv(s) && s.ready[Top(s)] != []
    ensures Popped(s).ready[HIGH] == if s.ready[HIGH] == [] then [] else s.ready[HIGH][1..]
  {
    hide Lists, NoLostChild, Family, Pids, FreeOk;
  }

  lemma StarveByDispatch(s: State, q: nat, h: nat, n: nat)
    requires Waits(s, q, h) && Wf(s) && s.timeToReset > 1 && s.ready[Top(s)] != [] && Pick(s) != q
    ensures StarvedFor(s, q, n)
  {
    hide Inv, StarvedFor, Dispatch, Behaves, Waits;
    WaitsWf(s, q, h);
    DispatchWaits(s, q, h);
    StarveByWaker(Dispatch(s), q, h, Pick(s), n);
    BehavesDispatch(s);
    assert Next(s, DoDispatch) == Dispatch(s);
    StarveCons(s, DoDispatch, q, n);
    StarveLess(s, q, n);
  }

  lemma WaitsWf(s: State, q: nat, h: nat)
    requires Waits(s, q, h)
    ensures Wf(s) && q < NPROC && h < NPROC
  {
  }

  /** The interrupt for a rival puts it ahead of q; no HIGH process sleeps on a device. */
  lemma RivalWakes(s: State, q: nat, h: nat, x: nat)
    requires Waits(s, q, h) && Rival(s, q, x) && NoDeviceHigh(s)
    ensures var t := Next(s, DoInterrupt(s.procs[x].chan.a));
            && Waits(t, q, h) && t.timeToReset == s.timeToReset && t.ready[Top(t)] != [] && Pick(t) != q
  {
    var ch := s.procs[x].chan;
    var t := Next(s, DoInterrupt(ch.a));
    assert t == WakeUpTo(s, ch, NPROC);
    WakeupInv(s, ch);
    WakeUpToGrows(s, ch, NPROC);
    WakeUpToProcs(s, ch, NPROC);
    InterruptKeepsHigh(s, ch);
    hide Inv, WakeUpTo;
    RivalAhead(t, q, x);
  }

  lemma InterruptKeepsHigh(s: State, ch: Chan)
    requires Inv(s) && Settled(s) && ch.Device? && NoDeviceHigh(s)
    ensures Inv(WakeUpTo(s, ch, NPROC)) && WakeUpTo(s, ch, NPROC).ready[HIGH] == s.ready[HIGH]
  {
    WakeupInv(s, ch);
    WakeUpToGrows(s, ch, NPROC);
    hide Lists, NoLostChild, Family, Pids, FreeOk, WakeUpTo, NoDeviceHigh, Settled;
    if |s.ready[HIGH]| < |WakeUpTo(s, ch, NPROC).ready[HIGH]| {
      NewHigh(s, ch);
    }
  }

  /** No live HIGH process sleeps on a device. */
  ghost predicate NoDeviceHigh(s: State)
    requires Wf(s)
  {
    forall p: nat | LiveHigh(s, p) && s.procs[p].state == SLEEPING :: !s.procs[p].chan.Device?
  }

  lemma NewHigh(s: State, ch: Chan)
    requires Inv(s) && Settled(s) && ch.Device? && |s.ready[HIGH]| < |WakeUpTo(s, ch, NPROC).ready[HIGH]|
    ensures !NoDeviceHigh(s)
  {
    WakeupInv(s, ch);
    WakeUpToGrows(s, ch, NPROC);
    hide Lists, NoLostChild, Family, Pids, FreeOk, WakeUpTo;
    var a, b := s.ready[HIGH], WakeUpTo(s, ch, NPROC).ready[HIGH];
    var x := b[|a|];
    assert x in b;
    WokenHigh(s, ch, x);
    InHighList(WakeUpTo(s, ch, NPROC), x);
    NewMember(a, b, |a|);
    assert Is(s, x, SLEEPING) && LiveHigh(s, x);
  }

  lemma RivalAhead(t: State, q: nat, x: nat)
    requires Inv(t) && q < NPROC && x < NPROC && t.procs[q].state == RUNNABLE && t.procs[x].state == RUNNABLE &&
             t.procs[x].priority < t.procs[q].priority
    ensures t.ready[Top(t)] != [] && Pick(t) != q
  {
    hide NoLostChild, Family, Pids, FreeOk;
    assert x in t.ready[t.procs[x].priority] && q in t.ready[t.procs[q].priority];
  }

  lemma StarveByRival(s: State, q: nat, h: nat, x: nat, n: nat)
    requires Waits(s, q, h) && Rival(s, q, x) && s.timeToReset > 1
    requires NoDeviceHigh(s)
    ensures StarvedFor(s, q, n)
  {
    var e := DoInterrupt(s.procs[x].chan.a);
    RivalWakes(s, q, h, x);
    hide Inv, StarvedFor, Next, Waits, Enabled;
    InterruptEnabled(s, e);
    StarveByDispatch(Next(s, e), q, h, n);
    StarveCons(s, e, q, n);
  }

  lemma InterruptEnabled(s: State, e: Event)
    requires Wf(s) && e.DoInterrupt?
    ensures Enabled(s, e) && Behaves(s, e)
  {
  }

  /** Every exposed process can be starved without end. */
  lemma ExposedStarves(s: State, q: nat)
    requires Inv(s) && Settled(s) && q < NPROC && s.procs[q].state == RUNNABLE && Exposed(s, q)
    ensures Starvable(s, q)
  {
    forall n: nat ensures StarvedFor(s, q, n) {
      ExposedFor(s, q, n);
    }
  }

  lemma ExposedFor(s: State, q: nat, n: nat)
    requires Inv(s) && Settled(s) && q < NPROC && s.procs[q].state == RUNNABLE && Exposed(s, q)
    ensures StarvedFor(s, q, n)
  {
    hide Lists, NoLostChild, Family, Pids, FreeOk, StarvedFor, Company, Starvable, WakeUpTo, Settled;
    var l, k := s.ready[HIGH], s.timeToReset;
    if |l| >= k {
      Spin(s, q, l[k - 1], n);
    } else {
      var h: nat :| LiveHigh(s, h) && CanRun(s, q, h);
      if Awake(s.procs[h]) {
        Spin(s, q, h, n);
      } else if g: nat :| LiveHigh(s, g) && s.procs[g].state == SLEEPING && s.procs[g].chan.Device? {
        StarveByInterrupt(s, q, g, n);
      } else if c: nat :| Awaited(s, h, c) {
        StarveByExit(s, q, h, c, n);
      } else {
        StarveInCompany(s, q, h, n);
      }
    }
  }

  lemma StarveByInterrupt(s: State, q: nat, g: nat, n: nat)
    requires Inv(s) && Settled(s) && q < NPROC && s.procs[q].state == RUNNABLE && s.procs[q].priority != HIGH
    requires |s.ready[HIGH]| < s.timeToReset && LiveHigh(s, g) && s.procs[g].state == SLEEPING &&
             s.procs[g].chan.Device?
    ensures StarvedFor(s, q, n)
  {
    hide Lists, NoLostChild, Family, Pids, FreeOk, StarvedFor, WakeUpTo, Doomed;
    var e := DoInterrupt(s.procs[g].chan.a);
    var d := WakeupDooms(s, q, g);
    assert Next(s, e) == WakeUpTo(s, s.procs[g].chan, NPROC);
    Spin(Next(s, e), q, d, n);
    InterruptEnabled(s, e);
    StarveCons(s, e, q, n);
  }

  lemma StarveByExit(s: State, q: nat, h: nat, c: nat, n: nat)
    requires Inv(s) && Settled(s) && q < NPROC && s.procs[q].state == RUNNABLE && s.procs[q].priority != HIGH
    requires |s.ready[HIGH]| < s.timeToReset && LiveHigh(s, h) && s.procs[h].state == SLEEPING && Awaited(s, h, c)
    ensures StarvedFor(s, q, n)
  {
    hide Inv, StarvedFor, Exit, Doomed;
    InvShape(s);
    var g := ExitDooms(s, q, h, c);
    assert Next(s, DoExit(c)) == Exit(s, c);
    Spin(Exit(s, c), q, g, n);
    StarveCons(s, DoExit(c), q, n);
  }

  lemma StarveInCompany(s: State, q: nat, h: nat, n: nat)
    requires Waits(s, q, h) && Company(s, q)
    requires NoDeviceHigh(s)
    ensures StarvedFor(s, q, n)
  {
    hide Inv, StarvedFor, Waits;
    WaitsWf(s, q, h);
    if r: nat :| r != q && Is(s, r, RUNNING) {
      StarveByWaker(s, q, h, r, n);
    } else if Pick(s) != q {
      StarveByDispatch(s, q, h, n);
    } else {
      var x :| Rival(s, q, x);
      StarveByRival(s, q, h, x, n);
    }
  }

  // ----- and when it cannot

  /** A HIGH process whose turn comes before the reset waits for those ahead of it only. */
  lemma {:induction false} HighWait(s: State, es: seq<Event>, q: nat, k: nat)
    requires Inv(s) && k < |s.ready[HIGH]| && k < s.timeToReset && s.ready[HIGH][k] == q
    requires Run(s, es) && NoSetPriority(es) && Passes(s, es, q)
    ensures Dispatches(es) <= k
    decreases |es|
  {
    if es != [] {
      assert es[0] == es[0] && !es[0].DoSetPriority?;
      var t := Next(s, es[0]);
      hide Lists, FreeOk, NoLostChild, Family, Pids, Dispatch, Next, Enabled;
      PassesFirst(s, es, q);
      if es[0].DoDispatch? {
        NextDispatch(s, es[0]);
        DispatchInv(s);
        DispatchReady(s);
        HighWait(t, es[1..], q, k - 1);
      } else {
        StepGrows(s, es[0]);
        HighWait(t, es[1..], q, k);
      }
    }
  }

  /** Every HIGH process is on the way to exit. */
  ghost predicate NoLive(s: State)
    requires Wf(s)
  {
    forall p: nat | ActiveHigh(s, p) :: s.procs[p].killed
  }

  lemma DispatchNoLive(s: State)
    requires Inv(s) && s.ready[Top(s)] != [] && (NoLive(s) || (s.timeToReset == 1 && Harmless(s.procs[Pick(s)], true)))
    ensures Inv(Dispatch(s)) && NoLive(Dispatch(s))
  {
    DispatchInv(s);
    DispatchReady(s);
    DispatchProcs(s);
    hide Lists, FreeOk, NoLostChild, Family, Pids, Dispatch, Wf;
  }

  lemma StepNoLive(s: State, e: Event)
    requires Inv(s) && Enabled(s, e) && !e.DoDispatch? && !e.DoSetPriority? && NoLive(s)
    ensures Inv(Next(s, e)) && NoLive(Next(s, e))
  {
    hide Lists, FreeOk, NoLostChild, Family, Pids, Next, Enabled;
    StepGrows(s, e);
  }

  /** Then no reset picks a live one. */
  lemma {:induction false} NoLiveRun(s: State, es: seq<Event>)
    requires Inv(s) && NoLive(s) && Run(s, es) && NoSetPriority(es)
    ensures ResetsPickNoHigh(s, es, true)
    decreases |es|
  {
    if es != [] {
      assert es[0] == es[0] && !es[0].DoSetPriority?;
      var t := Next(s, es[0]);
      if es[0].DoDispatch? {
        hide Lists, FreeOk, NoLostChild, Family, Pids, Dispatch, Next;
        NextDispatch(s, es[0]);
        DispatchProcs(s);
        DispatchNoLive(s);
      } else {
        hide Lists, FreeOk, NoLostChild, Family, Pids, Next, Enabled, NoLive;
        StepNoLive(s, es[0]);
      }
      NoLiveRun(t, es[1..]);
    }
  }

  /** x, killed, is the HIGH process whose turn the reset is. */
  ghost predicate KilledTurn(s: State, x: nat) {
    && Inv(s) && s.timeToReset <= |s.ready[HIGH]| && s.ready[HIGH][s.timeToReset - 1] == x
    && x < NPROC && s.procs[x].killed
  }

  lemma StepKilledTurn(s: State, e: Event, x: nat)
    requires KilledTurn(s, x) && Enabled(s, e) && !e.DoDispatch? && !e.DoSetPriority?
    ensures KilledTurn(Next(s, e), x)
  {
    hide Lists, FreeOk, NoLostChild, Family, Pids, Next, Enabled;
    StepGrows(s, e);
    InHighList(s, x);
    assert x in s.ready[HIGH];
    InHighList(Next(s, e), x);
    assert x in Next(s, e).ready[HIGH];
  }

  lemma DispatchKilledTurn(s: State, x: nat)
    requires KilledTurn(s, x)
    ensures s.ready[Top(s)] != [] && Inv(Dispatch(s))
    ensures s.timeToReset == 1 ==> Harmless(s.procs[Pick(s)], true) && NoLive(Dispatch(s))
    ensures s.timeToReset > 1 ==> KilledTurn(Dispatch(s), x)
  {
    hide Lists, FreeOk, NoLostChild, Family, Pids, Dispatch, Popped;
    HighTop(s);
    InHighList(s, x);
    DispatchInv(s);
    DispatchReady(s);
    DispatchProcs(s);
    if s.timeToReset == 1 {
      DispatchNoLive(s);
    }
  }

  lemma {:induction false} KilledTurnRun(s: State, es: seq<Event>, x: nat)
    requires KilledTurn(s, x) && Run(s, es) && NoSetPriority(es)
    ensures ResetsPickNoHigh(s, es, true)
    decreases |es|
  {
    if es != [] {
      assert es[0] == es[0] && !es[0].DoSetPriority?;
      var t := Next(s, es[0]);
      hide KilledTurn, Inv, Next, Dispatch, NoLive;
      if es[0].DoDispatch? {
        NextDispatch(s, es[0]);
        DispatchKilledTurn(s, x);
        if s.timeToReset == 1 {
          NoLiveRun(t, es[1..]);
        } else {
          KilledTurnRun(t, es[1..], x);
        }
      } else {
        StepKilledTurn(s, es[0], x);
        KilledTurnRun(t, es[1..], x);
      }
    }
  }

  /** Nobody runs: the next thing to happen is an interrupt or a dispatch. */
  ghost predicate Still(s: State)
    requires Wf(s)
  {
    forall p: nat | p < NPROC :: s.procs[p].state != RUNNING
  }

  lemma StillEvents(s: State, e: Event)
    requires Wf(s) && Still(s) && Enabled(s, e)
    ensures e.DoInterrupt? || e.DoDispatch?
  {
  }

  /** Nobody runs, HIGH processes are asleep beyond the reach of interrupts, and the reset is next. */
  ghost predicate StillReset(s: State) {
    && Inv(s) && Still(s) && s.timeToReset == 1
    && forall p: nat | ActiveHigh(s, p) :: s.procs[p].state == SLEEPING && !s.procs[p].chan.Device?
  }

  lemma InterruptStillReset(s: State, a: nat)
    requires StillReset(s)
    ensures StillReset(Next(s, DoInterrupt(a)))
  {
    hide Lists, FreeOk, NoLostChild, Family, Pids, WakeUpTo;
    WakeupInv(s, Device(a));
    WakeUpToGrows(s, Device(a), NPROC);
    WakeUpToProcs(s, Device(a), NPROC);
  }

  lemma DispatchStillReset(s: State)
    requires StillReset(s) && s.ready[Top(s)] != []
    ensures Harmless(s.procs[Pick(s)], true) && Inv(Dispatch(s)) && NoLive(Dispatch(s))
  {
    hide Lists, FreeOk, NoLostChild, Family, Pids, Dispatch;
    DispatchProcs(s);
    DispatchNoLive(s);
  }

  lemma {:induction false} StillResetRun(s: State, es: seq<Event>)
    requires StillReset(s) && Run(s, es) && NoSetPriority(es)
    ensures ResetsPickNoHigh(s, es, true)
    decreases |es|
  {
    if es != [] {
      var t := Next(s, es[0]);
      StillEvents(s, es[0]);
      hide StillReset, Inv, Dispatch, NoLive, WakeUpTo;
      if es[0].DoDispatch? {
        DispatchStillReset(s);
        NoLiveRun(t, es[1..]);
      } else {
        InterruptStillReset(s, es[0].a);
        hide Next;
        StillResetRun(t, es[1..]);
      }
    }
  }

  /** Nobody runs, q is next, and no interrupt can change that. */
  ghost predicate StillNext(s: State, q: nat) {
    && Inv(s) && Still(s) && q < NPROC && s.procs[q].state == RUNNABLE && s.ready[Top(s)] != [] && Pick(s) == q
    && forall x: nat :: !Rival(s, q, x)
  }

  lemma InterruptStillNext(s: State, q: nat, a: nat)
    requires StillNext(s, q)
    ensures StillNext(Next(s, DoInterrupt(a)), q)
  {
    var t := WakeUpTo(s, Device(a), NPROC);
    WakeupInv(s, Device(a));
    WakeUpToGrows(s, Device(a), NPROC);
    WakeUpToProcs(s, Device(a), NPROC);
    hide FreeOk, NoLostChild, Family, Pids, WakeUpTo;
    assert q in s.ready[Top(s)] && Top(s) == s.procs[q].priority;
    forall i: nat | i < Top(s) ensures t.ready[i] == [] {
      NoneAhead(s, t, q, i);
    }
    assert forall x: nat :: Rival(t, q, x) ==> Rival(s, q, x);
  }

  /** Only sleepers on a device have been woken. */
  ghost predicate Interrupted(s: State, t: State)
    requires Wf(s) && Wf(t)
  {
    forall x: nat | x < NPROC ::
      t.procs[x] == s.procs[x] || (s.procs[x].state == SLEEPING && s.procs[x].chan.Device? &&
        t.procs[x] == s.procs[x].(state := RUNNABLE))
  }

  lemma NoneAhead(s: State, t: State, q: nat, i: nat)
    requires Inv(s) && Inv(t) && q < NPROC && i < s.procs[q].priority && s.ready[i] == []
    requires Interrupted(s, t) && forall x: nat :: !Rival(s, q, x)
    ensures t.ready[i] == []
  {
    hide Inv, Interrupted, Rival;
    InvShape(s);
    InvShape(t);
    if t.ready[i] != [] {
      SomeAhead(s, t, q, i);
    }
  }

  lemma SomeAhead(s: State, t: State, q: nat, i: nat)
    requires Inv(s) && Inv(t) && q < NPROC && i < s.procs[q].priority && s.ready[i] == [] && t.ready[i] != []
    requires Interrupted(s, t)
    ensures exists x: nat :: Rival(s, q, x)
  {
    hide FreeOk, NoLostChild, Family, Pids;
    var x := t.ready[i][0];
    assert x in t.ready[i];
    assert Rival(s, q, x);
  }

  lemma {:induction false} StillNextRun(s: State, es: seq<Event>, q: nat)
    requires StillNext(s, q) && Run(s, es) && Passes(s, es, q)
    ensures Dispatches(es) == 0
    decreases |es|
  {
    if es != [] {
      StillEvents(s, es[0]);
      InterruptStillNext(s, q, if es[0].DoInterrupt? then es[0].a else 0);
      hide StillNext, Inv, WakeUpTo;
      StillNextRun(Next(s, es[0]), es[1..], q);
    }
  }

  /** A live HIGH process sleeps in wait, and nobody runs whose exit wakes it. */
  ghost predicate Stranded(s: State, h: nat)
    requires Wf(s)
  {
    LiveHigh(s, h) && s.procs[h].state == SLEEPING && !s.procs[h].chan.Device? && !s.procs[h].chan.Other?
    && forall c: nat :: !Awaited(s, h, c)
  }

  /** Without company nobody stranded can be woken before q is served or the lists are reset. */
  lemma AloneBound(s: State, q: nat, es: seq<Event>)
    requires Inv(s) && Settled(s) && q < NPROC && s.procs[q].state == RUNNABLE && s.procs[q].priority != HIGH
    requires |s.ready[HIGH]| < s.timeToReset && !Company(s, q) && NoDeviceHigh(s)
    requires forall h: nat | LiveHigh(s, h) :: s.procs[h].state == SLEEPING
    requires Passing(s, es, q)
    ensures Dispatches(es) <= s.timeToReset + NPROC - 2
  {
    AloneStill(s, q);
    QueueHead(s, q);
    hide Lists, FreeOk, NoLostChild, Family, Pids;
    if s.timeToReset == 1 {
      forall p: nat | ActiveHigh(s, p) ensures s.procs[p].state == SLEEPING && !s.procs[p].chan.Device? {
        AsleepHigh(s, p);
      }
      assert StillReset(s);
      hide StillReset;
      StillResetRun(s, es);
      BoundedWaiting(s, es, q, true);
    } else {
      assert StillNext(s, q);
      StillNextRun(s, es, q);
    }
  }

  lemma AsleepHigh(s: State, p: nat)
    requires Inv(s) && Settled(s) && Still(s) && s.ready[HIGH] == [] && NoDeviceHigh(s) && ActiveHigh(s, p)
    ensures s.procs[p].state == SLEEPING && !s.procs[p].chan.Device?
  {
    InHighList(s, p);
    hide Lists, FreeOk, NoLostChild, Family, Pids;
    assert Is(s, p, SLEEPING);
  }

  lemma AloneStill(s: State, q: nat)
    requires Wf(s) && q < NPROC && s.procs[q].state == RUNNABLE && !Company(s, q)
    ensures Still(s)
  {
    forall p: nat | p < NPROC ensures s.procs[p].state != RUNNING {
      assert p != q && Is(s, p, RUNNING) ==> Company(s, q);
    }
  }

  lemma QueueHead(s: State, q: nat)
    requires Inv(s) && q < NPROC && s.procs[q].state == RUNNABLE
    ensures s.ready[Top(s)] != []
  {
    hide NoLostChild, Family, Pids, FreeOk;
    assert q in s.ready[s.procs[q].priority];
  }

  /** A process that is not exposed is dispatched within a bounded number of dispatches. */
  lemma UnexposedBound(s: State, q: nat, es: seq<Event>)
    requires Inv(s) && Settled(s) && q < NPROC && s.procs[q].state == RUNNABLE && !Exposed(s, q)
    requires s.procs[q].priority != HIGH && |s.ready[HIGH]| < s.timeToReset ==> forall h: nat | Stranded(s, h) ::
               !Company(s, q)
    requires Passing(s, es, q)
    ensures Dispatches(es) <= s.timeToReset + NPROC - 2
  {
    hide Lists, FreeOk, NoLostChild, Family, Pids, Run, Passes, Orderly, Company, Settled;
    var l, n := s.ready[HIGH], s.timeToReset;
    InHighList(s, q);
    if |l| >= n && q !in l[..n] {
      assert l[n - 1] in l;
      InHighList(s, l[n - 1]);
      assert KilledTurn(s, l[n - 1]);
      KilledTurnRun(s, es, l[n - 1]);
      BoundedWaiting(s, es, q, true);
    } else if |l| >= n || s.procs[q].priority == HIGH {
      assert forall x | x in l[..Smaller(n, |l|)] :: x in l;
      assert l[..|l|] == l;
      var k :| 0 <= k < Smaller(n, |l|) && l[k] == q;
      HighWait(s, es, q, k);
    } else if h: nat :| LiveHigh(s, h) {
      assert !CanRun(s, q, h);
      assert Stranded(s, h) || s.procs[h].chan.Other?;
      AloneBound(s, q, es);
    } else {
      assert NoLive(s) by {
        assert forall p: nat | ActiveHigh(s, p) :: !LiveHigh(s, p);
      }
      NoLiveRun(s, es);
      BoundedWaiting(s, es, q, true);
    }
  }

  function Smaller(a: nat, b: nat): (r: nat) {
    if a < b then a else b
  }

  /** A HIGH shell that waits for its command does not starve it: with nobody running and the command
      next in line, it is dispatched next. */
  lemma NextServed(s: State, q: nat)
    requires StillNext(s, q)
    ensures !Starvable(s, q)
  {
    forall es | Passing(s, es, q) ensures Dispatches(es) <= 0 {
      StillNextRun(s, es, q);
    }
    BoundEnds(s, q, 0);
  }
}
