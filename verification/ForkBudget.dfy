/** How often fork can succeed since start-up (allocproc, fork and wait in proc.c): wait hands a reaped
    slot back to nobody. */
module ForkBudget {

  import opened ProcSpec
  import opened BootRuns

  // ----- what every step keeps

  /** Slots that allocproc has taken and fork not yet finished. */
  ghost function Embryos(s: State): (r: set<nat>)
    requires |s.procs| == NPROC
  {
    set p: nat | p < NPROC && s.procs[p].state == EMBRYO
  }

  /** Slots that can still become a process. */
  ghost function Spare(s: State): (n: nat)
    requires |s.procs| == NPROC
  {
    |s.free| + |Embryos(s)|
  }

  /** Forks that finish. */
  ghost function Forks(es: seq<Event>): (n: nat) {
    if es == [] then 0 else (if es[0].DoFork? then 1 else 0) + Forks(es[1..])
  }

  /** Slots that allocproc drops for want of a kernel stack. */
  ghost function Drops(es: seq<Event>): (n: nat) {
    if es == [] then 0 else (if es[0].DoAllocFail? then 1 else 0) + Drops(es[1..])
  }

  ghost function Uses(e: Event): (n: nat) {
    if e.DoFork? || e.DoAllocFail? then 1 else 0
  }

  /** The embryos are the same. */
  ghost predicate SameEmbryos(s: State, t: State) {
    && |s.procs| == NPROC && |t.procs| == NPROC && t.free == s.free
    && forall p: nat | p < NPROC :: t.procs[p].state == EMBRYO <==> s.procs[p].state == EMBRYO
  }

  lemma SameSpare(s: State, t: State)
    requires SameEmbryos(s, t)
    ensures Spare(t) == Spare(s)
  {
    assert Embryos(t) == Embryos(s);
  }

  /** An embryo becomes something else. */
  lemma Hatches(s: State, t: State, p: nat)
    requires |s.procs| == NPROC && p < NPROC && s.procs[p].state == EMBRYO
    requires |t.procs| == NPROC && t.procs == s.procs[p := t.procs[p]] && t.procs[p].state != EMBRYO
    ensures Spare(t) - |t.free| + 1 == Spare(s) - |s.free|
  {
    assert Embryos(t) == Embryos(s) - {p};
  }

  lemma AllocSpare(s: State)
    requires Inv(s)
    ensures |Alloc(s).procs| == NPROC && Spare(Alloc(s)) == Spare(s)
  {
    if s.free != [] {
      assert s.free[0] in s.free;
      assert Embryos(Alloc(s)) == Embryos(s) + {s.free[0]};
    }
  }

  lemma ExitSpare(s: State, q: nat)
    requires Inv(s) && q < NPROC && s.procs[q].state == RUNNING
    ensures SameEmbryos(s, Exit(s, q))
  {
    hide Lists, FreeOk, NoLostChild, Pids, Exit;
    ExitProcs(s, q);
  }

  lemma QuietSpare(s: State, e: Event)
    requires Inv(s) && Enabled(s, e)
    requires !e.DoFork? && !e.DoAllocFail? && !e.DoForkFail? && !e.DoAlloc? && !e.DoExit? && !e.DoDispatch?
    ensures SameEmbryos(s, Next(s, e))
  {
    hide Lists, FreeOk, NoLostChild, Family, Pids, WakeUpTo, FirstPid, FirstZombie, HasKids, Without,
      SetPriorityFaults;
    match e {
      case DoWakeup(_, a) => WakeUpToProcs(s, Other(a), NPROC);
      case DoInterrupt(a) => WakeUpToProcs(s, Device(a), NPROC);
      case DoKill(_, pid) => assert SameEmbryos(s, Kill(s, pid));
      case DoWait(q) => assert SameEmbryos(s, Wait(s, q));
      case DoSetPriority(_, pid, prio) => assert SameEmbryos(s, SetPriority(s, pid, prio));
      case DoYield(q) => assert SameEmbryos(s, Wake(s, q));
      case DoSleep(q, ch) => assert SameEmbryos(s, Sleep(s, q, ch));
      case DoTidy(_) =>
    }
  }

  lemma DispatchSpare(s: State)
    requires Inv(s) && s.ready[Top(s)] != []
    ensures SameEmbryos(s, Dispatch(s))
  {
    hide Lists, FreeOk, NoLostChild, Family, Pids, Dispatch;
    DispatchProcs(s);
  }

  /** A step spends what it uses, and nothing adds to the spare slots. */
  lemma StepSpends(s: State, e: Event)
    requires Inv(s) && Enabled(s, e)
    ensures Inv(Next(s, e)) && Wf(s) && Wf(Next(s, e)) && Spare(Next(s, e)) + Uses(e) == Spare(s)
  {
    hide Lists, FreeOk, NoLostChild, Family, Pids, Spare, Exit, Alloc, Dispatch, Wait, Kill, SetPriority, WakeUpTo;
    NextInv(s, e);
    var t := Next(s, e);
    match e {
      case DoAlloc(_) => AllocSpare(s);
      case DoFork(_, p) => Spends(s, t, p);
      case DoAllocFail(_, p) => Spends(s, t, p);
      case DoForkFail(_, p) => Returns(s, t, p);
      case DoExit(q) => ExitSpare(s, q); SameSpare(s, t);
      case DoDispatch => DispatchSpare(s); SameSpare(s, t);
      case _ => QuietSpare(s, e); SameSpare(s, t);
    }
  }

  lemma Spends(s: State, t: State, p: nat)
    requires |s.procs| == NPROC && p < NPROC && s.procs[p].state == EMBRYO && t.free == s.free
    requires |t.procs| == NPROC && t.procs == s.procs[p := t.procs[p]] && t.procs[p].state != EMBRYO
    ensures Spare(t) + 1 == Spare(s)
  {
    Hatches(s, t, p);
  }

  lemma Returns(s: State, t: State, p: nat)
    requires |s.procs| == NPROC && p < NPROC && s.procs[p].state == EMBRYO && |t.free| == |s.free| + 1
    requires |t.procs| == NPROC && t.procs == s.procs[p := t.procs[p]] && t.procs[p].state != EMBRYO
    ensures Spare(t) == Spare(s)
  {
    Hatches(s, t, p);
  }

  /** Over every run: finished forks, dropped slots and spare slots add up to the spare slots it began with. */
  lemma {:induction false} SpareConserved(s: State, es: seq<Event>)
    requires Inv(s) && Run(s, es)
    ensures |s.procs| == |Final(s, es).procs| == NPROC
    ensures Forks(es) + Drops(es) + Spare(Final(s, es)) == Spare(s)
    decreases |es|
  {
    hide Inv, Next, Enabled, Spare;
    if es == [] {
      assert Wf(s);
    } else {
      assert Wf(s);
      StepSpends(s, es[0]);
      SpareConserved(Next(s, es[0]), es[1..]);
    }
  }

  // ----- since start-up

  lemma {:induction false} DistinctCount(l: seq<nat>, n: nat)
    requires Distinct(l) && forall p: nat :: p in l <==> p < n
    ensures |l| == n
    decreases n
  {
    assert l != [] ==> l[0] in l;
    if n > 0 {
      assert n - 1 in l;
      var i :| 0 <= i < |l| && l[i] == n - 1;
      var rest := l[..i] + l[i + 1..];
      forall p: nat ensures p in rest <==> p < n - 1 {
        assert p in l <==> p in rest || p == n - 1;
      }
      DistinctCount(rest, n - 1);
    }
  }

  lemma BootedSpare(s: State)
    requires Booted(s)
    ensures |s.procs| == NPROC && |s.free| == NPROC - 1 && Spare(s) == NPROC - 1
  {
    DistinctCount(s.free, NPROC - 1);
    assert Embryos(s) == {};
  }

  /** However many children are reaped, fork succeeds at most NPROC - 1 times since start-up: every slot
      is lost once it has held a process or failed to get a stack, and those that are not are spare. */
  lemma ForksBounded(s: State, es: seq<Event>)
    requires Booted(s) && Run(s, es)
    ensures |Final(s, es).procs| == NPROC && Forks(es) + Drops(es) + Spare(Final(s, es)) == NPROC - 1
    ensures Forks(es) <= NPROC - 1
  {
    hide Booted, Inv, Run, Final, Spare;
    BootedInv(s);
    BootedSpare(s);
    SpareConserved(s, es);
  }

  // ----- a run that spends it

  /** A slot that holds nobody. */
  const IDLE: Proc := Proc(UNUSED, 0, NIL, NoChan, false, DEFAULTPRIO)

  const INIT: Proc := Proc(RUNNING, 1, NIL, NoChan, false, DEFAULTPRIO)

  /** init runs and nobody else is there. */
  ghost predicate Alone(s: State) {
    && Inv(s) && s.ready == [[], [], []] && s.procs[s.initproc] == INIT && 2 * |s.free| < s.timeToReset
    && forall p: nat | p < NPROC && p != s.initproc :: s.procs[p] == IDLE
  }

  /** init takes the first free slot, and then it and its child are as given. */
  ghost function Pair(s: State, a: Proc, b: Proc, queue: seq<nat>, turns: nat): (r: State)
    requires Wf(s) && s.free != [] && turns <= s.timeToReset
  {
    assert s.free[0] in s.free;
    s.(procs := s.procs[s.initproc := a][s.free[0] := b], ready := [[], queue, []], free := s.free[1..],
       timeToReset := s.timeToReset - turns, nextpid := s.nextpid + 1)
  }

  /** What a child is on its way from fork to wait. */
  ghost function Child(s: State, st: ProcState): (r: Proc) {
    Proc(st, s.nextpid, s.initproc, NoChan, false, DEFAULTPRIO)
  }

  /** init in wait. */
  ghost function Waiting(s: State, st: ProcState): (r: Proc) {
    INIT.(state := st, chan := OfProc(s.initproc))
  }

  lemma AloneFacts(s: State)
    requires Alone(s) && s.free != []
    ensures Wf(s) && s.free[0] < NPROC && s.free[0] != s.initproc && s.free[0] !in s.free[1..]
    ensures s.initproc < NPROC && s.timeToReset > 2 && forall p | p in s.free[1..] :: p < NPROC
    ensures forall p: nat | p < NPROC && p != s.initproc :: s.procs[p] == IDLE
    ensures s.procs[s.initproc] == INIT && s.ready == [[], [], []]
  {
    assert s.free[0] in s.free && forall p | p in s.free[1..] :: p in s.free;
    assert forall k: nat | k < |s.free| - 1 :: s.free[1..][k] == s.free[k + 1] != s.free[0];
  }

  lemma Queues(p: nat)
    ensures [[], [], []][DEFAULTPRIO := [] + [p]] == [[], [p], []]
    ensures [[], [p], []][DEFAULTPRIO := [p][1..]] == [[], [], []]
  {
    assert [] + [p] == [p] && [p][1..] == [];
  }

  lemma Kid(procs: seq<Proc>, q: nat, c: nat)
    requires c < |procs| && procs[c].parent == q
    ensures HasKids(procs, q)
  {
  }

  lemma PairWf(s: State, a: Proc, b: Proc, queue: seq<nat>, turns: nat)
    requires Alone(s) && s.free != [] && turns <= 2 && a.priority == b.priority == DEFAULTPRIO
    requires queue == [] || queue == [s.initproc] || queue == [s.free[0]]
    ensures Wf(s) && Wf(Pair(s, a, b, queue, turns))
  {
    hide Alone, Inv;
    AloneFacts(s);
    var r := Pair(s, a, b, queue, turns);
    forall i: nat, x | i < SIZE && x in r.ready[i] ensures x < NPROC {
      assert r.ready[i] == if i == 1 then queue else [];
    }
  }

  lemma RoundAlloc(s: State)
    requires Alone(s) && s.free != []
    ensures Wf(s) && Enabled(s, DoAlloc(s.initproc))
    ensures Next(s, DoAlloc(s.initproc)) == Pair(s, INIT, IDLE.(state := EMBRYO, pid := s.nextpid), [], 0)
  {
    hide Alone, Inv;
    AloneFacts(s);
  }

  lemma RoundFork(s: State)
    requires Alone(s) && s.free != []
    ensures Wf(s)
    ensures var t, e := Pair(s, INIT, IDLE.(state := EMBRYO, pid := s.nextpid), [], 0), DoFork(s.initproc, s.free[0]);
            Wf(t) && Enabled(t, e) && Next(t, e) == Pair(s, INIT, Child(s, RUNNABLE), [s.free[0]], 0)
  {
    hide Alone, Inv;
    AloneFacts(s);
    var t := Pair(s, INIT, IDLE.(state := EMBRYO, pid := s.nextpid), [], 0);
    PairWf(s, INIT, IDLE.(state := EMBRYO, pid := s.nextpid), [], 0);
    Queues(s.free[0]);
  }

  lemma RoundWait(s: State)
    requires Alone(s) && s.free != []
    ensures Wf(s)
    ensures var t, e := Pair(s, INIT, Child(s, RUNNABLE), [s.free[0]], 0), DoWait(s.initproc);
            Wf(t) && Enabled(t, e) && Next(t, e) == Pair(s, Waiting(s, SLEEPING), Child(s, RUNNABLE), [s.free[0]], 0)
  {
    hide Alone, Inv, Wf, FirstZombie, HasKids;
    AloneFacts(s);
    var t := Pair(s, INIT, Child(s, RUNNABLE), [s.free[0]], 0);
    PairWf(s, INIT, Child(s, RUNNABLE), [s.free[0]], 0);
    Kid(t.procs, s.initproc, s.free[0]);
  }

  lemma RoundChild(s: State)
    requires Alone(s) && s.free != []
    ensures Wf(s)
    ensures var t := Pair(s, Waiting(s, SLEEPING), Child(s, RUNNABLE), [s.free[0]], 0);
            Wf(t) && Enabled(t, DoDispatch) &&
              Next(t, DoDispatch) == Pair(s, Waiting(s, SLEEPING), Child(s, RUNNING), [], 1)
  {
    hide Alone, Inv;
    AloneFacts(s);
    var t := Pair(s, Waiting(s, SLEEPING), Child(s, RUNNABLE), [s.free[0]], 0);
    PairWf(s, Waiting(s, SLEEPING), Child(s, RUNNABLE), [s.free[0]], 0);
    assert t.ready[1] == [s.free[0]] && t.ready[0] == [];
    Queues(s.free[0]);
  }

  /** wakeup1 where one process alone sleeps on the channel. */
  lemma {:induction false} WakesOne(s: State, ch: Chan, i: nat, n: nat)
    requires Wf(s) && i < NPROC && n <= NPROC && s.procs[i].state == SLEEPING && s.procs[i].chan == ch
    requires forall p: nat | p < NPROC && p != i :: !(s.procs[p].state == SLEEPING && s.procs[p].chan == ch)
    ensures WakeUpTo(s, ch, n) == if n <= i then s else Wake(s, i)
  {
    if n > 0 {
      WakesOne(s, ch, i, n - 1);
    }
  }

  lemma {:induction false} NobodyMoves(s: State, q: nat, n: nat)
    requires Wf(s) && n <= NPROC && forall p: nat | p < NPROC :: s.procs[p].parent != q
    ensures Reparent(s, q, n) == s
  {
    if n > 0 {
      NobodyMoves(s, q, n - 1);
    }
  }

  lemma RoundExit(s: State)
    requires Alone(s) && s.free != []
    ensures Wf(s)
    ensures var t, e := Pair(s, Waiting(s, SLEEPING), Child(s, RUNNING), [], 1), DoExit(s.free[0]);
            Wf(t) && Enabled(t, e) && Next(t, e) == Pair(s, Waiting(s, RUNNABLE), Child(s, ZOMBIE), [s.initproc], 1)
  {
    hide Alone, Inv, Wf, WakeUpTo, Reparent;
    AloneFacts(s);
    var t, i, p := Pair(s, Waiting(s, SLEEPING), Child(s, RUNNING), [], 1), s.initproc, s.free[0];
    PairWf(s, Waiting(s, SLEEPING), Child(s, RUNNING), [], 1);
    WakesOne(t, OfProc(i), i, NPROC);
    WakeWf(t, i);
    NobodyMoves(Wake(t, i), p, NPROC);
    Queues(i);
  }

  lemma RoundInit(s: State)
    requires Alone(s) && s.free != []
    ensures Wf(s)
    ensures var t := Pair(s, Waiting(s, RUNNABLE), Child(s, ZOMBIE), [s.initproc], 1);
            Wf(t) && Enabled(t, DoDispatch) &&
              Next(t, DoDispatch) == Pair(s, Waiting(s, RUNNING), Child(s, ZOMBIE), [], 2)
  {
    hide Alone, Inv;
    AloneFacts(s);
    var t := Pair(s, Waiting(s, RUNNABLE), Child(s, ZOMBIE), [s.initproc], 1);
    PairWf(s, Waiting(s, RUNNABLE), Child(s, ZOMBIE), [s.initproc], 1);
    assert t.ready[1] == [s.initproc] && t.ready[0] == [];
    Queues(s.initproc);
  }

  lemma RoundTidy(s: State)
    requires Alone(s) && s.free != []
    ensures Wf(s)
    ensures var t, e := Pair(s, Waiting(s, RUNNING), Child(s, ZOMBIE), [], 2), DoTidy(s.initproc);
            Wf(t) && Enabled(t, e) && Next(t, e) == Pair(s, INIT, Child(s, ZOMBIE), [], 2)
  {
    hide Alone, Inv;
    AloneFacts(s);
    PairWf(s, Waiting(s, RUNNING), Child(s, ZOMBIE), [], 2);
  }

  lemma RoundReap(s: State)
    requires Alone(s) && s.free != []
    ensures Wf(s)
    ensures var t, e := Pair(s, INIT, Child(s, ZOMBIE), [], 2), DoWait(s.initproc);
            Wf(t) && Enabled(t, e) && Next(t, e) == Pair(s, INIT, IDLE, [], 2)
  {
    hide Alone, Inv, Wf, FirstZombie, HasKids;
    AloneFacts(s);
    PairWf(s, INIT, Child(s, ZOMBIE), [], 2);
    var t := Pair(s, INIT, Child(s, ZOMBIE), [], 2);
    assert t.procs[s.free[0]] == Child(s, ZOMBIE);
    assert FirstZombie(t.procs, s.initproc, 0) == s.free[0];
  }

  /** Fork, wait, and the child's exit. */
  ghost function Round(i: nat, p: nat): (es: seq<Event>) {
    [DoAlloc(i), DoFork(i, p), DoWait(i), DoDispatch, DoExit(p), DoDispatch, DoTidy(i), DoWait(i)]
  }

  lemma Follow(s: State, es: seq<Event>, t: State, e: Event, u: State)
    requires Inv(s) && Run(s, es) && Final(s, es) == t && Wf(t) && Enabled(t, e) && Next(t, e) == u
    ensures Run(s, es + [e]) && Final(s, es + [e]) == u
  {
    hide Inv, Enabled, Next;
    RunSnoc(s, es, e);
  }

  lemma RoundForks(s: State)
    requires Alone(s) && s.free != []
    ensures Wf(s)
    ensures var i, p := s.initproc, s.free[0];
            var es := [DoAlloc(i), DoFork(i, p), DoWait(i), DoDispatch];
            Run(s, es) && Final(s, es) == Pair(s, Waiting(s, SLEEPING), Child(s, RUNNING), [], 1)
  {
    hide Inv, Enabled, Next, Pair, Child, Waiting, Run, Final, Alone, Wf;
    AloneFacts(s);
    AloneInv(s);
    Nothing(s);
    var i, p := s.initproc, s.free[0];
    RoundAlloc(s);
    Follow(s, [], s, DoAlloc(i), Next(s, DoAlloc(i)));
    RoundFork(s);
    Follow(s, [] + [DoAlloc(i)], Next(s, DoAlloc(i)), DoFork(i, p), Pair(s, INIT, Child(s, RUNNABLE), [p], 0));
    RoundWait(s);
    Follow(s, [] + [DoAlloc(i)] + [DoFork(i, p)], Pair(s, INIT, Child(s, RUNNABLE), [p], 0), DoWait(i),
           Pair(s, Waiting(s, SLEEPING), Child(s, RUNNABLE), [p], 0));
    RoundChild(s);
    Follow(s, [] + [DoAlloc(i)] + [DoFork(i, p)] + [DoWait(i)],
           Pair(s, Waiting(s, SLEEPING), Child(s, RUNNABLE), [p], 0), DoDispatch,
           Pair(s, Waiting(s, SLEEPING), Child(s, RUNNING), [], 1));
    assert [] + [DoAlloc(i)] + [DoFork(i, p)] + [DoWait(i)] + [DoDispatch]
        == [DoAlloc(i), DoFork(i, p), DoWait(i), DoDispatch];
  }

  lemma Nothing(s: State)
    requires Wf(s)
    ensures Run(s, []) && Final(s, []) == s
  {
  }

  lemma AloneInv(s: State)
    requires Alone(s)
    ensures Inv(s)
  {
  }

  /** After the round everything is as before it, but the slot is gone from the free list. */
  lemma RoundEnds(s: State)
    requires Alone(s) && s.free != []
    ensures Wf(s) && Run(s, Round(s.initproc, s.free[0]))
    ensures Final(s, Round(s.initproc, s.free[0])) == Pair(s, INIT, IDLE, [], 2)
  {
    hide Inv, Enabled, Next, Pair, Child, Waiting, Run, Final, Alone, Wf;
    var i, p := s.initproc, s.free[0];
    AloneInv(s);
    AloneFacts(s);
    RoundForks(s);
    var es := [DoAlloc(i), DoFork(i, p), DoWait(i), DoDispatch];
    RoundExit(s);
    Follow(s, es, Pair(s, Waiting(s, SLEEPING), Child(s, RUNNING), [], 1), DoExit(p),
           Pair(s, Waiting(s, RUNNABLE), Child(s, ZOMBIE), [i], 1));
    RoundInit(s);
    Follow(s, es + [DoExit(p)], Pair(s, Waiting(s, RUNNABLE), Child(s, ZOMBIE), [i], 1), DoDispatch,
           Pair(s, Waiting(s, RUNNING), Child(s, ZOMBIE), [], 2));
    RoundTidy(s);
    Follow(s, es + [DoExit(p)] + [DoDispatch], Pair(s, Waiting(s, RUNNING), Child(s, ZOMBIE), [], 2), DoTidy(i),
           Pair(s, INIT, Child(s, ZOMBIE), [], 2));
    RoundReap(s);
    Follow(s, es + [DoExit(p)] + [DoDispatch] + [DoTidy(i)], Pair(s, INIT, Child(s, ZOMBIE), [], 2), DoWait(i),
           Pair(s, INIT, IDLE, [], 2));
    assert es + [DoExit(p)] + [DoDispatch] + [DoTidy(i)] + [DoWait(i)] == Round(i, p);
  }

  lemma RoundAlone(s: State)
    requires Alone(s) && s.free != []
    ensures Run(s, Round(s.initproc, s.free[0]))
    ensures var t := Final(s, Round(s.initproc, s.free[0]));
            Alone(t) && t.free == s.free[1..] && t.initproc == s.initproc
  {
    hide Inv, Run, Final, Wf, Round;
    RoundEnds(s);
    AloneInv(s);
    RunInv(s, Round(s.initproc, s.free[0]));
    AloneFacts(s);
  }

  lemma {:induction false} ForksJoin(es: seq<Event>, fs: seq<Event>)
    ensures Forks(es + fs) == Forks(es) + Forks(fs)
    decreases |es|
  {
    if es == [] {
      assert es + fs == fs;
    } else {
      assert (es + fs)[0] == es[0] && (es + fs)[1..] == es[1..] + fs;
      ForksJoin(es[1..], fs);
    }
  }

  lemma {:induction false} RunsJoin(s: State, es: seq<Event>, fs: seq<Event>)
    requires Run(s, es) && Run(Final(s, es), fs)
    ensures Run(s, es + fs) && Final(s, es + fs) == Final(Final(s, es), fs)
    decreases |es|
  {
    hide Wf, Next, Enabled;
    if es == [] {
      assert es + fs == fs;
    } else {
      assert (es + fs)[0] == es[0] && (es + fs)[1..] == es[1..] + fs;
      RunsJoin(Next(s, es[0]), es[1..], fs);
    }
  }

  lemma RoundCounts(i: nat, p: nat)
    ensures Forks(Round(i, p)) == 1
  {
    var a := [DoAlloc(i)];
    var b := [DoFork(i, p)];
    var c := [DoWait(i), DoDispatch];
    var d := [DoExit(p), DoDispatch];
    var e := [DoTidy(i), DoWait(i)];
    assert Round(i, p) == a + (b + (c + (d + e)));
    ForksJoin(a, b + (c + (d + e)));
    ForksJoin(b, c + (d + e));
    ForksJoin(c, d + e);
    ForksJoin(d, e);
  }

  /** Round after round until the free list is empty. */
  lemma {:induction false} Spend(s: State) returns (es: seq<Event>)
    requires Alone(s)
    ensures Run(s, es) && Forks(es) == |s.free|
    ensures Alone(Final(s, es)) && Final(s, es).free == [] && Final(s, es).initproc == s.initproc
    decreases |s.free|
  {
    hide Inv, Alone, Wf, Round;
    if s.free == [] {
      es := [];
      AloneInv(s);
      InvWf(s);
    } else {
      RoundAlone(s);
      var r := Round(s.initproc, s.free[0]);
      var rest := Spend(Final(s, r));
      es := r + rest;
      RunsJoin(s, r, rest);
      ForksJoin(r, rest);
      RoundCounts(s.initproc, s.free[0]);
    }
  }

  lemma InvWf(s: State)
    requires Inv(s)
    ensures Wf(s)
  {
  }

  lemma FirstAlone(s: State)
    requires Booted(s)
    ensures Run(s, [DoDispatch]) && Alone(Final(s, [DoDispatch])) && |Final(s, [DoDispatch]).free| == NPROC - 1
    ensures Final(s, [DoDispatch]).initproc == s.initproc
  {
    BootDispatch(s);
    BootedSpare(s);
    var t := Final(s, [DoDispatch]);
    assert Parenting(t, [], s.free);
    forall p: nat | p < NPROC && p != t.initproc ensures t.procs[p] == IDLE {
      assert p in s.free;
    }
  }

  /** When nothing is spare, fork fails from then on. */
  lemma NoMoreForks(s: State, es: seq<Event>)
    requires Inv(s) && Run(s, es) && |s.procs| == NPROC && Spare(s) == 0
    ensures Forks(es) == 0
  {
    hide Inv, Run, Final, Spare;
    SpareConserved(s, es);
  }

  lemma AloneSpare(s: State)
    requires Alone(s) && s.free == []
    ensures Inv(s) && Wf(s) && |s.procs| == NPROC && Spare(s) == 0 && Alloc(s) == s
    ensures Is(s, s.initproc, RUNNING) && forall p: nat | p < NPROC && p != s.initproc :: Is(s, p, UNUSED)
  {
    hide Lists, FreeOk, NoLostChild, Family, Pids;
    assert Embryos(s) == {};
  }

  /** init forks and reaps NPROC - 1 children, one after the other. Then it is the only process, every other
      slot is UNUSED, and fork fails for good. */
  lemma ForkRunsOut(s: State) returns (es: seq<Event>)
    requires Booted(s)
    ensures Run(s, es) && Forks(es) == NPROC - 1
    ensures var t := Final(s, es);
            && Wf(t) && Is(t, t.initproc, RUNNING)
            && (forall p: nat | p < NPROC && p != t.initproc :: Is(t, p, UNUSED))
            && Alloc(t) == t && forall fs | Run(t, fs) :: Forks(fs) == 0
  {
    hide Booted, Inv, Alone, Wf, Spare, Alloc, Is;
    FirstAlone(s);
    var first := [DoDispatch];
    var more := Spend(Final(s, first));
    es := first + more;
    RunsJoin(s, first, more);
    ForksJoin(first, more);
    var t := Final(s, es);
    AloneSpare(t);
    forall fs | Run(t, fs) ensures Forks(fs) == 0 {
      NoMoreForks(t, fs);
    }
  }
}
