/** What each critical section of proc.c does, slot by slot and list by list. */
module ProcSteps {

  import opened ProcSpec

  /** Slot p becomes x, and the lists and everything else stay. */
  ghost predicate OnlySlot(s: State, t: State, p: nat, x: Proc)
    requires p < |s.procs|
  {
    t == s.(procs := t.procs) && |t.procs| == |s.procs| && t.procs[p] == x
    && forall i: nat | i < |s.procs| && i != p :: t.procs[i] == s.procs[i]
  }

  /** Slot p becomes x and goes to the end of the list of its priority; the rest stays. */
  ghost predicate OnlyQueued(s: State, t: State, p: nat, x: Proc)
    requires p < |s.procs| && |s.ready| == SIZE
  {
    && OnlySlot(s, t.(ready := s.ready), p, x) && |t.ready| == SIZE && x.state == RUNNABLE && x.priority < SIZE
    && t.ready[x.priority] == s.ready[x.priority] + [p]
    && forall i: nat | i < SIZE && i != x.priority :: t.ready[i] == s.ready[i]
  }

  /** allocproc takes the head of the free list, which nobody uses, and gives it a pid that nobody has. */
  lemma AllocTakes(s: State)
    requires Inv(s)
    ensures s.free == [] ==> Alloc(s) == s
    ensures s.free != [] ==>
              var p, t := s.free[0], Alloc(s);
              && p < NPROC && s.procs[p].state == UNUSED && t.free == s.free[1..] && t.nextpid > s.nextpid
              && t.procs[p].pid == s.nextpid && (forall q: nat | q < NPROC :: s.procs[q].pid != s.nextpid)
              && OnlySlot(s, t.(free := s.free, nextpid := s.nextpid), p,
                          s.procs[p].(state := EMBRYO, pid := s.nextpid))
  {
    hide Lists, NoLostChild, Family;
    assert s.free != [] ==> s.free[0] in s.free;
  }

  /** fork makes the child of q out of an embryo: RUNNABLE at the end of the default list. */
  lemma ForkMakes(s: State, q: nat, p: nat)
    requires Inv(s) && Is(s, q, RUNNING) && Is(s, p, EMBRYO)
    ensures OnlyQueued(s, ForkDone(s, q, p), p, s.procs[p].(state := RUNNABLE, parent := q, priority := DEFAULTPRIO))
  {
    hide Lists, FreeOk, NoLostChild, Family, Pids;
  }

  /** Without a kernel stack the slot is UNUSED and on no list; without memory for the child it is also at
      the end of the free list. */
  lemma FailureReturns(s: State, p: nat)
    requires Inv(s) && Is(s, p, EMBRYO)
    ensures OnlySlot(s, AllocFail(s, p), p, s.procs[p].(state := UNUSED)) && p !in AllocFail(s, p).free
    ensures ForkFail(s, p).free == s.free + [p]
    ensures OnlySlot(s, ForkFail(s, p).(free := s.free), p, s.procs[p].(state := UNUSED))
  {
    hide Lists, NoLostChild, Family, Pids;
  }

  /** wait reaps the child that ended with the least slot number: no pid, no parent, not killed. */
  lemma WaitReaps(s: State, q: nat, z: nat)
    requires Inv(s) && Is(s, q, RUNNING) && Is(s, z, ZOMBIE) && s.procs[z].parent == q
    requires forall c: nat | c < z :: !(s.procs[c].state == ZOMBIE && s.procs[c].parent == q)
    ensures OnlySlot(s, Wait(s, q), z, Proc(UNUSED, 0, NIL, s.procs[z].chan, false, s.procs[z].priority))
  {
    hide Lists, FreeOk, NoLostChild, Family, Pids, FirstZombie, HasKids;
    assert FirstZombie(s.procs, q, 0) == z;
  }

  /** With no such child it returns at once if it has none at all or is killed, and sleeps on itself otherwise. */
  lemma WaitWaits(s: State, q: nat)
    requires Inv(s) && Is(s, q, RUNNING)
    requires forall c: nat | c < NPROC && s.procs[c].parent == q :: s.procs[c].state != ZOMBIE
    ensures var kids := exists c: nat :: c < NPROC && s.procs[c].parent == q;
            if kids && !s.procs[q].killed then
              OnlySlot(s, Wait(s, q), q, s.procs[q].(state := SLEEPING, chan := OfProc(q)))
            else Wait(s, q) == s
  {
    hide Lists, FreeOk, NoLostChild, Family, Pids, FirstZombie;
    assert FirstZombie(s.procs, q, 0) == NIL;
  }

  /** yield puts the process at the end of its list, sleep on no list. */
  lemma GivesUp(s: State, q: nat, ch: Chan)
    requires Inv(s) && Is(s, q, RUNNING)
    ensures OnlyQueued(s, Wake(s, q), q, s.procs[q].(state := RUNNABLE))
    ensures OnlySlot(s, Sleep(s, q, ch), q, s.procs[q].(state := SLEEPING, chan := ch))
  {
    hide Lists, FreeOk, NoLostChild, Family, Pids;
  }

  /** kill marks the process with the pid; asleep, it goes to the end of the list of its priority. */
  lemma KillMarks(s: State, pid: nat, p: nat)
    requires Inv(s) && p < NPROC && s.procs[p].pid == pid && forall c: nat | c < p :: s.procs[c].pid != pid
    ensures s.procs[p].state != SLEEPING ==> OnlySlot(s, Kill(s, pid), p, s.procs[p].(killed := true))
    ensures s.procs[p].state == SLEEPING ==>
              OnlyQueued(s, Kill(s, pid), p, s.procs[p].(killed := true, state := RUNNABLE))
  {
    hide Lists, FreeOk, NoLostChild, Family, Pids, FirstPid;
    assert FirstPid(s.procs, pid, 0) == p;
  }

  lemma KillMisses(s: State, pid: nat)
    requires Wf(s) && forall p: nat | p < NPROC :: s.procs[p].pid != pid
    ensures Kill(s, pid) == s
  {
    hide FirstPid;
  }

  /** wakeup1 appends the sleepers to the lists of their priorities, in the order of their slots. */
  lemma {:induction false} WakeupQueues(s: State, ch: Chan, n: nat)
    requires Wf(s) && n <= NPROC
    ensures var t := WakeUpTo(s, ch, n);
            forall i: nat | i < SIZE ::
              && s.ready[i] <= t.ready[i]
              && (forall j | |s.ready[i]| <= j < |t.ready[i]| ::
                    var p := t.ready[i][j];
                    p < n && s.procs[p].state == SLEEPING && s.procs[p].chan == ch && s.procs[p].priority == i)
              && forall j, k | |s.ready[i]| <= j < k < |t.ready[i]| :: t.ready[i][j] < t.ready[i][k]
  {
    if n > 0 {
      WakeupQueues(s, ch, n - 1);
      WakeUpToProcs(s, ch, n - 1);
    }
  }

  /** The scheduler runs the head of the first list that is not empty. */
  lemma DispatchRuns(s: State, i: nat)
    requires Inv(s) && i < SIZE && s.ready[i] != [] && s.timeToReset > 1 && forall j: nat | j < i :: s.ready[j] == []
    ensures s.ready[Top(s)] != []
    ensures var p, t := s.ready[i][0], Dispatch(s);
            && p < NPROC && t.timeToReset == s.timeToReset - 1 && |t.ready| == SIZE && t.ready[i] == s.ready[i][1..]
            && (forall j: nat | j < SIZE && j != i :: t.ready[j] == s.ready[j])
            && OnlySlot(s, t.(ready := s.ready, timeToReset := s.timeToReset), p, s.procs[p].(state := RUNNING))
  {
    hide Lists, FreeOk, NoLostChild, Family, Pids;
    assert Top(s) == i && s.ready[i][0] in s.ready[i];
  }

  /** Every COUNT dispatches all others go to the default list first, the HIGH ones ahead of the LOW ones, and
      everybody who is queued, runs or sleeps gets the default priority, but not the process that is dispatched. */
  lemma DispatchResets(s: State, i: nat)
    requires Inv(s) && i < SIZE && s.ready[i] != [] && s.timeToReset == 1 && forall j: nat | j < i :: s.ready[j] == []
    ensures s.ready[Top(s)] != []
    ensures var p, t, u := s.ready[i][0], Dispatch(s), s.ready[i := s.ready[i][1..]];
            && p < NPROC && t.timeToReset == COUNT && t.ready == [[], u[DEFAULTPRIO] + u[HIGH] + u[LOW], []]
            && |t.procs| == NPROC && t.procs[p] == s.procs[p].(state := RUNNING) && t.free == s.free
            && forall x: nat | x < NPROC && x != p ::
                 t.procs[x] == if Active(s.procs[x]) then s.procs[x].(priority := DEFAULTPRIO) else s.procs[x]
  {
    hide FreeOk, NoLostChild, Family, Pids;
    var p, t := s.ready[i][0], Popped(s);
    assert Top(s) == i && p in s.ready[i] && Pick(s) == p;
    PoppedLists(s);
    forall x: nat | x < NPROC
      ensures ResetProc(t, x) == if Active(s.procs[x]) && x != p then s.procs[x].(priority := DEFAULTPRIO)
                                 else s.procs[x]
    {
      assert x != p && s.procs[x].state == RUNNABLE ==> x in t.ready[t.procs[x].priority];
    }
  }
}
