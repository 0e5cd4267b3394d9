/** sleep and wakeup (proc.c) step by step, for any number of processes: the lock that guards a
    condition is given up in the middle of sleep, and still no wakeup is lost. */
module SleepWakeup {

  /** Where a process is. It waits for the condition to hold, or it establishes it.
      - In Testing, Sleep1 and Sleep2 it holds the condition's lock `lk`; likewise in Setting,
        Waking, Woke.
      - In Sleep2, Sleep3, Falling and Waking2 it holds ptable.lock.
      - Falling and Asleep: its state is SLEEPING. */
  datatype Pc =
    | Outside
    | Testing    // holds lk, is about to test the condition
    | Sleep1     // the condition was false; sleep() wants ptable.lock
    | Sleep2     // has both locks
    | Sleep3     // has released lk
    | Falling    // is SLEEPING, sched() has not yet let go of ptable.lock
    | Asleep
    | Ready      // woken; will take lk again
    | Setting    // holds lk, may change the condition
    | Waking     // has made the condition true; wakeup() wants ptable.lock
    | Waking2    // has both locks
    | Woke       // has woken everybody, still holds lk

  datatype Lock = Free | HeldBy(q: nat)

  datatype State = State(cond: bool, lk: Lock, pt: Lock, pcs: map<nat, Pc>)

  ghost predicate At(s: State, q: nat, pc: Pc) {
    q in s.pcs && s.pcs[q] == pc
  }

  predicate NeedsLk(pc: Pc) {
    pc == Testing || pc == Sleep1 || pc == Sleep2 || pc == Setting || pc == Waking || pc == Waking2 || pc == Woke
  }

  predicate NeedsPt(pc: Pc) {
    pc == Sleep2 || pc == Sleep3 || pc == Falling || pc == Waking2
  }

  /** Past the test and not yet woken, with lk given up. */
  predicate Committed(pc: Pc) {
    pc == Sleep3 || pc == Falling || pc == Asleep
  }

  datatype Event =
    | EnterWait(q: nat)   // acquire(lk) on the way to the test
    | TestTrue(q: nat, after: bool) // the condition holds: use it, leave it as `after`, release(lk)
    | TestFalse(q: nat)   // it does not: call sleep
    | TakePt(q: nat)      // acquire(&ptable.lock) in sleep
    | DropLk(q: nat)      // release(lk)
    | SetSleeping(q: nat) // proc->state = SLEEPING
    | Switch(q: nat)      // sched(): ptable.lock is let go by whoever runs next
    | Again(q: nat)       // woken: acquire(lk) again and retest
    | EnterSet(q: nat)    // acquire(lk) on the way to changing the condition
    | Set(q: nat)         // make it true; a wakeup follows
    | Clear(q: nat)       // make it false, release(lk)
    | TakePtToWake(q: nat)
    | WakeAll(q: nat)     // wakeup1 and release(&ptable.lock)
    | Leave(q: nat)       // release(lk)
    | Kill(q: nat)        // kill makes a sleeper RUNNABLE; takes ptable.lock for one step

  ghost function Move(s: State, q: nat, pc: Pc): (r: State) {
    s.(pcs := s.pcs[q := pc])
  }

  /** wakeup1: every SLEEPING process becomes RUNNABLE. */
  ghost function Woken(pcs: map<nat, Pc>): (r: map<nat, Pc>) {
    map q | q in pcs :: if pcs[q] == Asleep || pcs[q] == Falling then Ready else pcs[q]
  }

  ghost predicate Enabled(s: State, e: Event) {
    match e
    case EnterWait(q) => (q !in s.pcs || At(s, q, Outside)) && s.lk == Free
    case TestTrue(q, _) => At(s, q, Testing) && s.cond
    case TestFalse(q) => At(s, q, Testing) && !s.cond
    case TakePt(q) => At(s, q, Sleep1) && s.pt == Free
    case DropLk(q) => At(s, q, Sleep2)
    case SetSleeping(q) => At(s, q, Sleep3)
    case Switch(q) => At(s, q, Falling)
    case Again(q) => At(s, q, Ready) && s.lk == Free
    case EnterSet(q) => (q !in s.pcs || At(s, q, Outside)) && s.lk == Free
    case Set(q) => At(s, q, Setting)
    case Clear(q) => At(s, q, Setting)
    case TakePtToWake(q) => At(s, q, Waking) && s.pt == Free
    case WakeAll(q) => At(s, q, Waking2)
    case Leave(q) => At(s, q, Woke)
    case Kill(q) => At(s, q, Asleep) && s.pt == Free
  }

  ghost function Next(s: State, e: Event): (r: State) {
    match e
    case EnterWait(q) => Move(s, q, Testing).(lk := HeldBy(q))
    case TestTrue(q, after) => Move(s, q, Outside).(lk := Free, cond := after)
    case TestFalse(q) => Move(s, q, Sleep1)
    case TakePt(q) => Move(s, q, Sleep2).(pt := HeldBy(q))
    case DropLk(q) => Move(s, q, Sleep3).(lk := Free)
    case SetSleeping(q) => Move(s, q, Falling)
    case Switch(q) => Move(s, q, Asleep).(pt := Free)
    case Again(q) => Move(s, q, Testing).(lk := HeldBy(q))
    case EnterSet(q) => Move(s, q, Setting).(lk := HeldBy(q))
    case Set(q) => Move(s, q, Waking).(cond := true)
    case Clear(q) => Move(s, q, Outside).(cond := false, lk := Free)
    case TakePtToWake(q) => Move(s, q, Waking2).(pt := HeldBy(q))
    case WakeAll(q) => State(s.cond, s.lk, Free, Woken(s.pcs)[q := Woke])
    case Leave(q) => Move(s, q, Outside).(lk := Free)
    case Kill(q) => Move(s, q, Ready)
  }

  /** Each lock is held by exactly the process whose place in the code says so. */
  ghost predicate Locks(s: State) {
    && (forall q | q in s.pcs && NeedsLk(s.pcs[q]) :: s.lk == HeldBy(q))
    && (forall q | q in s.pcs && NeedsPt(s.pcs[q]) :: s.pt == HeldBy(q))
    && (s.lk.HeldBy? ==> s.lk.q in s.pcs && NeedsLk(s.pcs[s.lk.q]))
    && (s.pt.HeldBy? ==> s.pt.q in s.pcs && NeedsPt(s.pcs[s.pt.q]))
  }

  /** Somebody has made the condition true and has yet to wake the sleepers. */
  ghost predicate WakeupPending(s: State) {
    s.lk.HeldBy? && (At(s, s.lk.q, Waking) || At(s, s.lk.q, Waking2))
  }

  ghost predicate Inv(s: State) {
    Locks(s) && Tested(s) && Covered(s)
  }

  /** One lock follows one process from place to place. */
  predicate Handed(before: Lock, had: bool, has: bool, q: nat, after: Lock) {
    if has == had then after == before
    else if has then before == Free && after == HeldBy(q)
    else after == Free
  }

  /** A process moves, taking and releasing locks as its places demand. */
  lemma MoveLocks(s: State, q: nat, pc: Pc, t: State)
    requires Locks(s) && t.pcs == s.pcs[q := pc]
    requires Handed(s.lk, q in s.pcs && NeedsLk(s.pcs[q]), NeedsLk(pc), q, t.lk)
    requires Handed(s.pt, q in s.pcs && NeedsPt(s.pcs[q]), NeedsPt(pc), q, t.pt)
    ensures Locks(t)
  {
  }

  lemma StepLocks(s: State, e: Event)
    requires Locks(s) && Enabled(s, e)
    ensures Locks(Next(s, e))
  {
    hide Locks;
    var t := Next(s, e);
    if e.WakeAll? {
      WakeLocks(s, e.q);
    } else {
      MoveLocks(s, e.q, t.pcs[e.q], t);
    }
  }

  lemma WakeLocks(s: State, q: nat)
    requires Locks(s) && At(s, q, Waking2)
    ensures Locks(Next(s, WakeAll(q)))
  {
  }

  /** Who has tested and found the condition false, while holding its lock, is right. */
  ghost predicate Tested(s: State) {
    forall q | q in s.pcs && (s.pcs[q] == Sleep1 || s.pcs[q] == Sleep2) :: !s.cond
  }

  /** Who is asleep or on the way there, with the condition true, will be woken. */
  ghost predicate Covered(s: State) {
    forall q | q in s.pcs && Committed(s.pcs[q]) && s.cond :: WakeupPending(s)
  }

  lemma StepTested(s: State, e: Event)
    requires Inv(s) && Enabled(s, e)
    ensures Tested(Next(s, e))
  {
  }

  lemma StepCovered(s: State, e: Event)
    requires Inv(s) && Enabled(s, e)
    ensures Covered(Next(s, e))
  {
  }

  lemma StepInv(s: State, e: Event)
    requires Inv(s) && Enabled(s, e)
    ensures Inv(Next(s, e))
  {
    hide Locks, Tested, Covered, Next, Enabled;
    StepLocks(s, e);
    StepTested(s, e);
    StepCovered(s, e);
  }

  ghost predicate Run(s: State, es: seq<Event>)
    decreases |es|
  {
    es == [] || (Enabled(s, es[0]) && Run(Next(s, es[0]), es[1..]))
  }

  ghost function Final(s: State, es: seq<Event>): (r: State)
    requires Run(s, es)
    decreases |es|
  {
    if es == [] then s else Final(Next(s, es[0]), es[1..])
  }

  lemma {:induction false} RunInv(s: State, es: seq<Event>)
    requires Inv(s) && Run(s, es)
    ensures Inv(Final(s, es))
    decreases |es|
  {
    if es != [] {
      StepInv(s, es[0]);
      RunInv(Next(s, es[0]), es[1..]);
    }
  }

  /** wakeup leaves nobody asleep and moves nobody else. */
  lemma WakeAllWakes(s: State, q: nat)
    requires Locks(s) && Enabled(s, WakeAll(q))
    ensures var t := Next(s, WakeAll(q));
            && t.pcs.Keys == s.pcs.Keys && t.cond == s.cond && t.lk == s.lk && t.pt == Free && At(t, q, Woke)
            && forall r | r in s.pcs && r != q ::
                 t.pcs[r] == if s.pcs[r] == Asleep || s.pcs[r] == Falling then Ready else s.pcs[r]
  {
  }

  /** The protocol does put a process to sleep: one that finds the condition false, and nobody in its way,
      ends up asleep with both locks free ... */
  lemma FallsAsleep(s: State, q: nat) returns (es: seq<Event>)
    requires s.lk == Free && s.pt == Free && !s.cond && (q !in s.pcs || At(s, q, Outside))
    ensures es == [EnterWait(q), TestFalse(q), TakePt(q), DropLk(q), SetSleeping(q), Switch(q)]
    ensures Run(s, es) && Final(s, es) == s.(pcs := s.pcs[q := Asleep])
  {
    hide Run, Final;
    es := [EnterWait(q), TestFalse(q), TakePt(q), DropLk(q), SetSleeping(q), Switch(q)];
    Unfold(s, es);
    var s1 := Next(s, es[0]);
    Unfold(s1, es[1..]);
    var s2 := Next(s1, es[1]);
    Unfold(s2, es[2..]);
    var s3 := Next(s2, es[2]);
    Unfold(s3, es[3..]);
    var s4 := Next(s3, es[3]);
    Unfold(s4, es[4..]);
    var s5 := Next(s4, es[4]);
    Unfold(s5, es[5..]);
    var s6 := Next(s5, es[5]);
    assert es[5..][1..] == [] && s6.pcs == s.pcs[q := Asleep];
    Nothing(s6);
  }

  /** ... and one that makes the condition true wakes it. */
  lemma GetsWoken(s: State, q: nat, r: nat) returns (es: seq<Event>)
    requires s.lk == Free && s.pt == Free && At(s, q, Asleep) && q != r && (r !in s.pcs || At(s, r, Outside))
    ensures es == [EnterSet(r), Set(r), TakePtToWake(r), WakeAll(r), Leave(r), Again(q)]
    ensures Run(s, es) && At(Final(s, es), q, Testing) && Final(s, es).cond && Final(s, es).lk == HeldBy(q)
  {
    hide Run, Final, Next, Enabled;
    es := [EnterSet(r), Set(r), TakePtToWake(r), WakeAll(r), Leave(r), Again(q)];
    var s3 := State(true, HeldBy(r), HeldBy(r), s.pcs[r := Waking2]);
    MakesTrue(s, r);
    Unfold(s, es);
    Unfold(Next(s, es[0]), es[1..]);
    Unfold(Next(Next(s, es[0]), es[1]), es[2..]);
    WakesAndLeaves(s3, q, r);
    Unfold(s3, es[3..]);
    Unfold(Next(s3, es[3]), es[4..]);
    Unfold(Next(Next(s3, es[3]), es[4]), es[5..]);
    assert es[5..][1..] == [];
    Nothing(Next(Next(Next(s3, es[3]), es[4]), es[5]));
  }

  lemma MakesTrue(s: State, r: nat)
    requires s.lk == Free && s.pt == Free && (r !in s.pcs || At(s, r, Outside))
    ensures var s1 := Next(s, EnterSet(r));
            var s2 := Next(s1, Set(r));
            && Enabled(s, EnterSet(r)) && Enabled(s1, Set(r)) && Enabled(s2, TakePtToWake(r))
            && Next(s2, TakePtToWake(r)) == State(true, HeldBy(r), HeldBy(r), s.pcs[r := Waking2])
  {
    assert s.pcs[r := Setting][r := Waking][r := Waking2] == s.pcs[r := Waking2];
  }

  lemma WakesAndLeaves(s: State, q: nat, r: nat)
    requires s.cond && At(s, q, Asleep) && At(s, r, Waking2) && q != r
    ensures var s1 := Next(s, WakeAll(r));
            var s2 := Next(s1, Leave(r));
            && Enabled(s, WakeAll(r)) && Enabled(s1, Leave(r)) && Enabled(s2, Again(q))
            && At(Next(s2, Again(q)), q, Testing) && Next(s2, Again(q)).cond && Next(s2, Again(q)).lk == HeldBy(q)
  {
  }

  lemma Nothing(s: State)
    ensures Run(s, []) && Final(s, []) == s
  {
  }

  lemma Unfold(s: State, es: seq<Event>)
    requires es != []
    ensures Enabled(s, es[0]) && Run(Next(s, es[0]), es[1..]) ==>
              Run(s, es) && Final(s, es) == Final(Next(s, es[0]), es[1..])
  {
  }

  /** No lost wakeup: from any start with both locks free and nobody inside, whenever the
      condition's lock is free and the condition holds, nobody is asleep or on the way there. */
  lemma NoLostWakeup(s: State, es: seq<Event>, q: nat)
    requires s.lk == Free && s.pt == Free && s.pcs == map[] && Run(s, es)
    ensures var t := Final(s, es); t.lk == Free && t.cond && q in t.pcs ==> !Committed(t.pcs[q])
  {
    RunInv(s, es);
  }
}
