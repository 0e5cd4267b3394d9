/** Who is dispatched when, if nobody changes priorities (scheduler in proc.c): turns on the ready lists, what
    interrupts and dispatches do to them, and who can be made to run before a given process and before the reset. */
module Turns {

  import opened ProcSpec
  import opened Fairness
  import opened Starvation

  // ----- whose turn it is

  /** Where x is in a list. */
  ghost function Spot(l: seq<nat>, x: nat): (k: nat)
    requires x in l
    ensures k < |l| && l[k] == x
  {
    if l[0] == x then 0 else 1 + Spot(l[1..], x)
  }

  lemma {:induction false} SpotPrefix(a: seq<nat>, b: seq<nat>, x: nat)
    requires a <= b && x in a
    ensures Spot(b, x) == Spot(a, x)
    decreases |a|
  {
    if a[0] != x {
      assert a[1..] <= b[1..];
      SpotPrefix(a[1..], b[1..], x);
    }
  }

  lemma {:induction false} SpotAfter(a: seq<nat>, b: seq<nat>, x: nat)
    requires x !in a && x in b
    ensures Spot(a + b, x) == |a| + Spot(b, x)
    decreases |a|
  {
    if a == [] {
      assert a + b == b;
    } else {
      assert (a + b)[1..] == a[1..] + b && (a + b)[0] == a[0];
      SpotAfter(a[1..], b, x);
    }
  }

  /** How many are queued on the lists before list i. */
  ghost function Ahead(s: State, i: nat): (n: nat)
    requires |s.ready| == SIZE
  {
    (if i > 0 then |s.ready[0]| else 0) + (if i > 1 then |s.ready[1]| else 0) + if i > 2 then |s.ready[2]| else 0
  }

  ghost predicate Listed(s: State, x: nat)
    requires Wf(s)
  {
    x < NPROC && x in s.ready[s.procs[x].priority]
  }

  /** How many are dispatched before x, if nobody joins a list ahead of it. */
  ghost function Turn(s: State, x: nat): (n: nat)
    requires Wf(s) && Listed(s, x)
  {
    Ahead(s, s.procs[x].priority) + Spot(s.ready[s.procs[x].priority], x)
  }

  lemma IsListed(s: State, x: nat)
    requires Inv(s)
    ensures Is(s, x, RUNNABLE) <==> Listed(s, x)
  {
    hide NoLostChild, Family, Pids, FreeOk;
  }

  /** Turns follow priorities and then places. */
  lemma TurnLess(s: State, x: nat, y: nat)
    requires Wf(s) && Listed(s, x) && Listed(s, y)
    ensures var i, j := s.procs[x].priority, s.procs[y].priority;
            Turn(s, x) < Turn(s, y) <==> i < j || (i == j && Spot(s.ready[i], x) < Spot(s.ready[j], y))
    ensures s.procs[x].priority < s.procs[y].priority ==> Turn(s, y) >= Ahead(s, s.procs[x].priority + 1)
  {
    hide Spot;
  }

  /** Lists have grown at their tails. */
  ghost predicate Longer(s: State, t: State)
    requires Wf(s) && Wf(t)
  {
    t.timeToReset == s.timeToReset && forall i: nat | i < SIZE :: s.ready[i] <= t.ready[i]
  }

  /** RUNNABLE before and after, at the same priority. */
  ghost predicate Stays(s: State, t: State, x: nat)
    requires Wf(s) && Wf(t)
  {
    Listed(s, x) && t.procs[x].priority == s.procs[x].priority
  }

  /** What has become of c: RUNNABLE or asleep, it was so before, or asleep and has been woken. */
  ghost predicate Traces(s: State, t: State, c: nat)
    requires Wf(s) && Wf(t) && c < NPROC
  {
    var a, b := s.procs[c], t.procs[c];
    && (b.state == RUNNABLE ==> (a.state == RUNNABLE || a.state == SLEEPING) && b.priority == a.priority)
    && (b.state == SLEEPING ==>
          a.state == SLEEPING && b.priority == a.priority && b.chan == a.chan && b.killed == a.killed)
  }

  // ----- who can be made to run, and when

  ghost predicate Busy(s: State)
    requires Wf(s)
  {
    exists r: nat :: Is(s, r, RUNNING)
  }

  /** x runs, or is dispatched before q, or is put ahead of q when somebody wakes it. */
  ghost predicate OnTime(s: State, q: nat, x: nat)
    requires Wf(s) && Listed(s, q)
  {
    && x < NPROC && x != q
    && (Is(s, x, RUNNING) || (Listed(s, x) && Turn(s, x) < Turn(s, q))
        || (Is(s, x, SLEEPING) && s.procs[x].priority < s.procs[q].priority))
  }

  /** How many dispatches it takes until x runs; a sleeper is woken now. */
  ghost function Rank(s: State, x: nat): (n: nat)
    requires Wf(s) && x < NPROC
  {
    if Is(s, x, RUNNING) then 0
    else if Listed(s, x) then Turn(s, x) + 1
    else Ahead(s, s.procs[x].priority + 1) + 1
  }

  /** y sleeps and, woken, goes ahead of x or behind it on the same list. */
  ghost predicate Delays(s: State, x: nat, y: nat)
    requires Wf(s)
  {
    x != y && Is(s, y, SLEEPING) && x < NPROC &&
      (Is(s, x, SLEEPING) || (Listed(s, x) && s.procs[y].priority < s.procs[x].priority))
  }

  /** What is added when both are to run. */
  ghost function Lag(s: State, x: nat, y: nat): (n: nat)
    requires Wf(s)
  {
    if Delays(s, x, y) || Delays(s, y, x) then 1 else 0
  }

  /** Both can be made to run before q, with a dispatch left before the reset. */
  ghost predicate Both(s: State, q: nat, x: nat, y: nat)
    requires Wf(s) && Listed(s, q)
  {
    && OnTime(s, q, x) && OnTime(s, q, y)
    && Rank(s, x) + Lag(s, x, y) < s.timeToReset && Rank(s, y) + Lag(s, x, y) < s.timeToReset
  }

  /** The lists up to q have grown at their tails, the list of q only behind it. */
  ghost predicate Before(s: State, t: State, q: nat)
    requires Wf(s) && Wf(t) && Listed(s, q)
  {
    var p := s.procs[q].priority;
    && t.timeToReset == s.timeToReset && t.procs[q].priority == p
    && (forall i: nat | i < p :: s.ready[i] <= t.ready[i])
    && s.ready[p][..Spot(s.ready[p], q) + 1] <= t.ready[p]
  }

  lemma LongerBefore(s: State, t: State, q: nat)
    requires Wf(s) && Wf(t) && Longer(s, t) && Stays(s, t, q)
    ensures Before(s, t, q)
  {
    hide Spot;
    var p := s.procs[q].priority;
    assert s.ready[p] <= t.ready[p];
  }

  lemma BeforeAhead(s: State, t: State, q: nat, i: nat)
    requires Wf(s) && Wf(t) && Listed(s, q) && Before(s, t, q) && i <= s.procs[q].priority
    ensures Ahead(s, i) <= Ahead(t, i)
  {
    hide Spot;
    assert i > 0 ==> s.ready[0] <= t.ready[0];
    assert i > 1 ==> s.ready[1] <= t.ready[1];
    assert i <= 2;
  }

  /** Who is in front of q on its list, or q itself, is in the same place. */
  lemma SamePlace(s: State, t: State, q: nat, x: nat)
    requires Wf(s) && Wf(t) && Listed(s, q) && Before(s, t, q)
    requires var p := s.procs[q].priority; x in t.ready[p] && Spot(t.ready[p], x) <= Spot(s.ready[p], q)
    ensures var p := s.procs[q].priority; x in s.ready[p] && Spot(s.ready[p], x) == Spot(t.ready[p], x)
  {
    hide Spot;
    var p := s.procs[q].priority;
    var a := s.ready[p][..Spot(s.ready[p], q) + 1];
    assert a[Spot(t.ready[p], x)] == x;
    SpotPrefix(a, s.ready[p], x);
    SpotPrefix(a, t.ready[p], x);
  }

  lemma BeforeQueued(s: State, t: State, q: nat)
    requires Wf(s) && Wf(t) && Listed(s, q) && Before(s, t, q)
    ensures Listed(t, q) && Spot(t.ready[s.procs[q].priority], q) == Spot(s.ready[s.procs[q].priority], q)
  {
    hide Spot;
    var p := s.procs[q].priority;
    var k := Spot(s.ready[p], q);
    var a := s.ready[p][..k + 1];
    assert a[k] == q && t.ready[p][k] == q;
    SpotPrefix(a, s.ready[p], q);
    SpotPrefix(a, t.ready[p], q);
  }

  /** x is queued ahead of q, now and before. */
  lemma QueuedBack(s: State, t: State, q: nat, x: nat)
    requires Wf(s) && Wf(t) && Listed(s, q) && Before(s, t, q) && Listed(t, q)
    requires Listed(s, x) && Listed(t, x) && t.procs[x].priority == s.procs[x].priority && Turn(t, x) < Turn(t, q)
    ensures Turn(s, x) <= Turn(t, x) && Turn(s, x) < Turn(s, q) && s.procs[x].priority <= s.procs[q].priority
    ensures Turn(t, x) == Ahead(t, s.procs[x].priority) + Turn(s, x) - Ahead(s, s.procs[x].priority)
  {
    hide Spot, Ahead;
    BeforeQueued(s, t, q);
    TurnLess(t, x, q);
    TurnLess(s, x, q);
    var i, p := s.procs[x].priority, s.procs[q].priority;
    BeforeAhead(s, t, q, i);
    if i == p {
      SamePlace(s, t, q, x);
    } else {
      SpotPrefix(s.ready[i], t.ready[i], x);
    }
  }

  /** x has joined a list ahead of q: its tail. */
  lemma JoinedBack(s: State, t: State, q: nat, x: nat)
    requires Wf(s) && Wf(t) && Listed(s, q) && Before(s, t, q) && Listed(t, q) && Listed(t, x)
    requires x !in s.ready[t.procs[x].priority] && Turn(t, x) < Turn(t, q)
    ensures var i := t.procs[x].priority;
            && i < s.procs[q].priority && Ahead(s, i + 1) <= Turn(t, x) && |s.ready[i]| < |t.ready[i]|
            && |s.ready[i]| <= Spot(t.ready[i], x)
  {
    hide Spot;
    BeforeQueued(s, t, q);
    TurnLess(t, x, q);
    var i, p := t.procs[x].priority, s.procs[q].priority;
    if i == p {
      SamePlace(s, t, q, x);
    }
    var a, b := s.ready[i], t.ready[i];
    assert a <= b;
    assert b == a + b[|a|..];
    SpotAfter(a, b[|a|..], x);
    BeforeAhead(s, t, q, i);
  }

  /** x ran then, or it is now what it was then or has been woken since. */
  ghost predicate From(s: State, t: State, x: nat)
    requires Wf(s) && Wf(t) && x < NPROC
  {
    Is(s, x, RUNNING) || (!Is(t, x, RUNNING) && Traces(s, t, x))
  }

  lemma RankBack(s: State, t: State, q: nat, x: nat)
    requires Inv(s) && Inv(t) && Is(s, q, RUNNABLE) && Listed(s, q) && Before(s, t, q) && Listed(t, q)
    requires OnTime(t, q, x) && From(s, t, x)
    ensures OnTime(s, q, x) && Rank(s, x) <= Rank(t, x)
  {
    hide Inv, Spot, Ahead, Turn;
    InvShape(s);
    InvShape(t);
    IsListed(s, x);
    IsListed(t, x);
    if !Is(s, x, RUNNING) {
      if Is(t, x, SLEEPING) {
        BeforeAhead(s, t, q, s.procs[x].priority + 1);
      } else if Is(s, x, SLEEPING) {
        JoinedBack(s, t, q, x);
      } else {
        QueuedBack(s, t, q, x);
      }
    }
  }

  lemma AheadLess(s: State, i: nat, j: nat)
    requires |s.ready| == SIZE && i <= j
    ensures Ahead(s, i) <= Ahead(s, j)
  {
  }

  /** One more on list i. */
  lemma JoinedAhead(s: State, t: State, q: nat, i: nat, j: nat)
    requires Wf(s) && Wf(t) && Listed(s, q) && Before(s, t, q) && i < j <= s.procs[q].priority
    requires |s.ready[i]| < |t.ready[i]|
    ensures Ahead(s, j) < Ahead(t, j)
  {
    hide Spot;
    assert j > 0 ==> s.ready[0] <= t.ready[0];
    assert j > 1 ==> s.ready[1] <= t.ready[1];
    assert j <= 2;
  }

  /** Both have slept and are queued now, y first. */
  lemma BothJoined(s: State, t: State, q: nat, x: nat, y: nat)
    requires Wf(s) && Wf(t) && Listed(s, q) && Before(s, t, q) && Listed(t, q) && Listed(t, x) && Listed(t, y)
    requires x !in s.ready[t.procs[x].priority] && y !in s.ready[t.procs[y].priority]
    requires Turn(t, y) < Turn(t, x) < Turn(t, q)
    ensures t.procs[y].priority <= t.procs[x].priority && Ahead(s, t.procs[x].priority + 1) < Turn(t, x)
  {
    hide Spot;
    var i, j := t.procs[x].priority, t.procs[y].priority;
    JoinedBack(s, t, q, x);
    JoinedBack(s, t, q, y);
    TurnLess(t, y, x);
    BeforeAhead(s, t, q, i);
    if j < i {
      JoinedAhead(s, t, q, j, i);
    }
  }

  /** x has been queued all along, and y has joined a list before it. */
  lemma OneJoined(s: State, t: State, q: nat, x: nat, y: nat)
    requires Wf(s) && Wf(t) && Listed(s, q) && Before(s, t, q) && Listed(t, q) && Listed(t, y)
    requires y !in s.ready[t.procs[y].priority] && Turn(t, y) < Turn(t, q)
    requires Listed(s, x) && Listed(t, x) && t.procs[x].priority == s.procs[x].priority && Turn(t, x) < Turn(t, q)
    requires t.procs[y].priority < s.procs[x].priority
    ensures Turn(s, x) < Turn(t, x) && Ahead(s, t.procs[y].priority + 1) <= Turn(s, x)
  {
    hide Spot;
    JoinedBack(s, t, q, y);
    QueuedBack(s, t, q, x);
    JoinedAhead(s, t, q, t.procs[y].priority, s.procs[x].priority);
    AheadLess(s, t.procs[y].priority + 1, s.procs[x].priority);
  }

  /** y sleeps on and x has joined its list or one before. */
  lemma SleepsOn(s: State, t: State, q: nat, x: nat, y: nat)
    requires Wf(s) && Wf(t) && Listed(s, q) && Before(s, t, q) && Listed(t, q) && Listed(t, x)
    requires x !in s.ready[t.procs[x].priority] && Turn(t, x) < Turn(t, q)
    requires y < NPROC && t.procs[x].priority <= s.procs[y].priority < s.procs[q].priority
    ensures Ahead(s, s.procs[y].priority + 1) < Ahead(t, s.procs[y].priority + 1)
    ensures Ahead(s, t.procs[x].priority + 1) <= Ahead(s, s.procs[y].priority + 1)
  {
    hide Spot;
    JoinedBack(s, t, q, x);
    JoinedAhead(s, t, q, t.procs[x].priority, s.procs[y].priority + 1);
    AheadLess(s, t.procs[x].priority + 1, s.procs[y].priority + 1);
  }

  /** With a delay before but not after, something has been gained meanwhile. */
  lemma DelayGone(s: State, t: State, q: nat, x: nat, y: nat)
    requires Inv(s) && Inv(t) && Is(s, q, RUNNABLE) && Listed(s, q) && Before(s, t, q) && Listed(t, q)
    requires OnTime(t, q, x) && From(s, t, x) && OnTime(t, q, y) && From(s, t, y)
    requires Delays(s, x, y) && Lag(t, x, y) == 0
    ensures || (Rank(s, x) < Rank(t, x) && Rank(s, y) <= Rank(s, x))
            || (Rank(s, y) < Rank(t, y) && Rank(s, x) <= Rank(s, y))
  {
    hide Inv, Spot, Ahead, Turn;
    InvShape(s);
    InvShape(t);
    IsListed(s, x);
    IsListed(t, x);
    IsListed(s, y);
    IsListed(t, y);
    assert Is(s, y, SLEEPING) && !Is(s, x, RUNNING);
    if Is(s, x, RUNNABLE) {
      OneJoined(s, t, q, x, y);
    } else if Is(t, x, RUNNABLE) && Is(t, y, RUNNABLE) {
      TurnsDiffer(t, x, y);
      if Turn(t, y) < Turn(t, x) {
        BothJoined(s, t, q, x, y);
        AheadLess(s, s.procs[y].priority + 1, s.procs[x].priority + 1);
      } else {
        BothJoined(s, t, q, y, x);
        AheadLess(s, s.procs[x].priority + 1, s.procs[y].priority + 1);
      }
    } else if Is(t, x, RUNNABLE) {
      SleepsOn(s, t, q, x, y);
    } else {
      SleepsOn(s, t, q, y, x);
    }
  }

  lemma TurnsDiffer(s: State, x: nat, y: nat)
    requires Wf(s) && Listed(s, x) && Listed(s, y) && x != y
    ensures Turn(s, x) != Turn(s, y)
  {
    hide Spot;
    TurnLess(s, x, y);
    TurnLess(s, y, x);
  }

  /** Whoever can both be made to run now could be so before. */
  lemma BothBack(s: State, t: State, q: nat, x: nat, y: nat)
    requires Inv(s) && Inv(t) && Is(s, q, RUNNABLE) && Listed(s, q) && Before(s, t, q) && Listed(t, q)
    requires Both(t, q, x, y) && From(s, t, x) && From(s, t, y)
    ensures Both(s, q, x, y)
  {
    hide Inv, OnTime, Rank, Delays;
    InvShape(s);
    InvShape(t);
    RankBack(s, t, q, x);
    RankBack(s, t, q, y);
    if Lag(t, x, y) == 0 {
      if Delays(s, x, y) {
        DelayGone(s, t, q, x, y);
      } else if Delays(s, y, x) {
        DelayGone(s, t, q, y, x);
      }
    }
  }

  // ----- interrupts

  ghost function Interrupt(s: State, a: nat): (t: State)
    requires Wf(s)
    ensures Wf(t)
  {
    WakeUpTo(s, Device(a), NPROC)
  }

  /** The sleepers on device a among the first n slots, at priority i. */
  ghost function Sleepers(s: State, a: nat, i: nat, n: nat): (l: seq<nat>)
    requires Wf(s) && n <= NPROC
  {
    if n == 0 then []
    else
      var p := s.procs[n - 1];
      Sleepers(s, a, i, n - 1) + if p.state == SLEEPING && p.chan == Device(a) && p.priority == i then [n - 1] else []
  }

  lemma {:induction false} InSleepers(s: State, a: nat, i: nat, n: nat, x: nat)
    requires Wf(s) && n <= NPROC
    ensures x in Sleepers(s, a, i, n) <==>
              x < n && s.procs[x].state == SLEEPING && s.procs[x].chan == Device(a) && s.procs[x].priority == i
  {
    if n > 0 {
      InSleepers(s, a, i, n - 1, x);
    }
  }

  lemma {:induction false} SameSleepers(s: State, t: State, a: nat, i: nat, n: nat)
    requires Wf(s) && Wf(t) && n <= NPROC
    requires forall x: nat | x < NPROC ::
               t.procs[x] == s.procs[x] || (s.procs[x].chan != Device(a) && t.procs[x].chan != Device(a))
    ensures Sleepers(t, a, i, n) == Sleepers(s, a, i, n)
  {
    if n > 0 {
      SameSleepers(s, t, a, i, n - 1);
      assert t.procs[n - 1] == s.procs[n - 1] || s.procs[n - 1].chan != Device(a);
    }
  }

  /** What an interrupt does to the lists. */
  lemma {:induction false} WokenLists(s: State, a: nat, n: nat, i: nat)
    requires Wf(s) && n <= NPROC && i < SIZE
    ensures WakeUpTo(s, Device(a), n).ready[i] == s.ready[i] + Sleepers(s, a, i, n)
    ensures WakeUpTo(s, Device(a), n).timeToReset == s.timeToReset
  {
    hide Wf, Wake;
    WfShape(s);
    if n > 0 {
      var t, p := WakeUpTo(s, Device(a), n - 1), s.procs[n - 1];
      WfShape(t);
      WokenLists(s, a, n - 1, i);
      WakeUpToProcs(s, Device(a), n - 1);
      assert t.procs[n - 1] == p;
      if p.state == SLEEPING && p.chan == Device(a) {
        WakeReady(t, n - 1, i);
        assert WakeUpTo(s, Device(a), n) == Wake(t, n - 1);
        assert s.ready[i] + Sleepers(s, a, i, n - 1) + [n - 1] == s.ready[i] + (Sleepers(s, a, i, n - 1) + [n - 1]);
      }
    }
  }

  lemma WfShape(s: State)
    requires Wf(s)
    ensures |s.procs| == NPROC && |s.ready| == SIZE && forall p: nat | p < NPROC :: s.procs[p].priority < SIZE
  {
  }

  lemma WakeReady(s: State, p: nat, i: nat)
    requires Wf(s) && p < NPROC && i < SIZE
    ensures var t := Wake(s, p);
            |t.ready| == SIZE && t.ready[i] == s.ready[i] + (if s.procs[p].priority == i then [p] else []) &&
            t.timeToReset == s.timeToReset
  {
  }

  lemma InterruptLists(s: State, a: nat)
    requires Wf(s)
    ensures forall i: nat | i < SIZE :: Interrupt(s, a).ready[i] == s.ready[i] + Sleepers(s, a, i, NPROC)
    ensures Longer(s, Interrupt(s, a))
  {
    forall i: nat | i < SIZE
      ensures Interrupt(s, a).ready[i] == s.ready[i] + Sleepers(s, a, i, NPROC)
      ensures Interrupt(s, a).timeToReset == s.timeToReset
    {
      WokenLists(s, a, NPROC, i);
    }
    hide WakeUpTo, Sleepers;
    assert Interrupt(s, a).ready[0] == s.ready[0] + Sleepers(s, a, 0, NPROC);
  }

  lemma InterruptProcs(s: State, a: nat)
    requires Inv(s)
    ensures Inv(Interrupt(s, a)) && Busy(Interrupt(s, a)) == Busy(s) && Interrupt(s, a).initproc == s.initproc
    ensures forall p: nat | p < NPROC ::
              Interrupt(s, a).procs[p] == if s.procs[p].state == SLEEPING && s.procs[p].chan == Device(a)
                                          then s.procs[p].(state := RUNNABLE) else s.procs[p]
  {
    WakeupInv(s, Device(a));
    WakeUpToProcs(s, Device(a), NPROC);
    hide WakeUpTo, Inv;
    var t := Interrupt(s, a);
    if Busy(s) {
      var r: nat :| Is(s, r, RUNNING);
      assert Is(t, r, RUNNING);
    }
    if Busy(t) {
      var r: nat :| Is(t, r, RUNNING);
      assert Is(s, r, RUNNING);
    }
  }

  /** The lists after b, after b and a, and after a alone. */
  ghost predicate Parted(s: State, t: State, u: State, v: State, a: nat, b: nat)
    requires Wf(s) && Wf(t)
  {
    && Wf(u) && Wf(v) && t.timeToReset == u.timeToReset == v.timeToReset == s.timeToReset
    && (forall i: nat | i < SIZE :: t.ready[i] == s.ready[i] + Sleepers(s, b, i, NPROC))
    && (forall i: nat | i < SIZE :: u.ready[i] == t.ready[i] + if a == b then [] else Sleepers(s, a, i, NPROC))
    && (forall i: nat | i < SIZE :: v.ready[i] == s.ready[i] + Sleepers(s, a, i, NPROC))
  }

  lemma SecondGroup(s: State, a: nat, b: nat, i: nat)
    requires Inv(s)
    ensures Sleepers(Interrupt(s, b), a, i, NPROC) == if a == b then [] else Sleepers(s, a, i, NPROC)
  {
    var t := Interrupt(s, b);
    InterruptProcs(s, b);
    hide Inv, Interrupt;
    if a == b {
      var l := Sleepers(t, a, i, NPROC);
      if l != [] {
        InSleepers(t, a, i, NPROC, l[0]);
      }
    } else {
      SameSleepers(s, t, a, i, NPROC);
    }
  }

  lemma PartedLists(s: State, a: nat, b: nat)
    requires Inv(s)
    ensures var t := Interrupt(s, b); Parted(s, t, Interrupt(t, a), Interrupt(s, a), a, b)
  {
    var t := Interrupt(s, b);
    InterruptLists(s, b);
    InterruptLists(t, a);
    InterruptLists(s, a);
    hide Inv, Interrupt, Sleepers;
    InvShape(s);
    forall i: nat | i < SIZE ensures Sleepers(t, a, i, NPROC) == if a == b then [] else Sleepers(s, a, i, NPROC) {
      SecondGroup(s, a, b, i);
    }
  }

  // ----- dispatches

  /** Before the reset a dispatch moves everybody up by one. */
  lemma DispatchLists(s: State, i: nat)
    requires Inv(s) && s.ready[Top(s)] != [] && s.timeToReset > 1 && i < SIZE
    ensures var t := Dispatch(s);
            && Inv(t) && t.timeToReset == s.timeToReset - 1 && Is(t, Pick(s), RUNNING)
            && t.ready[i] == if i == Top(s) then s.ready[i][1..] else s.ready[i]
  {
    DispatchInv(s);
    DispatchReady(s);
    DispatchProcs(s);
    hide Lists, NoLostChild, Family, Pids, FreeOk, Dispatch;
  }

  lemma DispatchTurn(s: State, x: nat)
    requires Inv(s) && s.ready[Top(s)] != [] && s.timeToReset > 1 && Is(s, x, RUNNABLE)
    ensures Inv(Dispatch(s)) && Listed(s, x) && (x == Pick(s) <==> Turn(s, x) == 0)
    ensures x != Pick(s) ==> Listed(Dispatch(s), x) && Turn(Dispatch(s), x) == Turn(s, x) - 1
  {
    var t, i := Dispatch(s), s.procs[x].priority;
    DispatchInv(s);
    DispatchProcs(s);
    DispatchReady(s);
    IsListed(s, x);
    IsListed(t, x);
    forall j: nat | j < SIZE ensures t.ready[j] == if j == Top(s) then s.ready[j][1..] else s.ready[j] {
      DispatchLists(s, j);
    }
    hide Inv, Dispatch;
    InvShape(s);
    TopAhead(s, i);
  }

  lemma TopAhead(s: State, i: nat)
    requires Wf(s) && i < SIZE && s.ready[i] != []
    ensures Top(s) <= i && (Top(s) == i ==> Ahead(s, i) == 0) && (Top(s) < i ==> Ahead(s, i) > 0)
  {
  }

  lemma DispatchAhead(s: State, p: nat)
    requires Inv(s) && s.ready[Top(s)] != [] && s.timeToReset > 1 && p < SIZE
    ensures |Dispatch(s).ready| == SIZE
    ensures Ahead(Dispatch(s), p + 1) == if Top(s) <= p then Ahead(s, p + 1) - 1 else Ahead(s, p + 1)
    ensures Top(s) > p ==> Ahead(s, p + 1) == 0
  {
    forall j: nat | j < SIZE ensures Dispatch(s).ready[j] == if j == Top(s) then s.ready[j][1..] else s.ready[j] {
      DispatchLists(s, j);
    }
    DispatchInv(s);
    hide Lists, NoLostChild, Family, Pids, FreeOk, Dispatch;
  }

  /** A dispatch that does not reset. */
  lemma PlainDispatch(s: State)
    requires Inv(s) && s.ready[Top(s)] != [] && s.timeToReset > 1
    ensures var i, p := Top(s), Pick(s);
            && Inv(Dispatch(s)) && p < NPROC && s.procs[p].state == RUNNABLE && s.procs[p].priority == i
            && Dispatch(s) == s.(ready := s.ready[i := s.ready[i][1..]], timeToReset := s.timeToReset - 1,
                                 procs := s.procs[p := s.procs[p].(state := RUNNING)])
  {
    DispatchInv(s);
    hide NoLostChild, Family, Pids, FreeOk;
    assert Pick(s) in s.ready[Top(s)];
  }

  /** What a dispatch of somebody other than q does to the rank of x. */
  lemma RankDispatch(s: State, q: nat, x: nat)
    requires Inv(s) && s.ready[Top(s)] != [] && s.timeToReset > 1 && Is(s, q, RUNNABLE) && Pick(s) != q && x < NPROC
    ensures Inv(Dispatch(s)) && Listed(s, q) && Listed(Dispatch(s), q) && Busy(Dispatch(s))
    ensures OnTime(Dispatch(s), q, x) ==> OnTime(s, q, x) && Rank(s, x) <= Rank(Dispatch(s), x) + 1
    ensures OnTime(s, q, x) && !Is(s, x, SLEEPING) ==> OnTime(Dispatch(s), q, x)
    ensures !Is(s, x, SLEEPING) && OnTime(s, q, x) && Rank(s, x) > 0 ==> Rank(Dispatch(s), x) + 1 == Rank(s, x)
    ensures Is(s, x, RUNNING) ==> Rank(Dispatch(s), x) == 0
    ensures x == Pick(s) ==> Rank(s, x) == 1
    ensures Is(s, x, SLEEPING) && s.procs[x].priority < Top(s) ==> Rank(s, x) == 1
  {
    hide Inv, Dispatch, Turn, Ahead, Spot, Top;
    PlainDispatch(s);
    InvShape(s);
    InvShape(Dispatch(s));
    DispatchTurn(s, q);
    IsListed(s, x);
    IsListed(Dispatch(s), x);
    if Is(s, x, RUNNABLE) {
      DispatchTurn(s, x);
    }
    DispatchAhead(s, s.procs[x].priority);
    assert Is(Dispatch(s), Pick(s), RUNNING);
  }

  lemma BothFacts(s: State, q: nat, x: nat, y: nat)
    requires Inv(s) && Wf(s) && Listed(s, q) && Both(s, q, x, y)
    ensures x < NPROC && y < NPROC && x != q && y != q && Active(s.procs[x]) && Active(s.procs[y])
  {
    hide Inv, Turn, Rank, Lag;
    IsListed(s, x);
    IsListed(s, y);
  }

  lemma BothDispatch(s: State, q: nat, x: nat, y: nat)
    requires Inv(s) && s.ready[Top(s)] != [] && s.timeToReset > 1 && Is(s, q, RUNNABLE) && Pick(s) != q
    requires Listed(s, q) && Inv(Dispatch(s)) && Listed(Dispatch(s), q) && Both(Dispatch(s), q, x, y)
    ensures Both(s, q, x, y)
  {
    hide Inv, Dispatch, OnTime, Rank, Top, Listed;
    InvShape(s);
    var t := Dispatch(s);
    InvShape(t);
    BothFacts(t, q, x, y);
    PlainDispatch(s);
    RankDispatch(s, q, x);
    RankDispatch(s, q, y);
    IsListed(s, x);
    IsListed(s, y);
    IsListed(t, x);
    IsListed(t, y);
    RankPositive(t, x);
    RankPositive(t, y);
  }

  lemma RankPositive(s: State, x: nat)
    requires Wf(s) && x < NPROC
    ensures Is(s, x, RUNNING) <==> Rank(s, x) == 0
  {
  }
}
