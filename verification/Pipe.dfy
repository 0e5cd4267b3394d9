/** Pipes (pipe.c): a ring buffer with 32-bit counters that wrap, and the sleep/wakeup protocol
    between any number of readers and writers. */
module Pipe {

  import opened Blocks

  const PIPESIZE: nat := 512
  const WRAP: nat := 0x1_0000_0000

  /** struct pipe. */
  datatype State = State(data: seq<Byte>, nread: nat, nwrite: nat, readopen: bool, writeopen: bool)

  ghost predicate Wf(p: State) {
    |p.data| == PIPESIZE && p.nread < WRAP && p.nwrite < WRAP
  }

  predicate Full(p: State) {
    p.nwrite == (p.nread + PIPESIZE) % WRAP
  }

  predicate Empty(p: State) {
    p.nread == p.nwrite
  }

  /** The slot of the k-th byte ever stored. */
  function Slot(k: nat): (r: nat)
    ensures r < PIPESIZE
  {
    k % PIPESIZE
  }

  /** The buffer holds exactly the bytes of `stored` from `taken` on. */
  ghost predicate Rep(p: State, stored: seq<Byte>, taken: nat) {
    && Wf(p) && taken <= |stored| <= taken + PIPESIZE
    && p.nread == taken % WRAP && p.nwrite == |stored| % WRAP
    && forall k: nat | taken <= k < |stored| :: p.data[Slot(k)] == stored[k]
  }

  /** The counters may wrap: the tests for full and empty and the slots they give stay right. */
  lemma Counters(p: State, stored: seq<Byte>, taken: nat)
    requires Rep(p, stored, taken)
    ensures Full(p) <==> |stored| == taken + PIPESIZE
    ensures Empty(p) <==> |stored| == taken
    ensures p.nread % PIPESIZE == Slot(taken) && p.nwrite % PIPESIZE == Slot(|stored|)
  {
    FullIff(p, stored, taken);
    EmptyIff(p, stored, taken);
    hide Full, Empty;
    WrapSlot(taken);
    WrapSlot(|stored|);
  }

  lemma FullIff(p: State, stored: seq<Byte>, taken: nat)
    requires Rep(p, stored, taken)
    ensures Full(p) <==> |stored| == taken + PIPESIZE
  {
    hide Slot;
    SameWrap(|stored|, taken, PIPESIZE);
  }

  lemma EmptyIff(p: State, stored: seq<Byte>, taken: nat)
    requires Rep(p, stored, taken)
    ensures Empty(p) <==> |stored| == taken
  {
    hide Slot;
    SameWrap(|stored|, taken, 0);
  }

  /** PIPESIZE divides 2^32. */
  lemma WrapSlot(k: nat)
    ensures (k % WRAP) % PIPESIZE == k % PIPESIZE
  {
    var q := k / WRAP;
    assert k == q * WRAP + k % WRAP;
    assert WRAP == 8388608 * PIPESIZE;
    assert k == (q * 8388608) * PIPESIZE + k % WRAP;
    AddMultiple(k % WRAP, q * 8388608);
  }

  lemma {:induction false} AddMultiple(x: nat, m: nat)
    ensures (m * PIPESIZE + x) % PIPESIZE == x % PIPESIZE
  {
    if m > 0 {
      AddMultiple(x, m - 1);
    }
  }

  lemma SameWrap(n: nat, t: nat, d: nat)
    requires t <= n <= t + PIPESIZE && d <= PIPESIZE
    ensures n % WRAP == (t % WRAP + d) % WRAP <==> n == t + d
  {
  }

  // ----- one byte in, one byte out

  function Store(p: State, b: Byte): (r: State)
    requires |p.data| == PIPESIZE
    ensures |r.data| == PIPESIZE
  {
    p.(data := p.data[p.nwrite % PIPESIZE := b], nwrite := (p.nwrite + 1) % WRAP)
  }

  function Take(p: State): (r: State) {
    p.(nread := (p.nread + 1) % WRAP)
  }

  lemma StoreRep(p: State, b: Byte, stored: seq<Byte>, taken: nat)
    requires Rep(p, stored, taken) && !Full(p)
    ensures Rep(Store(p, b), stored + [b], taken)
  {
    Counters(p, stored, taken);
    var r, s := Store(p, b), stored + [b];
    forall k: nat | taken <= k < |s| ensures r.data[Slot(k)] == s[k] {
      if k < |stored| {
        SlotsDiffer(k, |stored|);
      }
    }
    AddWrap(|stored|);
  }

  lemma SlotsDiffer(k: nat, n: nat)
    requires k < n < k + PIPESIZE
    ensures Slot(k) != Slot(n)
  {
  }

  lemma AddWrap(n: nat)
    ensures (n % WRAP + 1) % WRAP == (n + 1) % WRAP
  {
  }

  lemma TakeRep(p: State, stored: seq<Byte>, taken: nat)
    requires Rep(p, stored, taken) && !Empty(p)
    ensures taken < |stored| && p.data[p.nread % PIPESIZE] == stored[taken] && Rep(Take(p), stored, taken + 1)
  {
    Counters(p, stored, taken);
    AddWrap(taken);
  }

  // ----- the two copying loops

  datatype Filled = Filled(p: State, rest: seq<Byte>)

  /** pipewrite's loop until it is done or the pipe is full. */
  function Fill(p: State, bs: seq<Byte>): (r: Filled)
    requires |p.data| == PIPESIZE
    ensures |r.rest| <= |bs|
    decreases |bs|
  {
    if bs == [] || Full(p) then Filled(p, bs) else Fill(Store(p, bs[0]), bs[1..])
  }

  datatype Drained = Drained(p: State, out: seq<Byte>)

  /** piperead's loop for at most n bytes. */
  function Drain(p: State, n: nat): (r: Drained)
    requires |p.data| == PIPESIZE
    decreases n
  {
    if n == 0 || Empty(p) then Drained(p, [])
    else
      var d := Drain(Take(p), n - 1);
      d.(out := [p.data[p.nread % PIPESIZE]] + d.out)
  }

  function Min(a: nat, b: nat): nat { if a < b then a else b }

  lemma RepShape(p: State, stored: seq<Byte>, taken: nat)
    requires Rep(p, stored, taken)
    ensures |p.data| == PIPESIZE && taken <= |stored| <= taken + PIPESIZE
  {
  }

  lemma FillNone(p: State, bs: seq<Byte>)
    requires |p.data| == PIPESIZE
    ensures bs == [] || Full(p) ==> Fill(p, bs) == Filled(p, bs)
  {
  }

  /** A writer stores the longest prefix there is room for. */
  lemma {:induction false} FillRep(p: State, bs: seq<Byte>, stored: seq<Byte>, taken: nat)
    requires Rep(p, stored, taken)
    ensures var f, n := Fill(p, bs), Min(|bs|, taken + PIPESIZE - |stored|);
            && Rep(f.p, stored + bs[..n], taken) && f.rest == bs[n..]
            && f.p.readopen == p.readopen && f.p.writeopen == p.writeopen && f.p.nread == p.nread
    decreases |bs|
  {
    Counters(p, stored, taken);
    if bs == [] || Full(p) {
      assert stored + bs[..0] == stored;
    } else {
      StoreRep(p, bs[0], stored, taken);
      FillRep(Store(p, bs[0]), bs[1..], stored + [bs[0]], taken);
      var n := Min(|bs|, taken + PIPESIZE - |stored|);
      assert stored + [bs[0]] + bs[1..][..n - 1] == stored + bs[..n];
    }
  }

  /** A reader gets the next bytes in the order they were stored. */
  lemma {:induction false} DrainRep(p: State, n: nat, stored: seq<Byte>, taken: nat)
    requires Rep(p, stored, taken)
    ensures var d, k := Drain(p, n), Min(n, |stored| - taken);
            && Rep(d.p, stored, taken + k) && d.out == stored[taken..taken + k]
            && d.p.readopen == p.readopen && d.p.writeopen == p.writeopen
    decreases n
  {
    Counters(p, stored, taken);
    if n > 0 && !Empty(p) {
      TakeRep(p, stored, taken);
      DrainRep(Take(p), n - 1, stored, taken + 1);
    }
  }

  // ----- the protocol

  /** What a process is doing with the pipe; asleep means asleep on nwrite or nread. */
  datatype Doing = Idle | Writing(rest: seq<Byte>, asleep: bool) | Reading(n: nat, asleep: bool)

  datatype Sys = Sys(p: State, procs: map<nat, Doing>, killed: set<nat>, stored: seq<Byte>, delivered: seq<Byte>)

  ghost predicate ReaderAsleep(s: Sys, q: nat) {
    q in s.procs && s.procs[q].Reading? && s.procs[q].asleep
  }

  ghost predicate WriterAsleep(s: Sys, q: nat) {
    q in s.procs && s.procs[q].Writing? && s.procs[q].asleep
  }

  /** wakeup(&p->nread) */
  ghost function WakeReaders(procs: map<nat, Doing>): (r: map<nat, Doing>) {
    map q | q in procs :: if procs[q].Reading? then Reading(procs[q].n, false) else procs[q]
  }

  /** wakeup(&p->nwrite) */
  ghost function WakeWriters(procs: map<nat, Doing>): (r: map<nat, Doing>) {
    map q | q in procs :: if procs[q].Writing? then Writing(procs[q].rest, false) else procs[q]
  }

  /** One critical section under the pipe's lock, or a call or a kill outside it. */
  datatype Event =
    | CallWrite(q: nat, bytes: seq<Byte>)
    | CallRead(q: nat, n: nat)
    | RunWrite(q: nat)
    | RunRead(q: nat)
    | CloseWrite
    | CloseRead
    | Kill(q: nat)

  ghost predicate Busy(s: Sys, q: nat) {
    q in s.procs && !s.procs[q].Idle?
  }

  function Awake(d: Doing): (r: Doing) {
    match d
    case Idle => Idle
    case Writing(rest, _) => Writing(rest, false)
    case Reading(n, _) => Reading(n, false)
  }

  ghost predicate Enabled(s: Sys, e: Event) {
    match e
    case CallWrite(q, _) => !Busy(s, q)
    case CallRead(q, _) => !Busy(s, q)
    case RunWrite(q) => q in s.procs && s.procs[q].Writing? && !s.procs[q].asleep
    case RunRead(q) => q in s.procs && s.procs[q].Reading? && !s.procs[q].asleep
    case CloseWrite => s.p.writeopen
    case CloseRead => s.p.readopen
    case Kill(_) => true
  }

  /** pipewrite from the lock to the next sleep or the return. */
  ghost function WriteStep(s: Sys, q: nat): (r: Sys)
    requires q in s.procs && s.procs[q].Writing? && |s.p.data| == PIPESIZE
  {
    var bs := s.procs[q].rest;
    var f := Fill(s.p, bs);
    var t := s.(p := f.p, stored := s.stored + bs[..|bs| - |f.rest|]);
    if f.rest == [] then t.(procs := WakeReaders(s.procs)[q := Idle])
    else if !s.p.readopen || q in s.killed then t.(procs := s.procs[q := Idle])
    else t.(procs := WakeReaders(s.procs)[q := Writing(f.rest, true)])
  }

  /** piperead from the lock to the next sleep or the return. */
  ghost function ReadStep(s: Sys, q: nat): (r: Sys)
    requires q in s.procs && s.procs[q].Reading? && |s.p.data| == PIPESIZE
  {
    if Empty(s.p) && s.p.writeopen then
      if q in s.killed then s.(procs := s.procs[q := Idle])
      else s.(procs := s.procs[q := Reading(s.procs[q].n, true)])
    else
      var d := Drain(s.p, s.procs[q].n);
      s.(p := d.p, delivered := s.delivered + d.out, procs := WakeWriters(s.procs)[q := Idle])
  }

  ghost function Next(s: Sys, e: Event): (r: Sys)
    requires Enabled(s, e) && |s.p.data| == PIPESIZE
  {
    match e
    case CallWrite(q, bytes) => s.(procs := s.procs[q := Writing(bytes, false)])
    case CallRead(q, n) => s.(procs := s.procs[q := Reading(n, false)])
    case RunWrite(q) => WriteStep(s, q)
    case RunRead(q) => ReadStep(s, q)
    case CloseWrite => s.(p := s.p.(writeopen := false), procs := WakeReaders(s.procs))
    case CloseRead => s.(p := s.p.(readopen := false), procs := WakeWriters(s.procs))
    case Kill(q) =>
      s.(killed := s.killed + {q}, procs := if q in s.procs then s.procs[q := Awake(s.procs[q])] else s.procs)
  }

  // ----- invariants

  /** Bytes come out in the order they went in; what is in between is in the buffer. */
  ghost predicate Fifo(s: Sys) {
    s.delivered <= s.stored && Rep(s.p, s.stored, |s.delivered|)
  }

  ghost predicate WritersOk(s: Sys) {
    forall q | WriterAsleep(s, q) :: Full(s.p) && s.p.readopen
  }

  ghost predicate ReadersOk(s: Sys) {
    forall q | ReaderAsleep(s, q) :: Empty(s.p) && s.p.writeopen
  }

  ghost predicate NeverBoth(s: Sys) {
    forall q, r | ReaderAsleep(s, q) && WriterAsleep(s, r) :: false
  }

  ghost predicate Inv(s: Sys) {
    Fifo(s) && WritersOk(s) && NeverBoth(s)
  }

  /** How much is stored, and what the tests say before and after. */
  lemma WriteFills(s: Sys, bs: seq<Byte>) returns (n: nat)
    requires Fifo(s)
    ensures |s.p.data| == PIPESIZE && |s.stored| <= |s.delivered| + PIPESIZE
    ensures n == Min(|bs|, |s.delivered| + PIPESIZE - |s.stored|) && n <= |bs|
    ensures var f := Fill(s.p, bs);
            && Rep(f.p, s.stored + bs[..n], |s.delivered|) && f.rest == bs[n..]
            && f.p.readopen == s.p.readopen && f.p.writeopen == s.p.writeopen
            && (n < |bs| ==> Full(f.p)) && (Full(s.p) ==> f.p == s.p && !Empty(s.p))
            && (Empty(s.p) <==> |s.stored| == |s.delivered|) && (Empty(f.p) <==> |s.stored| + n == |s.delivered|)
  {
    RepShape(s.p, s.stored, |s.delivered|);
    hide Full, Empty, Rep, Fill;
    n := Min(|bs|, |s.delivered| + PIPESIZE - |s.stored|);
    Counters(s.p, s.stored, |s.delivered|);
    FillRep(s.p, bs, s.stored, |s.delivered|);
    FillNone(s.p, bs);
    Counters(Fill(s.p, bs).p, s.stored + bs[..n], |s.delivered|);
  }

  lemma WriteFacts(s: Sys, q: nat)
    requires Fifo(s) && q in s.procs && s.procs[q].Writing?
    ensures var t, bs := WriteStep(s, q), s.procs[q].rest;
            var n := Min(|bs|, |s.delivered| + PIPESIZE - |s.stored|);
            && Fifo(t) && t.stored == s.stored + bs[..n] && t.delivered == s.delivered
            && t.p.readopen == s.p.readopen && t.p.writeopen == s.p.writeopen
            && (n < |bs| ==> Full(t.p)) && (Full(s.p) ==> t.p == s.p && !Empty(s.p))
            && (Empty(s.p) <==> |s.stored| == |s.delivered|) && (Empty(t.p) <==> |t.stored| == |t.delivered|)
            && t.procs == (if n == |bs| then WakeReaders(s.procs)[q := Idle]
                           else if !s.p.readopen || q in s.killed then s.procs[q := Idle]
                           else WakeReaders(s.procs)[q := Writing(bs[n..], true)])
  {
    hide Full, Empty, Rep, Fill, WakeReaders, Min;
    var bs := s.procs[q].rest;
    var n := WriteFills(s, bs);
    assert |bs| - |Fill(s.p, bs).rest| == n && (bs[n..] == [] <==> n == |bs|);
    assert s.delivered <= s.stored + bs[..n];
  }

  lemma ReadFacts(s: Sys, q: nat)
    requires Fifo(s) && q in s.procs && s.procs[q].Reading?
    ensures var t := ReadStep(s, q);
            && Fifo(t) && t.stored == s.stored && s.delivered <= t.delivered
            && t.p.readopen == s.p.readopen && t.p.writeopen == s.p.writeopen
            && (Empty(s.p) <==> s.delivered == s.stored)
            && (!(Empty(s.p) && s.p.writeopen) ==> t.procs == WakeWriters(s.procs)[q := Idle])
            && (Empty(s.p) ==> t.p == s.p && t.delivered == s.delivered)
            && (Full(s.p) ==> !Empty(s.p))
  {
    Counters(s.p, s.stored, |s.delivered|);
    DrainRep(s.p, s.procs[q].n, s.stored, |s.delivered|);
  }

  lemma FifoStep(s: Sys, e: Event)
    requires Fifo(s) && Enabled(s, e)
    ensures Fifo(Next(s, e))
  {
    match e
    case RunWrite(q) => WriteFacts(s, q);
    case RunRead(q) => ReadFacts(s, q);
    case _ =>
  }

  /** Calls, closes and kills put nobody to sleep, and closing an end wakes its other end. */
  lemma OnlyAwakes(s: Sys, e: Event)
    requires Enabled(s, e) && !e.RunWrite? && !e.RunRead? && |s.p.data| == PIPESIZE
    ensures forall q | ReaderAsleep(Next(s, e), q) :: ReaderAsleep(s, q) && !e.CloseWrite?
    ensures forall q | WriterAsleep(Next(s, e), q) :: WriterAsleep(s, q) && !e.CloseRead?
  {
  }

  /** Who sleeps after a writer's critical section. */
  lemma WriteSleepers(s: Sys, q: nat)
    requires Fifo(s) && q in s.procs && s.procs[q].Writing?
    ensures var t, bs := WriteStep(s, q), s.procs[q].rest;
            var silent := |bs| > |s.delivered| + PIPESIZE - |s.stored| && (!s.p.readopen || q in s.killed);
            && (forall r :: ReaderAsleep(t, r) <==> silent && ReaderAsleep(s, r))
            && (forall r | WriterAsleep(t, r) :: (r == q && Full(t.p) && s.p.readopen && !silent) || WriterAsleep(s, r))
  {
    WriteFacts(s, q);
    hide WriteStep, Fifo;
  }

  /** Who sleeps after a reader's critical section. */
  lemma ReadSleepers(s: Sys, q: nat)
    requires Fifo(s) && q in s.procs && s.procs[q].Reading?
    ensures var t := ReadStep(s, q);
            var empty := Empty(s.p) && s.p.writeopen;
            && (forall r | ReaderAsleep(t, r) :: (r == q && empty) || ReaderAsleep(s, r))
            && (forall r | WriterAsleep(t, r) :: empty && WriterAsleep(s, r))
  {
    ReadFacts(s, q);
    hide Fifo, Drain;
  }

  lemma StepInv(s: Sys, e: Event)
    requires Inv(s) && Enabled(s, e)
    ensures Inv(Next(s, e))
  {
    FifoStep(s, e);
    hide Fill, Drain, Rep, WriteStep, ReadStep;
    match e
    case RunWrite(q) => WriteFacts(s, q); WriteSleepers(s, q);
    case RunRead(q) => ReadFacts(s, q); ReadSleepers(s, q);
    case _ => OnlyAwakes(s, e);
  }

  // ----- the wakeup that is missing

  /** A killed writer (or one whose readers have closed) fills an empty pipe and returns -1
      without waking the readers that sleep. */
  ghost predicate Loses(s: Sys, e: Event) {
    && e.RunWrite? && e.q in s.procs && s.procs[e.q].Writing?
    && |s.procs[e.q].rest| > PIPESIZE && (!s.p.readopen || e.q in s.killed)
    && exists q :: ReaderAsleep(s, q)
  }

  /** Sleeping readers have nothing to read after a step exactly when the step does not lose a wakeup. */
  lemma ReadersIff(s: Sys, e: Event)
    requires Inv(s) && ReadersOk(s) && Enabled(s, e)
    ensures ReadersOk(Next(s, e)) <==> !Loses(s, e)
  {
    FifoStep(s, e);
    hide Fill, Drain, Rep, WriteStep, ReadStep;
    match e
    case RunWrite(q) => WriteFacts(s, q); WriteSleepers(s, q);
    case RunRead(q) => ReadFacts(s, q); ReadSleepers(s, q);
    case _ => OnlyAwakes(s, e);
  }

  // ----- runs

  ghost predicate Run(s: Sys, es: seq<Event>)
    decreases |es|
  {
    |s.p.data| == PIPESIZE && (es == [] || (Enabled(s, es[0]) && Run(Next(s, es[0]), es[1..])))
  }

  ghost function Final(s: Sys, es: seq<Event>): (r: Sys)
    requires Run(s, es)
    decreases |es|
  {
    if es == [] then s else Final(Next(s, es[0]), es[1..])
  }

  /** pipealloc */
  ghost predicate Fresh(s: Sys) {
    && |s.p.data| == PIPESIZE && s.p.nread == 0 && s.p.nwrite == 0 && s.p.readopen && s.p.writeopen
    && s.procs == map[] && s.stored == [] && s.delivered == []
  }

  lemma FreshInv(s: Sys)
    requires Fresh(s)
    ensures Inv(s) && ReadersOk(s)
  {
  }

  /** In every run: FIFO whatever the counters do, a writer sleeps only on a full pipe whose read
      end is open, and a reader and a writer are never both asleep. */
  lemma {:induction false} RunInv(s: Sys, es: seq<Event>)
    requires Inv(s) && Run(s, es)
    ensures Inv(Final(s, es))
    decreases |es|
  {
    if es != [] {
      hide Inv, Next, Enabled;
      StepInv(s, es[0]);
      RunInv(Next(s, es[0]), es[1..]);
    }
  }

  // ----- closed ends

  /** The write end is closed and no reader sleeps. */
  ghost predicate Ended(s: Sys) {
    Inv(s) && !s.p.writeopen && forall q :: !ReaderAsleep(s, q)
  }

  /** The read end is closed and no writer sleeps. */
  ghost predicate Broken(s: Sys) {
    Inv(s) && !s.p.readopen && forall q :: !WriterAsleep(s, q)
  }

  lemma CloseEnds(s: Sys, e: Event)
    requires Inv(s) && Enabled(s, e) && (e.CloseWrite? || e.CloseRead?)
    ensures if e.CloseWrite? then Ended(Next(s, e)) else Broken(Next(s, e))
    ensures var t := Next(s, e);
            && t.stored == s.stored && t.delivered == s.delivered && t.killed == s.killed
            && t.p == s.p.(readopen := t.p.readopen, writeopen := t.p.writeopen)
            && (if e.CloseWrite? then t.p.readopen == s.p.readopen else t.p.writeopen == s.p.writeopen)
  {
    StepInv(s, e);
    OnlyAwakes(s, e);
  }

  lemma StaysClosed(s: Sys, e: Event)
    requires Inv(s) && Enabled(s, e)
    ensures Ended(s) ==> Ended(Next(s, e))
    ensures Broken(s) ==> Broken(Next(s, e))
  {
    StepInv(s, e);
    hide Inv, Fill, Drain, Rep, WriteStep, ReadStep;
    InvFifo(s);
    match e
    case RunWrite(q) => WriteFacts(s, q); WriteSleepers(s, q);
    case RunRead(q) => ReadFacts(s, q); ReadSleepers(s, q);
    case _ => OnlyAwakes(s, e);
  }

  lemma InvFifo(s: Sys)
    requires Inv(s)
    ensures Fifo(s) && |s.p.data| == PIPESIZE
  {
  }

  /** A closed end stays closed, and after that nobody is ever asleep at the other end: in every run after
      the write end is closed no reader sleeps, and after the read end is closed no writer does. */
  lemma {:induction false} RunClosed(s: Sys, es: seq<Event>)
    requires Inv(s) && Run(s, es)
    ensures Ended(s) ==> Ended(Final(s, es))
    ensures Broken(s) ==> Broken(Final(s, es))
    decreases |es|
  {
    if es != [] {
      hide Inv, Next, Enabled, Ended, Broken;
      StaysClosed(s, es[0]);
      StepInv(s, es[0]);
      RunClosed(Next(s, es[0]), es[1..]);
    }
  }

  /** Once the write end is closed a reader gets what is left and returns, with nothing at the end of file. */
  lemma EndOfFile(s: Sys, q: nat)
    requires Ended(s) && Enabled(s, RunRead(q))
    ensures var t, n := Next(s, RunRead(q)), Min(s.procs[q].n, |s.stored| - |s.delivered|);
            && t.procs[q] == Idle && t.delivered == s.stored[..|s.delivered| + n] && t.stored == s.stored
            && (Empty(s.p) ==> t.delivered == s.delivered)
  {
    Counters(s.p, s.stored, |s.delivered|);
    DrainRep(s.p, s.procs[q].n, s.stored, |s.delivered|);
  }

  /** Once the read end is closed a writer stores what there is room for and returns. */
  lemma BrokenPipe(s: Sys, q: nat)
    requires Broken(s) && Enabled(s, RunWrite(q))
    ensures var t := Next(s, RunWrite(q));
            && t.procs[q] == Idle && t.delivered == s.delivered && |s.stored| <= |s.delivered| + PIPESIZE
            && t.stored == s.stored + s.procs[q].rest[..Min(|s.procs[q].rest|, |s.delivered| + PIPESIZE - |s.stored|)]
            && (Full(s.p) ==> t.stored == s.stored && t.p == s.p)
  {
    hide Fill, Rep, WriteStep, Full, Min;
    InvFifo(s);
    RepShape(s.p, s.stored, |s.delivered|);
    WriteFacts(s, q);
    if Full(s.p) {
      FullStores(s, q);
    }
  }

  lemma FullStores(s: Sys, q: nat)
    requires Fifo(s) && q in s.procs && s.procs[q].Writing? && Full(s.p)
    ensures WriteStep(s, q).stored == s.stored
  {
    FillNone(s.p, s.procs[q].rest);
    hide Fill;
    assert s.procs[q].rest[..0] == [];
  }

  /** Bytes that fit an empty pipe, written by q and read by r, come out as they went in. */
  lemma WriteThenRead(s: Sys, q: nat, r: nat, bs: seq<Byte>, n: nat)
    requires Inv(s) && Empty(s.p) && !Busy(s, q) && !Busy(s, r) && q != r && 0 < |bs| <= PIPESIZE
    ensures var es := [CallWrite(q, bs), RunWrite(q), CallRead(r, n), RunRead(r)];
            && Run(s, es) && Final(s, es).delivered == s.delivered + bs[..Min(n, |bs|)]
            && !Busy(Final(s, es), q) && !Busy(Final(s, es), r)
  {
    hide Fill, Drain, Rep, Full, Inv, WriteStep, ReadStep;
    InvFifo(s);
    EmptyIs(s);
    var es := [CallWrite(q, bs), RunWrite(q), CallRead(r, n), RunRead(r)];
    var s1 := Next(s, es[0]);
    StepInv(s, es[0]);
    InvFifo(s1);
    WriteFacts(s1, q);
    var s2 := Next(s1, es[1]);
    StepInv(s1, es[1]);
    InvFifo(s2);
    assert s2.stored == s.stored + bs && !Empty(s2.p);
    var s3 := Next(s2, es[2]);
    StepInv(s2, es[2]);
    InvFifo(s3);
    Delivers(s3, r);
    var s4 := Next(s3, es[3]);
    StepInv(s3, es[3]);
    InvFifo(s4);
    assert s.stored == s.delivered && s4.delivered == (s.stored + bs)[..|s.delivered| + Min(n, |bs|)];
    assert Run(s4, []) && es[3..][1..] == [];
    assert Run(s3, es[3..]) && Final(s3, es[3..]) == s4;
    assert es[2..][1..] == es[3..] && Run(s2, es[2..]) && Final(s2, es[2..]) == s4;
    assert es[1..][1..] == es[2..] && Run(s1, es[1..]) && Final(s1, es[1..]) == s4;
  }

  lemma EmptyIs(s: Sys)
    requires Fifo(s) && Empty(s.p)
    ensures s.stored == s.delivered
  {
    Counters(s.p, s.stored, |s.delivered|);
  }

  /** A reader of a pipe that is not empty gets the next bytes. */
  lemma Delivers(s: Sys, q: nat)
    requires Fifo(s) && Enabled(s, RunRead(q)) && !Empty(s.p)
    ensures |s.delivered| <= |s.stored| && |s.p.data| == PIPESIZE
    ensures var t := Next(s, RunRead(q));
            && t.procs == WakeWriters(s.procs)[q := Idle] && t.stored == s.stored
            && t.delivered == s.stored[..|s.delivered| + Min(s.procs[q].n, |s.stored| - |s.delivered|)]
  {
    DrainRep(s.p, s.procs[q].n, s.stored, |s.delivered|);
  }

  // ----- what comes out

  /** What a reader can see: all bytes ever delivered, followed by the at most PIPESIZE buffered
      ones, are all bytes ever stored. */
  lemma RunFifo(s: Sys, es: seq<Event>)
    requires Fresh(s) && Run(s, es)
    ensures var t := Final(s, es);
            var n := |t.stored| - |t.delivered|;
            && 0 <= n <= PIPESIZE && |t.p.data| == PIPESIZE && t.stored == t.delivered + Drain(t.p, n).out &&
                 Empty(Drain(t.p, n).p)
  {
    FreshInv(s);
    RunInv(s, es);
    var t := Final(s, es);
    DrainRep(t.p, |t.stored| - |t.delivered|, t.stored, |t.delivered|);
    Counters(Drain(t.p, |t.stored| - |t.delivered|).p, t.stored, |t.stored|);
  }

  /** Every state of the run has its sleeping readers on an empty pipe. */
  ghost predicate AlwaysReadersOk(s: Sys, es: seq<Event>)
    requires Run(s, es)
    decreases |es|
  {
    ReadersOk(s) && (es == [] || AlwaysReadersOk(Next(s, es[0]), es[1..]))
  }

  ghost predicate NeverLoses(s: Sys, es: seq<Event>)
    requires Run(s, es)
    decreases |es|
  {
    es == [] || (!Loses(s, es[0]) && NeverLoses(Next(s, es[0]), es[1..]))
  }

  /** Readers sleep only on an empty pipe with its write end open, throughout a run, exactly if no
      step of it loses a wakeup. */
  lemma {:induction false} ReadersRunIff(s: Sys, es: seq<Event>)
    requires Inv(s) && ReadersOk(s) && Run(s, es)
    ensures AlwaysReadersOk(s, es) <==> NeverLoses(s, es)
    decreases |es|
  {
    if es != [] {
      hide Inv, Next, Enabled, ReadersOk, Loses;
      var t := Next(s, es[0]);
      ReadersIff(s, es[0]);
      StepInv(s, es[0]);
      if ReadersOk(t) {
        ReadersRunIff(t, es[1..]);
      } else {
        NotAlways(t, es[1..]);
      }
    }
  }

  lemma NotAlways(s: Sys, es: seq<Event>)
    requires Run(s, es) && !ReadersOk(s)
    ensures !AlwaysReadersOk(s, es)
  {
  }

  /** Such a run exists: reader 1 sleeps, writer 2 wants one byte more than fits and is killed. */
  lemma LostWakeup(s: Sys)
    requires Fresh(s) && 2 !in s.killed && 1 !in s.killed
    ensures var es := [CallRead(1, 1), RunRead(1), CallWrite(2, seq(PIPESIZE + 1, _ => 0)), Kill(2), RunWrite(2)];
            Run(s, es) && ReaderAsleep(Final(s, es), 1) && !Empty(Final(s, es).p)
  {
    var bs: seq<Byte> := seq(PIPESIZE + 1, _ => 0);
    var es := [CallRead(1, 1), RunRead(1), CallWrite(2, bs), Kill(2), RunWrite(2)];
    FreshInv(s);
    var s1 := Next(s, es[0]);
    var s2 := Next(s1, es[1]);
    assert ReaderAsleep(s2, 1) && s2.p == s.p;
    var s3 := Next(s2, es[2]);
    var s4 := Next(s3, es[3]);
    assert s4.procs[2] == Writing(bs, false) && 2 in s4.killed && ReaderAsleep(s4, 1) && s4.p == s.p;
    WriteFacts(s4, 2);
    var s5 := Next(s4, es[4]);
    assert |s5.stored| == PIPESIZE && ReaderAsleep(s5, 1);
    Counters(s5.p, s5.stored, 0);
    assert Run(s5, []) && es[1..][1..][1..][1..][1..] == [];
    assert Run(s4, es[4..]) && Final(s4, es[4..]) == s5 by { assert es[4..][1..] == []; }
    assert Run(s3, es[3..]) && Final(s3, es[3..]) == s5 by { assert es[3..][1..] == es[4..]; }
    assert Run(s2, es[2..]) && Final(s2, es[2..]) == s5 by { assert es[2..][1..] == es[3..]; }
    assert Run(s1, es[1..]) && Final(s1, es[1..]) == s5 by { assert es[1..][1..] == es[2..]; }
  }

  // ----- pipe.c's loops

  /** The channels nread and nwrite: who sleeps there. */
  datatype End = Readers | Writers

  datatype Outcome = Returned | Killed | Sleeps

  /** One more byte in an unfinished Fill. */
  lemma FillStep(p: State, addr: seq<Byte>, i: nat)
    requires |p.data| == PIPESIZE && i < |addr| && !Full(p)
    ensures Fill(p, addr[i..]) == Fill(Store(p, addr[i]), addr[i + 1..])
  {
    assert addr[i..][0] == addr[i] && addr[i..][1..] == addr[i + 1..];
  }

  /** One more byte in an unfinished Drain. */
  lemma DrainStep(p: State, n: nat, got: seq<Byte>)
    requires |p.data| == PIPESIZE && n > 0 && !Empty(p)
    ensures Drain(p, n).p == Drain(Take(p), n - 1).p
    ensures got + Drain(p, n).out == got + [p.data[p.nread % PIPESIZE]] + Drain(Take(p), n - 1).out
  {
  }

  lemma DrainNone(p: State, n: nat)
    requires |p.data| == PIPESIZE && (n == 0 || Empty(p))
    ensures Drain(p, n) == Drained(p, [])
  {
  }

  class KernelPipe {
    const data: array<Byte>
    var nread: nat
    var nwrite: nat
    var readopen: bool
    var writeopen: bool

    ghost function St(): (p: State)
      reads this, data
    {
      State(data[..], nread, nwrite, readopen, writeopen)
    }

    constructor ()
      ensures Wf(St()) && Rep(St(), [], 0) && readopen && writeopen && fresh(data)
    {
      data := new Byte[PIPESIZE](_ => 0);
      nread, nwrite := 0, 0;
      readopen, writeopen := true, true;
    }

    /** pipewrite from byte `from` on, up to its next sleep or its return. */
    method Write(addr: seq<Byte>, from: nat, killed: bool) returns (r: Outcome, i: nat)
      requires Wf(St()) && from <= |addr|
      modifies this`nwrite, data
      ensures Wf(St()) && from <= i <= |addr|
      ensures Fill(old(St()), addr[from..]) == Filled(St(), addr[i..])
      ensures r == if i == |addr| then Returned else if !readopen || killed then Killed else Sleeps
    {
      hide Fill;
      i := from;
      while i < |addr|
        invariant from <= i <= |addr| && Wf(St())
        invariant readopen == old(readopen) && writeopen == old(writeopen) && nread == old(nread)
        invariant Fill(old(St()), addr[from..]) == Fill(St(), addr[i..])
      {
        if nwrite == (nread + PIPESIZE) % WRAP {
          FillNone(St(), addr[i..]);
          if !readopen || killed {
            return Killed, i;
          }
          return Sleeps, i;
        }
        FillStep(St(), addr, i);
        ghost var before := St();
        data[nwrite % PIPESIZE] := addr[i];
        nwrite := (nwrite + 1) % WRAP;
        assert St() == Store(before, addr[i]);
        i := i + 1;
      }
      FillNone(St(), addr[i..]);
      r := Returned;
    }

    /** pipeclose: one end is shut and the other end's sleepers are woken; with both shut the pipe is freed. */
    method Close(writable: bool) returns (woken: End, freed: bool)
      requires Wf(St())
      modifies this`readopen, this`writeopen
      ensures Wf(St()) && nread == old(nread) && nwrite == old(nwrite) && data[..] == old(data[..])
      ensures writable ==> !writeopen && readopen == old(readopen) && woken == Readers
      ensures !writable ==> !readopen && writeopen == old(writeopen) && woken == Writers
      ensures freed <==> !readopen && !writeopen
    {
      if writable {
        writeopen := false;
        woken := Readers;
      } else {
        readopen := false;
        woken := Writers;
      }
      freed := !readopen && !writeopen;
    }

    /** piperead from the lock to its next sleep or its return. */
    method Read(addr: array<Byte>, n: nat, killed: bool) returns (r: Outcome, i: nat)
      requires Wf(St()) && addr != data && n <= addr.Length
      modifies this`nread, addr
      ensures Wf(St()) && i <= n
      ensures r == if !(Empty(old(St())) && writeopen) then Returned else if killed then Killed else Sleeps
      ensures r == Returned ==> Drain(old(St()), n) == Drained(St(), addr[..i])
      ensures r != Returned ==> i == 0 && St() == old(St())
    {
      hide Drain;
      i := 0;
      if nread == nwrite && writeopen {
        if killed {
          return Killed, 0;
        }
        return Sleeps, 0;
      }
      ghost var was := St();
      while i < n && nread != nwrite
        invariant i <= n && St() == was.(nread := nread) && nread < WRAP
        invariant Drain(was, n).p == Drain(St(), n - i).p && Drain(was, n).out == addr[..i] + Drain(St(), n - i).out
      {
        DrainStep(St(), n - i, addr[..i]);
        addr[i] := data[nread % PIPESIZE];
        nread := (nread + 1) % WRAP;
        i := i + 1;
        assert addr[..i] == addr[..i - 1] + [addr[i - 1]];
      }
      DrainNone(St(), n - i);
      r := Returned;
    }
  }
}
