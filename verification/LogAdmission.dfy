/** Log space reservation (begin_op, end_op and log_write in log.c) under every
    interleaving of file-system operations. */
module LogAdmission {
  import opened RedoLog
  import opened Log

  /** blocks is lh.block[..n]; ops holds, for each outstanding operation, the distinct
      blocks it has logged so far. */
  datatype State = State(blocks: seq<nat>, ops: seq<set<nat>>, committing: bool)

  datatype Step =
    | Begin                    // begin_op admits one more operation
    | LogWrite(k: nat, b: nat) // operation k calls log_write on block b
    | End(k: nat)              // operation k calls end_op; the last one starts the commit
    | CommitDone               // commit() has finished

  /** What a chunk of filewrite may log: 14 data blocks, a bitmap, an indirect and an inode block. */
  const CHUNKBLOCKS: nat := 17

  const Init := State([], [], false)

  /** The first guard of log_write: panic "too big a transaction". */
  predicate LogFull(s: State, size: nat) {
    |s.blocks| >= LOGSIZE || |s.blocks| >= size - 1
  }

  /** Operation k may log b without exceeding m distinct blocks. */
  predicate WithinBound(s: State, k: nat, b: nat, m: nat) {
    k < |s.ops| && |s.ops[k] + {b}| <= m
  }

  /** m is the bound that every operation respects; size is log.size. */
  ghost predicate Enabled(s: State, e: Step, m: nat, size: nat) {
    match e
    case Begin => !s.committing && |s.blocks| + (|s.ops| + 1) * MAXOPBLOCKS <= LOGSIZE
    case LogWrite(k, b) => WithinBound(s, k, b, m) && !LogFull(s, size)
    case End(k) => k < |s.ops|
    case CommitDone => s.committing
  }

  ghost function Next(s: State, e: Step): (r: State)
    requires e.LogWrite? || e.End? ==> e.k < |s.ops|
  {
    match e
    case Begin => s.(ops := s.ops + [{}])
    case LogWrite(k, b) => s.(blocks := Absorb(s.blocks, b), ops := s.ops[k := s.ops[k] + {b}])
    case End(k) =>
      var ops := s.ops[..k] + s.ops[k + 1..];
      State(s.blocks, ops, ops == [])
    case CommitDone => s.(blocks := [], committing := false)
  }

  /** Blocks that outstanding operations may still add, when each may log m. */
  ghost function Unused(ops: seq<set<nat>>, m: nat): (u: int) {
    if ops == [] then 0 else Unused(ops[..|ops| - 1], m) + m - |ops[|ops| - 1]|
  }

  ghost predicate NoDuplicates(s: seq<nat>) {
    forall i, j | 0 <= i < j < |s| :: s[i] != s[j]
  }

  ghost predicate Bounded(s: State, m: nat) {
    forall k | 0 <= k < |s.ops| :: |s.ops[k]| <= m && forall b | b in s.ops[k] :: b in s.blocks
  }

  /** The claim about every reachable state. Reservations of MAXOPBLOCKS each cover the log;
      operations that log at most m blocks leave it at most MAXOPBLOCKS + 2 * m full. */
  ghost predicate Inv(s: State, m: nat) {
    && NoDuplicates(s.blocks)
    && Bounded(s, m)
    && |s.blocks| + Unused(s.ops, MAXOPBLOCKS) <= LOGSIZE
    && |s.blocks| + Unused(s.ops, m) <= MAXOPBLOCKS + 2 * m
    && (s.committing ==> s.ops == [])
    && (!s.committing && s.ops == [] ==> s.blocks == [])
  }

  lemma {:induction false} UnusedBound(ops: seq<set<nat>>, m: nat)
    requires forall k | 0 <= k < |ops| :: |ops[k]| <= m
    ensures 0 <= Unused(ops, m) <= |ops| * m
  {
    if ops != [] {
      UnusedBound(ops[..|ops| - 1], m);
    }
  }

  lemma {:induction false} UnusedUpdate(ops: seq<set<nat>>, k: nat, w: set<nat>, m: nat)
    requires k < |ops|
    ensures Unused(ops[k := w], m) == Unused(ops, m) + |ops[k]| - |w|
  {
    var n := |ops| - 1;
    if k < n {
      UnusedUpdate(ops[..n], k, w, m);
      assert ops[k := w][..n] == ops[..n][k := w];
    } else {
      assert ops[k := w][..n] == ops[..n];
    }
  }

  lemma {:induction false} UnusedRemove(ops: seq<set<nat>>, k: nat, m: nat)
    requires k < |ops|
    ensures Unused(ops[..k] + ops[k + 1..], m) == Unused(ops, m) - (m - |ops[k]|)
  {
    var n := |ops| - 1;
    var r := ops[..k] + ops[k + 1..];
    if k < n {
      UnusedRemove(ops[..n], k, m);
      assert r[..|r| - 1] == ops[..n][..k] + ops[..n][k + 1..];
    } else {
      assert r == ops[..n];
    }
  }

  lemma BeginKeepsInv(s: State, m: nat, size: nat)
    requires Inv(s, m) && Enabled(s, Begin, m, size) && m <= MAXOPBLOCKS
    ensures Inv(Next(s, Begin), m)
  {
    var r := Next(s, Begin);
    UnusedBound(s.ops, MAXOPBLOCKS);
    UnusedBound(s.ops, m);
    assert r.ops[..|r.ops| - 1] == s.ops;
    assert |s.ops| * m == if |s.ops| == 0 then 0 else if |s.ops| == 1 then m else 2 * m;
  }

  lemma LogWriteKeepsInv(s: State, k: nat, b: nat, m: nat)
    requires Inv(s, m) && WithinBound(s, k, b, m)
    ensures Inv(Next(s, LogWrite(k, b)), m)
  {
    var w := s.ops[k] + {b};
    UnusedUpdate(s.ops, k, w, m);
    UnusedUpdate(s.ops, k, w, MAXOPBLOCKS);
    assert b in s.ops[k] ==> w == s.ops[k];
    assert b !in s.ops[k] ==> |w| == |s.ops[k]| + 1;
  }

  lemma EndKeepsInv(s: State, k: nat, m: nat)
    requires Inv(s, m) && k < |s.ops| && m <= MAXOPBLOCKS
    ensures Inv(Next(s, End(k)), m)
  {
    var r := Next(s, End(k));
    UnusedRemove(s.ops, k, m);
    UnusedRemove(s.ops, k, MAXOPBLOCKS);
    forall j | 0 <= j < |r.ops| ensures |r.ops[j]| <= m && forall b | b in r.ops[j] :: b in r.blocks {
      assert r.ops[j] == s.ops[if j < k then j else j + 1];
    }
  }

  lemma StepKeepsInv(s: State, e: Step, m: nat, size: nat)
    requires Inv(s, m) && Enabled(s, e, m, size) && m <= MAXOPBLOCKS
    ensures Inv(Next(s, e), m)
  {
    match e
    case Begin => BeginKeepsInv(s, m, size);
    case LogWrite(k, b) => LogWriteKeepsInv(s, k, b, m);
    case End(k) => EndKeepsInv(s, k, m);
    case CommitDone =>
  }

  ghost predicate Run(s: State, es: seq<Step>, m: nat, size: nat)
    decreases |es|
  {
    es == [] || (Enabled(s, es[0], m, size) && Run(Next(s, es[0]), es[1..], m, size))
  }

  ghost function Final(s: State, es: seq<Step>, m: nat, size: nat): (r: State)
    requires Run(s, es, m, size)
    decreases |es|
  {
    if es == [] then s else Final(Next(s, es[0]), es[1..], m, size)
  }

  /** Admission: under every interleaving, logged blocks plus unused reservations fit the
      log, no block is logged twice, and a commit runs with no operation outstanding. */
  lemma {:induction false} Admission(s: State, es: seq<Step>, m: nat, size: nat)
    requires Inv(s, m) && Run(s, es, m, size) && m <= MAXOPBLOCKS
    ensures Inv(Final(s, es, m, size), m)
    decreases |es|
  {
    if es != [] {
      StepKeepsInv(s, es[0], m, size);
      Admission(Next(s, es[0]), es[1..], m, size);
    }
  }

  /** Some run in which every operation logs at most m distinct blocks reaches a call of
      log_write, itself within that bound, that panics. */
  ghost predicate CanPanic(m: nat, size: nat) {
    exists es, k, b ::
      Run(Init, es, m, size) && WithinBound(Final(Init, es, m, size), k, b, m) &&
        LogFull(Final(Init, es, m, size), size)
  }

  ghost function Min(a: int, b: int): (r: int) {
    if a < b then a else b
  }

  lemma NotFull(es: seq<Step>, k: nat, b: nat, m: nat, size: nat)
    requires m <= MAXOPBLOCKS && MAXOPBLOCKS + 2 * m < Min(LOGSIZE, size - 1)
    requires Run(Init, es, m, size) && WithinBound(Final(Init, es, m, size), k, b, m)
    ensures !LogFull(Final(Init, es, m, size), size)
  {
    Admission(Init, es, m, size);
    UnusedBound(Final(Init, es, m, size).ops, m);
  }

  // ----- a run that fills the log: one operation A stays open; ten short operations log one
  // block each; then an operation D and finally A log m blocks each

  ghost function Range(lo: nat, hi: nat): (r: set<nat>)
    ensures forall x: nat :: x in r <==> lo <= x < hi
    ensures |r| == if lo <= hi then hi - lo else 0
  {
    if lo >= hi then {} else Range(lo, hi - 1) + {hi - 1}
  }

  /** The state with blocks 0..i logged, two operations open, ready for the next write. */
  ghost function Ready(i: nat, m: nat): (s: State) {
    var d := MAXOPBLOCKS;
    State(seq(i, x => x),
          [if i <= d + m then {} else Range(d + m, i), if i <= d then {} else Range(d, Min(i, d + m))], false)
  }

  ghost function Writer(i: nat, m: nat): (k: nat) {
    if i < MAXOPBLOCKS + m then 1 else 0
  }

  /** The steps between `Ready(i)` and `Ready(i + 1)`. */
  ghost function Advance(i: nat, m: nat): (es: seq<Step>) {
    [LogWrite(Writer(i, m), i)] + if i < MAXOPBLOCKS then [End(1), Begin] else []
  }

  lemma RangeGrows(lo: nat, i: nat)
    requires lo <= i
    ensures (if i == lo then {} else Range(lo, i)) + {i} == Range(lo, i + 1)
  {
  }

  lemma ReadyBlocks(i: nat, m: nat)
    ensures Absorb(Ready(i, m).blocks, i) == Ready(i + 1, m).blocks
  {
    hide Range;
    assert Ready(i, m).blocks + [i] == Ready(i + 1, m).blocks;
  }

  /** The ten short operations. */
  lemma ShortReady(i: nat, m: nat)
    requires i < MAXOPBLOCKS && 1 <= m
    ensures WithinBound(Ready(i, m), 1, i, m)
  {
    hide Range;
    assert Ready(i, m).ops[1] + {i} == {i};
  }

  /** Then D. */
  lemma SecondReady(i: nat, m: nat)
    requires MAXOPBLOCKS <= i < MAXOPBLOCKS + m
    ensures WithinBound(Ready(i, m), 1, i, m)
    ensures var s := Ready(i, m); s.ops[1 := s.ops[1] + {i}] == Ready(i + 1, m).ops
  {
    hide Range;
    var d, s, r := MAXOPBLOCKS, Ready(i, m), Ready(i + 1, m);
    RangeGrows(d, i);
    assert s.ops[1] + {i} == r.ops[1] == Range(d, i + 1);
    assert r.ops[0] == s.ops[0] == {};
  }

  /** Then A. */
  lemma FirstReady(i: nat, m: nat)
    requires MAXOPBLOCKS + m <= i < MAXOPBLOCKS + 2 * m
    ensures WithinBound(Ready(i, m), 0, i, m)
    ensures var s := Ready(i, m); s.ops[0 := s.ops[0] + {i}] == Ready(i + 1, m).ops
  {
    hide Range;
    var d, s, r := MAXOPBLOCKS, Ready(i, m), Ready(i + 1, m);
    RangeGrows(d + m, i);
    assert s.ops[0] + {i} == r.ops[0] == Range(d + m, i + 1);
    assert r.ops[1] == s.ops[1] == Range(d, d + m);
  }

  lemma ReadyWithinBound(i: nat, m: nat)
    requires i < MAXOPBLOCKS + 2 * m && 1 <= m <= MAXOPBLOCKS
    ensures WithinBound(Ready(i, m), Writer(i, m), i, m)
    ensures Absorb(Ready(i, m).blocks, i) == Ready(i + 1, m).blocks
    ensures i >= MAXOPBLOCKS ==> Next(Ready(i, m), LogWrite(Writer(i, m), i)) == Ready(i + 1, m)
  {
    hide Ready, WithinBound, Absorb;
    ReadyBlocks(i, m);
    ReadyShape(i, m);
    ReadyShape(i + 1, m);
    if i < MAXOPBLOCKS {
      ShortReady(i, m);
    } else if i < MAXOPBLOCKS + m {
      SecondReady(i, m);
    } else {
      FirstReady(i, m);
    }
  }

  lemma ReadyShape(i: nat, m: nat)
    ensures |Ready(i, m).ops| == 2 && !Ready(i, m).committing
  {
    hide Range;
  }

  lemma AdvanceRun(i: nat, m: nat, size: nat)
    requires i < MAXOPBLOCKS + 2 * m && 1 <= m <= MAXOPBLOCKS && i < Min(LOGSIZE, size - 1)
    ensures Run(Ready(i, m), Advance(i, m), m, size) && Final(Ready(i, m), Advance(i, m), m, size) == Ready(i + 1, m)
  {
    ReadyWithinBound(i, m);
    var s, es := Ready(i, m), Advance(i, m);
    var s1 := Next(s, es[0]);
    if i < MAXOPBLOCKS {
      assert s1.blocks == Ready(i + 1, m).blocks;
      var s2 := Next(s1, End(1));
      assert s2.ops == [{}];
      var s3 := Next(s2, Begin);
      assert s3 == Ready(i + 1, m);
      assert es[1..] == [End(1), Begin] && es[1..][1..] == [Begin] && es[1..][1..][1..] == [];
      assert Run(s2, [Begin], m, size) && Final(s2, [Begin], m, size) == s3;
      assert Run(s1, [End(1), Begin], m, size) && Final(s1, [End(1), Begin], m, size) == s3;
    } else {
      assert es[1..] == [];
    }
  }

  lemma {:induction false} RunConcat(s: State, es: seq<Step>, fs: seq<Step>, m: nat, size: nat)
    requires Run(s, es, m, size) && Run(Final(s, es, m, size), fs, m, size)
    ensures Run(s, es + fs, m, size) && Final(s, es + fs, m, size) == Final(Final(s, es, m, size), fs, m, size)
    decreases |es|
  {
    hide Next;
    if es == [] {
      assert es + fs == fs;
    } else {
      assert (es + fs)[0] == es[0] && (es + fs)[1..] == es[1..] + fs;
      RunConcat(Next(s, es[0]), es[1..], fs, m, size);
    }
  }

  lemma ReadyAtFirst(m: nat, size: nat)
    ensures Run(Init, [Begin, Begin], m, size) && Final(Init, [Begin, Begin], m, size) == Ready(0, m)
  {
    hide Range;
    var es := [Begin, Begin];
    var s1 := Next(Init, Begin);
    assert es[1..] == [Begin] && es[1..][1..] == [];
    assert Next(s1, Begin) == Ready(0, m);
    assert Run(s1, [Begin], m, size) && Final(s1, [Begin], m, size) == Ready(0, m);
  }

  /** Every fill level up to the guard and the bound is reachable. */
  lemma {:induction false} ReadyReachable(i: nat, m: nat, size: nat) returns (es: seq<Step>)
    requires i <= MAXOPBLOCKS + 2 * m && 1 <= m <= MAXOPBLOCKS && (i == 0 || i <= Min(LOGSIZE, size - 1))
    ensures Run(Init, es, m, size) && Final(Init, es, m, size) == Ready(i, m)
  {
    hide Run, Final, Ready, Advance, Min;
    if i == 0 {
      es := [Begin, Begin];
      ReadyAtFirst(m, size);
    } else {
      var fs := ReadyReachable(i - 1, m, size);
      AdvanceRun(i - 1, m, size);
      RunConcat(Init, fs, Advance(i - 1, m), m, size);
      es := fs + Advance(i - 1, m);
    }
  }

  /** How far an operation within its reservation may go. */
  lemma PanicWithin(m: nat, size: nat)
    requires 1 <= m <= MAXOPBLOCKS
    ensures CanPanic(m, size) <==> MAXOPBLOCKS + 2 * m >= Min(LOGSIZE, size - 1)
  {
    var g := Min(LOGSIZE, size - 1);
    var d := MAXOPBLOCKS;
    if d + 2 * m >= g {
      var i := if g <= 0 then 0 else g;
      var es := ReadyReachable(i, m, size);
      if i < d + 2 * m {
        ReadyWithinBound(i, m);
        assert WithinBound(Ready(i, m), Writer(i, m), i, m);
      } else {
        assert Ready(i, m).ops[0] + {d + m} == Range(d + m, i);
        assert WithinBound(Ready(i, m), 0, d + m, m);
      }
    } else {
      forall es, k, b | Run(Init, es, m, size) && WithinBound(Final(Init, es, m, size), k, b, m)
        ensures !LogFull(Final(Init, es, m, size), size)
      {
        NotFull(es, k, b, m, size);
      }
    }
  }

  /** A run of operations that stay within m blocks is a run of operations that stay within more. */
  lemma {:induction false} RunWithinMore(s: State, es: seq<Step>, m: nat, k: nat, size: nat)
    requires m <= k && Run(s, es, m, size)
    ensures Run(s, es, k, size) && Final(s, es, k, size) == Final(s, es, m, size)
    decreases |es|
  {
    hide Next;
    if es != [] {
      RunWithinMore(Next(s, es[0]), es[1..], m, k, size);
    }
  }

  lemma PanicWithinMore(m: nat, k: nat, size: nat)
    requires m <= k && CanPanic(m, size)
    ensures CanPanic(k, size)
  {
    var es, i, b :| Run(Init, es, m, size) && WithinBound(Final(Init, es, m, size), i, b, m) &&
      LogFull(Final(Init, es, m, size), size);
    RunWithinMore(Init, es, m, k, size);
    assert WithinBound(Final(Init, es, k, size), i, b, k) && LogFull(Final(Init, es, k, size), size);
  }

  /** If operations log up to m distinct blocks each, however many that is, the panic "too big a
      transaction" can be hit exactly when MAXOPBLOCKS + 2 * m reaches the guard
      min(LOGSIZE, size - 1). */
  lemma PanicIff(m: nat, size: nat)
    requires 1 <= m
    ensures CanPanic(m, size) <==> MAXOPBLOCKS + 2 * m >= Min(LOGSIZE, size - 1)
  {
    if m <= MAXOPBLOCKS {
      PanicWithin(m, size);
    } else {
      PanicWithin(MAXOPBLOCKS, size);
      PanicWithinMore(MAXOPBLOCKS, m, size);
    }
  }

  /** The image that mkfs builds has LOGSIZE log blocks: with it, staying within MAXOPBLOCKS is
      not enough, and one block fewer per operation is. Operations the size of a chunk of filewrite
      reach the panic. */
  lemma ShippedImage()
    ensures CanPanic(MAXOPBLOCKS, LOGSIZE) && !CanPanic(MAXOPBLOCKS - 1, LOGSIZE)
    ensures CanPanic(CHUNKBLOCKS, LOGSIZE)
  {
    PanicIff(CHUNKBLOCKS, LOGSIZE);
    PanicIff(MAXOPBLOCKS, LOGSIZE);
    PanicIff(MAXOPBLOCKS - 1, LOGSIZE);
  }
}
