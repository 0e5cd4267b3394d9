/** Whole runs of the file system on its log: writes and truncations, one transaction each, any of which
    may be stopped by a crash between any two block writes, with further crashes during recovery. */
module CrashRuns {
  import opened Blocks
  import opened Bitmap
  import opened Inodes
  import opened FileBytes
  import opened FileSystem
  import opened FileWrite
  import opened RedoLog
  import opened InodeBlocks
  import opened DurableFs

  // ----- scripts and what they are to do

  datatype Op = WriteAt(inum: nat, off: Word, src: seq<Byte>) | Truncate(inum: nat)

  /** The commit finishes, or a crash comes after k of its writes, not later than the header write or k
      writes after it; then recovery is stopped after so many writes, again and again, and at last ends. */
  datatype Fate = Finishes | Early(k: nat, again: seq<nat>) | Late(k: nat, again: seq<nat>)

  datatype Act = Act(op: Op, fate: Fate)

  ghost predicate Proper(sb: Superblock, op: Op) {
    op.inum < sb.ninodes && (op.WriteAt? ==> 0 < |op.src| <= CHUNK)
  }

  /** The contents of its file after an operation; a write out of range is refused. */
  ghost function Content(c: seq<Byte>, op: Op): (r: seq<Byte>) {
    match op
    case Truncate(_) => []
    case WriteAt(_, off, src) => if off > |c| || off + |src| > MAXBYTES then c else Splice(c, off, src)
  }

  ghost function Done(files: seq<seq<Byte>>, op: Op): (r: seq<seq<Byte>>)
    requires op.inum < |files|
    ensures |r| == |files|
  {
    files[op.inum := Content(files[op.inum], op)]
  }

  /** The files after a script: early crashes undo their operation, everything else is there. */
  ghost function Result(files: seq<seq<Byte>>, acts: seq<Act>): (r: seq<seq<Byte>>)
    requires forall a | a in acts :: a.op.inum < |files|
    ensures |r| == |files|
    decreases |acts|
  {
    if acts == [] then files
    else
      var n := |acts| - 1;
      assert acts[n] in acts;
      var before := Result(files, acts[..n]);
      if acts[n].fate.Early? then before else Done(before, acts[n].op)
  }

  /** A valid disk with these files. */
  ghost predicate Holds(sb: Superblock, d: Disk, files: seq<seq<Byte>>) {
    |files| == sb.ninodes && ValidDisk(sb, d) && forall i: nat | i < sb.ninodes :: FileOn(sb, d, i) == files[i]
  }

  // ----- events

  lemma {:induction false} RunJoin(m: Machine, l: Layout, es: seq<Event>, fs: seq<Event>)
    requires Good(m, l) && Run(m, l, es) && Run(Final(m, l, es), l, fs)
    ensures Run(m, l, es + fs) && Final(m, l, es + fs) == Final(Final(m, l, es), l, fs)
    decreases |es|
  {
    hide Good, Enabled, Next;
    if es == [] {
      assert es + fs == fs;
    } else {
      assert (es + fs)[0] == es[0] && (es + fs)[1..] == es[1..] + fs;
      RunJoin(Next(m, l, es[0]), l, es[1..], fs);
    }
  }

  lemma RunOne(m: Machine, l: Layout, e: Event)
    requires Good(m, l) && Enabled(m, l, e)
    ensures Run(m, l, [e]) && Final(m, l, [e]) == Next(m, l, e)
  {
    hide Good, Enabled, Next;
    assert [e][1..] == [];
    assert Run(Next(m, l, e), l, []);
  }

  function Least(a: nat, b: nat): (r: nat) {
    if a < b then a else b
  }

  /** Recovery is stopped after again[0] of its writes, then after again[1], and so on; the last one ends. */
  ghost function Recoveries(m: Machine, l: Layout, again: seq<nat>): (es: seq<Event>)
    requires Good(m, l) && !m.up
    decreases |again|
  {
    if again == [] then [Recover]
    else
      var e := RecoveryCrashed(Least(again[0], |RecoveryWrites(m.disk, l)|));
      [e] + Recoveries(Next(m, l, e), l, again[1..])
  }

  /** How many writes of the commit reach the disk. */
  ghost function StopsAt(m: Machine, l: Layout, t: Transaction, fate: Fate): (k: nat)
    requires Good(m, l) && ValidTransaction(m.disk, l, t)
    ensures k <= |CommitWrites(m.disk, l, t)|
  {
    match fate
    case Finishes => |CommitWrites(m.disk, l, t)|
    case Early(k, _) => Least(k, |t.blocks|)
    case Late(k, _) => Least(|t.blocks| + 1 + k, |CommitWrites(m.disk, l, t)|)
  }

  /** A transaction and its fate as events. */
  ghost function FateEvents(m: Machine, l: Layout, t: Transaction, fate: Fate): (es: seq<Event>)
    requires Good(m, l) && m.up && ValidTransaction(m.disk, l, t)
  {
    if fate.Finishes? then [Commit(t)]
    else
      var e := CommitCrashed(t, StopsAt(m, l, t, fate));
      [e] + Recoveries(Next(m, l, e), l, fate.again)
  }

  /** A machine that is down comes up again with the disk that recovery promises. */
  lemma {:induction false} ComesUp(m: Machine, l: Layout, again: seq<nat>, d: Disk)
    requires Good(m, l) && !m.up && SameHome(Recovered(m.disk, l), d, l)
    ensures Run(m, l, Recoveries(m, l, again)) && Final(m, l, Recoveries(m, l, again)).up
    ensures SameHome(Final(m, l, Recoveries(m, l, again)).disk, d, l)
    decreases |again|
  {
    hide Recovered, RecoveryWrites, WellFormed, SameHome, EmptyLog, Run, Final;
    if again == [] {
      StepRefines(m, l, Recover, d);
      RunOne(m, l, Recover);
      UpIsRecovered(Next(m, l, Recover), l, d);
    } else {
      var e := RecoveryCrashed(Least(again[0], |RecoveryWrites(m.disk, l)|));
      StepRefines(m, l, e, d);
      RunOne(m, l, e);
      ComesUp(Next(m, l, e), l, again[1..], d);
      RunJoin(m, l, [e], Recoveries(Next(m, l, e), l, again[1..]));
    }
  }

  /** While the machine is up, the log is empty and the disk itself is what recovery would give. */
  lemma UpIsRecovered(m: Machine, l: Layout, d: Disk)
    requires Good(m, l) && m.up && SameHome(Recovered(m.disk, l), d, l)
    ensures SameHome(m.disk, d, l)
  {
    EmptyLogRecovers(m.disk, l);
    hide Recovered, WellFormed;
  }

  lemma ActFacts(m: Machine, l: Layout, t: Transaction, before: Disk, after: Disk, logged: set<nat>)
    requires Good(m, l) && m.up && SameHome(m.disk, before, l) && ValidTransaction(m.disk, l, t)
    requires Records(t, after, logged) && |before| == |after|
    requires forall b: nat | b < |before| && b !in logged :: after[b] == before[b]
    ensures WellFormed(m.disk, l) && Fits(m.disk, l) && SameHome(Recovered(m.disk, l), before, l) &&
            SameHome(before, before, l)
    ensures InRange(before, InstallWrites(t.blocks, t.datas)) && SameHome(Effect(before, t), after, l)
    ensures (t.blocks == [] ==> before == after) && |t.blocks| == |t.datas|
    ensures |CommitWrites(m.disk, l, t)| == if t.blocks == [] then 0 else 2 * |t.blocks| + 2
  {
    hide Recovered, CommitWrites, Apply, Effect;
    EmptyLogRecovers(m.disk, l);
    SameHomeVia(Recovered(m.disk, l), m.disk, before, l);
    EffectIsNew(before, l, t, before, after, logged);
    NothingLogged(t, before, after, logged);
  }

  lemma CommitUp(m: Machine, l: Layout, t: Transaction, before: Disk, after: Disk)
    requires Good(m, l) && m.up && SameHome(Recovered(m.disk, l), before, l) && ValidTransaction(m.disk, l, t)
    requires InRange(before, InstallWrites(t.blocks, t.datas)) && SameHome(Effect(before, t), after, l)
    ensures Run(m, l, [Commit(t)]) && Final(m, l, [Commit(t)]).up && SameHome(Final(m, l, [Commit(t)]).disk, after, l)
  {
    hide Recovered, RecoveryWrites, WellFormed, CommitWrites, SameHome, Apply, Effect, Run, Final, ValidTransaction;
    var e := Commit(t);
    StepRefines(m, l, e, before);
    RunOne(m, l, e);
    SameHomeVia(Recovered(Next(m, l, e).disk, l), Effect(before, t), after, l);
    UpIsRecovered(Next(m, l, e), l, after);
  }

  /** One operation through its fate: the disk of before it, or that of after it. */
  lemma OneAct(m: Machine, l: Layout, t: Transaction, before: Disk, after: Disk, logged: set<nat>, fate: Fate)
    requires Good(m, l) && m.up && SameHome(m.disk, before, l) && ValidTransaction(m.disk, l, t)
    requires Records(t, after, logged) && |before| == |after|
    requires forall b: nat | b < |before| && b !in logged :: after[b] == before[b]
    ensures Run(m, l, FateEvents(m, l, t, fate)) && Final(m, l, FateEvents(m, l, t, fate)).up
    ensures SameHome(Final(m, l, FateEvents(m, l, t, fate)).disk, if fate.Early? then before else after, l)
  {
    hide Good, Enabled, Next, Recovered, RecoveryWrites, WellFormed, CommitWrites, SameHome, Records, Apply, Effect,
      Run, Final, ValidTransaction, Recoveries;
    ActFacts(m, l, t, before, after, logged);
    match fate
    case Finishes =>
      CommitUp(m, l, t, before, after);
    case Early(_, again) =>
      Crashed(m, l, t, StopsAt(m, l, t, fate), again, before, before);
    case Late(_, again) =>
      Crashed(m, l, t, StopsAt(m, l, t, fate), again, before, after);
  }

  lemma SameHomeVia(a: Disk, b: Disk, c: Disk, l: Layout)
    requires SameHome(a, b, l) && SameHome(b, c, l)
    ensures SameHome(a, c, l)
  {
  }

  lemma NothingLogged(t: Transaction, before: Disk, after: Disk, logged: set<nat>)
    requires Records(t, after, logged) && |before| == |after|
    requires forall b: nat | b < |before| && b !in logged :: after[b] == before[b]
    ensures t.blocks == [] ==> before == after
  {
  }

  /** A crash after k writes of the commit, and all that follows it. */
  lemma Crashed(m: Machine, l: Layout, t: Transaction, k: nat, again: seq<nat>, before: Disk, d: Disk)
    requires Good(m, l) && m.up && SameHome(Recovered(m.disk, l), before, l) && ValidTransaction(m.disk, l, t)
    requires k <= |CommitWrites(m.disk, l, t)| && InRange(before, InstallWrites(t.blocks, t.datas))
    requires SameHome(if Durable(t, k) then Effect(before, t) else before, d, l)
    ensures var e := CommitCrashed(t, k);
            Enabled(m, l, e) && !Next(m, l, e).up &&
            var es := [e] + Recoveries(Next(m, l, e), l, again);
            Run(m, l, es) && Final(m, l, es).up && SameHome(Final(m, l, es).disk, d, l)
  {
    hide Recovered, RecoveryWrites, WellFormed, CommitWrites, SameHome, Apply, Effect, Run, Final, ValidTransaction,
      Durable, Recoveries;
    var e := CommitCrashed(t, k);
    StepRefines(m, l, e, before);
    RunOne(m, l, e);
    SameHomeVia(Recovered(Next(m, l, e).disk, l), Ideal(before, e), d, l);
    ComesUp(Next(m, l, e), l, again, d);
    RunJoin(m, l, [e], Recoveries(Next(m, l, e), l, again));
  }

  // ----- playing a script

  lemma ValidMountable(fs: Fs)
    requires fs.Valid()
    ensures Mountable(fs.sb, fs.bs, fs.ips, fs.own) && fs.dips == fs.ips
  {
    hide BlockBit, Bits, Image.Owned, Image.NoHoles;
  }

  /** The machine is up and its disk is that of the file system. */
  ghost predicate Live(fs: Fs, l: Layout, m: Machine)
    reads fs
  {
    && fs.Valid() && LogFirst(fs.sb, l) && fs.sb.size <= BPB && 17 < l.size
    && Good(m, l) && m.up && SameHome(m.disk, DiskOf(fs), l)
  }

  datatype Answer = Changed | Rejected | Stuck

  /** A write in range that needs more blocks than are free. */
  ghost predicate NoRoom(sb: Superblock, d: Disk, op: Op) {
    && ValidDisk(sb, d) && op.WriteAt? && op.inum < sb.ninodes
    && op.off <= |FileOn(sb, d, op.inum)| && op.off + |op.src| <= MAXBYTES
    && Crowded(sb, d, op.inum, op.off + |op.src|)
  }

  /** From one valid disk to another, by one operation that has room and logs all it changes. */
  ghost predicate Takes(sb: Superblock, l: Layout, before: Disk, after: Disk, logged: set<nat>, op: Op) {
    && ValidDisk(sb, before) && ValidDisk(sb, after) && |before| == |after| && op.inum < sb.ninodes
    && !NoRoom(sb, before, op)
    && FileOn(sb, after, op.inum) == Content(FileOn(sb, before, op.inum), op)
    && (forall j: nat | j < sb.ninodes && j != op.inum :: FileOn(sb, after, j) == FileOn(sb, before, j))
    && (forall b | b in logged :: b < |before| && !l.InLog(b))
    && forall b: nat | b < |before| && b !in logged :: after[b] == before[b]
  }

  /** The operation itself, in memory. */
  method Operate(fs: Fs, op: Op, ghost l: Layout) returns (a: Answer)
    requires fs.Valid() && Proper(fs.sb, op) && LogFirst(fs.sb, l) && fs.sb.size <= BPB
    modifies fs
    ensures (a.Stuck? <==> NoRoom(fs.sb, old(DiskOf(fs)), op)) && (a.Stuck? ==> fs.Full())
    ensures a.Changed? ==>
              fs.Valid() && |fs.logged| <= 17 && Takes(fs.sb, l, old(DiskOf(fs)), DiskOf(fs), fs.logged, op)
    ensures a.Rejected? ==> fs.Valid() && Takes(fs.sb, l, old(DiskOf(fs)), DiskOf(fs), {}, op)
  {
    hide Fs.Valid, ValidDisk, FileOn, CrashSafe, Splice, Fs.File, DiskOf, Crowded, Fs.Full;
    FsOnDisk(fs);
    match op
    case Truncate(i) =>
      TruncateSafely(fs, i, l);
      a := Changed;
    case WriteAt(i, off, src) =>
      var f := new File(i);
      f.off := off;
      var w := WriteChunkSafely(f, fs, src, l);
      a := if w.Wrote? then Changed else if w.Refused? then Rejected else Stuck;
  }

  /** The files that a disk holds after the operation, or still holds after an early crash. */
  lemma TakesHolds(sb: Superblock, l: Layout, before: Disk, after: Disk, logged: set<nat>, op: Op,
                   files: seq<seq<Byte>>)
    requires Takes(sb, l, before, after, logged, op) && Holds(sb, before, files)
    ensures Holds(sb, after, Done(files, op))
  {
    hide ValidDisk, FileOn, Content;
  }

  /** These events are the act: its operation leads from the disk of the machine to the disk `after`, the
      transaction records what it logged, and the events are the fate of that transaction. */
  ghost predicate ActOf(sb: Superblock, l: Layout, m: Machine, act: Act, es: seq<Event>, t: Transaction,
                        before: Disk, after: Disk, logged: set<nat>) {
    && Good(m, l) && m.up && SameHome(m.disk, before, l) && Takes(sb, l, before, after, logged, act.op)
    && Records(t, after, logged) && ValidTransaction(m.disk, l, t) && es == FateEvents(m, l, t, act.fate)
  }

  ghost predicate IsAct(sb: Superblock, l: Layout, m: Machine, act: Act, es: seq<Event>) {
    exists t: Transaction, before: Disk, after: Disk, logged: set<nat> ::
      ActOf(sb, l, m, act, es, t, before, after, logged)
  }

  /** The events are one part for every act, each from the machine that the parts before it leave. */
  ghost predicate Plays(sb: Superblock, l: Layout, m: Machine, acts: seq<Act>, es: seq<Event>)
    requires Good(m, l)
    decreases |acts|
  {
    if acts == [] then es == []
    else
      var n := |acts| - 1;
      exists k: nat | k <= |es| ::
        && Run(m, l, es[..k]) && Plays(sb, l, m, acts[..n], es[..k])
        && IsAct(sb, l, Final(m, l, es[..k]), acts[n], es[k..])
  }

  lemma PlaysMore(sb: Superblock, l: Layout, m: Machine, acts: seq<Act>, n: nat, es: seq<Event>, more: seq<Event>)
    requires Good(m, l) && Run(m, l, es) && n < |acts| && Plays(sb, l, m, acts[..n], es)
    requires IsAct(sb, l, Final(m, l, es), acts[n], more)
    ensures Plays(sb, l, m, acts[..n + 1], es + more)
  {
    hide Good, Run, Final, IsAct;
    assert acts[..n + 1][..n] == acts[..n] && acts[..n + 1][n] == acts[n];
    assert (es + more)[..|es|] == es && (es + more)[|es|..] == more;
  }

  /** The transaction of an operation, and its fate. */
  lemma Transacts(sb: Superblock, l: Layout, m: Machine, before: Disk, after: Disk, logged: set<nat>, act: Act)
    returns (es: seq<Event>)
    requires Takes(sb, l, before, after, logged, act.op) && |logged| <= 17 < l.size
    requires Good(m, l) && m.up && SameHome(m.disk, before, l)
    ensures IsAct(sb, l, m, act, es) && Run(m, l, es) && Final(m, l, es).up
    ensures SameHome(Final(m, l, es).disk, if act.fate.Early? then before else after, l)
  {
    assert Fits(m.disk, l);
    hide ValidDisk, FileOn, Content, Good, Run, Final, NoRoom, FateEvents;
    var t := Recordable(m.disk, l, after, logged);
    OneAct(m, l, t, before, after, logged, act.fate);
    es := FateEvents(m, l, t, act.fate);
    assert ActOf(sb, l, m, act, es, t, before, after, logged);
  }

  /** An operation on a live file system, up to the end of its last recovery. After an early crash the
      file system is mounted from the disk as it was before. */
  method PlayOne(fs: Fs, act: Act, ghost l: Layout, ghost m: Machine, ghost files: seq<seq<Byte>>)
    returns (r: Fs, ok: bool, ghost es: seq<Event>)
    requires Live(fs, l, m) && Proper(fs.sb, act.op) && Holds(fs.sb, DiskOf(fs), files)
    modifies fs
    ensures r.sb == fs.sb && (r == fs || fresh(r)) && (!ok ==> r.Full())
    ensures ok <==> !NoRoom(fs.sb, old(DiskOf(fs)), act.op)
    ensures ok ==> IsAct(fs.sb, l, m, act, es)
    ensures ok ==> Run(m, l, es) && Live(r, l, Final(m, l, es)) && r.Valid()
    ensures ok ==> Holds(fs.sb, DiskOf(r), if act.fate.Early? then files else Done(files, act.op))
  {
    hide Fs.Valid, Holds, Takes, Mountable, Good, Run, Final, SameHome, Done, Fs.Full, NoRoom, ValidDisk, IsAct;
    ValidMountable(fs);
    var bs, ips := fs.bs, fs.ips;
    ghost var own, before := fs.own, DiskOf(fs);
    r, ok, es := fs, true, [];
    var a := Operate(fs, act.op, l);
    if a.Stuck? {
      ok := false;
      return;
    }
    TakesHolds(fs.sb, l, before, DiskOf(fs), if a.Changed? then fs.logged else {}, act.op, files);
    es := Transacts(fs.sb, l, m, before, DiskOf(fs), if a.Changed? then fs.logged else {}, act);
    if act.fate.Early? {
      r := new Fs.Mount(fs.sb, bs, ips, own);
    }
  }

  /** For every script from a valid disk with an empty log: the machine goes through the script, act by act
      and crash by crash, and holds exactly the files that it leaves; it stops early only before a write that
      needs more blocks than are free. */
  method Play(sb: Superblock, bs: seq<Block>, ips: seq<Inode>, ghost own: map<nat, Owner>, acts: seq<Act>,
              ghost l: Layout, ghost m: Machine, ghost files: seq<seq<Byte>>)
    returns (fs: Fs, done: nat, ghost es: seq<Event>)
    requires Mountable(sb, bs, ips, own) && LogFirst(sb, l) && sb.size <= BPB && 17 < l.size
    requires Good(m, l) && m.up && AllStorable(ips) && SameHome(m.disk, Flat(sb, bs, ips), l)
    requires Holds(sb, m.disk, files) && forall a | a in acts :: Proper(sb, a.op)
    ensures done <= |acts| && Run(m, l, es) && Plays(sb, l, m, acts[..done], es)
    ensures done < |acts| ==> NoRoom(sb, Final(m, l, es).disk, acts[done].op) && fs.Full()
    ensures forall a | a in acts[..done] :: a.op.inum < |files|
    ensures Final(m, l, es).up && Holds(sb, Final(m, l, es).disk, Result(files, acts[..done]))
  {
    hide Fs.Valid, Holds, Mountable, Good, Run, Final, SameHome, Done, Result, Fs.Full, Live, Plays, IsAct, NoRoom,
      ValidDisk;
    fs := new Fs.Mount(sb, bs, ips, own);
    es, done := [], 0;
    Starts(fs, l, m, files);
    while done < |acts|
      invariant 0 <= done <= |acts| && fresh(fs) && fs.sb == sb && Run(m, l, es) && Live(fs, l, Final(m, l, es))
      invariant Plays(sb, l, m, acts[..done], es)
      invariant forall a | a in acts[..done] :: a.op.inum < |files|
      invariant fs.Valid() && Holds(sb, DiskOf(fs), Result(files, acts[..done]))
    {
      ghost var now, soFar := Final(m, l, es), Result(files, acts[..done]);
      LiveHolds(fs, l, now, soFar);
      LiveRoom(fs, l, now, acts[done].op);
      var r, ok; ghost var more;
      r, ok, more := PlayOne(fs, acts[done], l, now, soFar);
      fs := r;
      if !ok {
        return;
      }
      ResultMore(sb, files, acts, done);
      RunJoin(m, l, es, more);
      PlaysMore(sb, l, m, acts, done, es, more);
      es := es + more;
      done := done + 1;
    }
    LiveHolds(fs, l, Final(m, l, es), Result(files, acts[..done]));
  }

  lemma Starts(fs: Fs, l: Layout, m: Machine, files: seq<seq<Byte>>)
    requires fs.Valid() && fs.dips == fs.ips && LogFirst(fs.sb, l) && fs.sb.size <= BPB && 17 < l.size
    requires Good(m, l) && m.up && SameHome(m.disk, DiskOf(fs), l) && Holds(fs.sb, m.disk, files)
    ensures Live(fs, l, m) && Run(m, l, []) && Final(m, l, []) == m && Result(files, []) == files
    ensures Holds(fs.sb, DiskOf(fs), files) && |files| == fs.sb.ninodes && Plays(fs.sb, l, m, [], [])
  {
    hide ValidDisk, FileOn, Good;
    SameFiles(fs.sb, l, m.disk, DiskOf(fs));
  }

  lemma LiveHolds(fs: Fs, l: Layout, m: Machine, files: seq<seq<Byte>>)
    requires Live(fs, l, m) && Holds(fs.sb, DiskOf(fs), files)
    ensures fs.Valid() && m.up && Holds(fs.sb, m.disk, files)
  {
    hide ValidDisk, FileOn, Good, Fs.Valid;
    SameHomeBack(m.disk, DiskOf(fs), l);
    SameFiles(fs.sb, l, DiskOf(fs), m.disk);
  }

  lemma LiveRoom(fs: Fs, l: Layout, m: Machine, op: Op)
    requires Live(fs, l, m) && op.inum < fs.sb.ninodes
    ensures fs.Valid() && ValidDisk(fs.sb, DiskOf(fs))
    ensures NoRoom(fs.sb, m.disk, op) <==> NoRoom(fs.sb, DiskOf(fs), op)
  {
    hide ValidDisk, FileOn, Good, Fs.Valid, Crowded, SameHome;
    FsOnDisk(fs);
    SameHomeBack(m.disk, DiskOf(fs), l);
    SameFiles(fs.sb, l, DiskOf(fs), m.disk);
    if op.WriteAt? {
      SameCrowd(fs.sb, l, DiskOf(fs), m.disk, op.inum, op.off + |op.src|);
    }
  }

  lemma SameHomeBack(a: Disk, b: Disk, l: Layout)
    requires SameHome(a, b, l)
    ensures SameHome(b, a, l)
  {
  }

  lemma ResultMore(sb: Superblock, files: seq<seq<Byte>>, acts: seq<Act>, n: nat)
    requires n < |acts| && (forall a | a in acts :: Proper(sb, a.op)) && |files| == sb.ninodes
    ensures (forall a | a in acts[..n + 1] :: a.op.inum < |files|) && acts[n].op.inum < |files|
    ensures Result(files, acts[..n + 1])
            == if acts[n].fate.Early? then Result(files, acts[..n]) else Done(Result(files, acts[..n]), acts[n].op)
  {
    hide Done;
    assert acts[..n + 1][..n] == acts[..n] && acts[..n + 1][n] == acts[n];
  }
}
