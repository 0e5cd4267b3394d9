/** Crash atomicity of the redo log (log.c): the disk writes that commit and
    recovery issue, one block at a time, and what is left by a crash between any two. */
module RedoLog {
  import opened Blocks
  import opened BufferCache

  const MAXOPBLOCKS: nat := 10
  const LOGSIZE: nat := 3 * MAXOPBLOCKS

  type Disk = seq<Block>

  /** log.start and log.size: one header block, then size - 1 data slots. */
  datatype Layout = Layout(start: nat, size: nat) {
    predicate InLog(b: nat) {
      start <= b < start + size
    }
  }

  /** A batch of updates: the home blocks and their new contents (lh.block and the cache),
      and the header block that names them. */
  datatype Transaction = Transaction(blocks: seq<nat>, datas: seq<Block>, header: Block)

  predicate Fits(d: Disk, l: Layout) {
    0 < l.size && l.start + l.size <= |d| < TWO32
  }

  /** Home blocks named by the log exist and lie outside the log region. */
  predicate HomeBlocks(d: Disk, l: Layout, blocks: seq<nat>) {
    && |blocks| <= LOGSIZE && |blocks| < l.size
    && forall i | 0 <= i < |blocks| :: blocks[i] < |d| && !l.InLog(blocks[i])
  }

  ghost predicate ValidTransaction(d: Disk, l: Layout, t: Transaction) {
    && |t.blocks| == |t.datas| && HomeBlocks(d, l, t.blocks)
    && LoggedN(t.header) == |t.blocks| && LoggedBlocks(t.header) == t.blocks
  }

  // ----- the on-disk header

  function LoggedN(b: Block): (n: nat) {
    GetWord(b, 0)
  }

  function LoggedBlocks(b: Block): (blocks: seq<nat>)
    requires LoggedN(b) <= LOGSIZE
    ensures |blocks| == LoggedN(b)
  {
    Entries(b, LoggedN(b))
  }

  /** The first n block numbers of a header. */
  function Entries(b: Block, n: nat): (blocks: seq<nat>)
    requires n <= LOGSIZE
    ensures |blocks| == n
  {
    if n == 0 then [] else Entries(b, n - 1) + [GetWord(b, n)]
  }

  lemma {:induction false} EntryAt(b: Block, n: nat, i: nat)
    requires i < n <= LOGSIZE
    ensures Entries(b, n)[i] == GetWord(b, 1 + i)
  {
    if i < n - 1 {
      EntryAt(b, n - 1, i);
    }
  }

  /** write_head's loop: store blocks[..k] into words 1..k. */
  function PutBlocks(b: Block, blocks: seq<nat>, k: nat): (r: Block)
    requires k <= |blocks| <= LOGSIZE && forall i | 0 <= i < |blocks| :: blocks[i] < TWO32
    ensures GetWord(r, 0) == GetWord(b, 0)
    ensures forall i | 0 <= i < k :: GetWord(r, 1 + i) == blocks[i]
  {
    if k == 0 then b else PutWord(PutBlocks(b, blocks, k - 1), k, blocks[k - 1])
  }

  /** The header block as write_head leaves it; words past the last entry keep their old value. */
  function Header(b: Block, blocks: seq<nat>): (r: Block)
    requires |blocks| <= LOGSIZE && forall i | 0 <= i < |blocks| :: blocks[i] < TWO32
    ensures LoggedN(r) == |blocks| && LoggedBlocks(r) == blocks
  {
    var r := PutBlocks(PutWord(b, 0, |blocks|), blocks, |blocks|);
    assert forall i | 0 <= i < |blocks| :: Entries(r, |blocks|)[i] == blocks[i] by {
      forall i | 0 <= i < |blocks| ensures Entries(r, |blocks|)[i] == blocks[i] {
        EntryAt(r, |blocks|, i);
      }
    }
    r
  }

  /** Only the entry count is cleared. */
  function Cleared(b: Block): (r: Block)
    ensures LoggedN(r) == 0
  {
    PutWord(b, 0, 0)
  }

  // ----- sequences of block writes

  ghost predicate InRange(d: Disk, ws: seq<Write>) {
    forall i | 0 <= i < |ws| :: ws[i].blockno < |d|
  }

  /** The disk after the first k writes. */
  ghost function Apply(d: Disk, ws: seq<Write>, k: nat): (r: Disk)
    requires InRange(d, ws) && k <= |ws|
    ensures |r| == |d|
  {
    if k == 0 then d else Apply(d, ws, k - 1)[ws[k - 1].blockno := ws[k - 1].data]
  }

  ghost function ApplyAll(d: Disk, ws: seq<Write>): (r: Disk)
    requires InRange(d, ws)
    ensures |r| == |d|
  {
    Apply(d, ws, |ws|)
  }

  /** One of the first k writes goes to block b. */
  ghost predicate Touches(ws: seq<Write>, k: nat, b: nat)
    requires k <= |ws|
  {
    exists i :: 0 <= i < k && ws[i].blockno == b
  }

  lemma {:induction false} ApplyUntouched(d: Disk, ws: seq<Write>, k: nat, b: nat)
    requires InRange(d, ws) && k <= |ws| && b < |d| && !Touches(ws, k, b)
    ensures Apply(d, ws, k)[b] == d[b]
  {
    if k > 0 {
      assert ws[k - 1].blockno != b;
      ApplyUntouched(d, ws, k - 1, b);
    }
  }

  /** The contents of a written block depend on the writes alone. */
  lemma {:induction false} ApplyTouched(d: Disk, e: Disk, ws: seq<Write>, k: nat, b: nat)
    requires |d| == |e| && InRange(d, ws) && k <= |ws| && b < |d| && Touches(ws, k, b)
    ensures Apply(d, ws, k)[b] == Apply(e, ws, k)[b]
  {
    if ws[k - 1].blockno != b {
      ApplyTouched(d, e, ws, k - 1, b);
    }
  }

  /** If all writes to b carry x, b ends up holding x. */
  lemma {:induction false} ApplyUniform(d: Disk, ws: seq<Write>, k: nat, b: nat, x: Block)
    requires InRange(d, ws) && k <= |ws| && b < |d| && Touches(ws, k, b)
    requires forall i | 0 <= i < k && ws[i].blockno == b :: ws[i].data == x
    ensures Apply(d, ws, k)[b] == x
  {
    if ws[k - 1].blockno != b {
      ApplyUniform(d, ws, k - 1, b, x);
    }
  }

  lemma {:induction false} ApplySame(d: Disk, ws: seq<Write>, vs: seq<Write>, k: nat)
    requires InRange(d, ws) && InRange(d, vs) && k <= |ws| && k <= |vs|
    requires forall i | 0 <= i < k :: ws[i] == vs[i]
    ensures Apply(d, ws, k) == Apply(d, vs, k)
  {
    if k > 0 {
      ApplySame(d, ws, vs, k - 1);
    }
  }

  /** Writes after a prefix: continue from the disk that the prefix leaves. */
  lemma {:induction false} ApplyConcat(d: Disk, ws: seq<Write>, vs: seq<Write>, k: nat)
    requires InRange(d, ws) && InRange(d, vs) && k <= |vs|
    ensures InRange(d, ws + vs) && Apply(d, ws + vs, |ws| + k) == Apply(ApplyAll(d, ws), vs, k)
  {
    if k == 0 {
      ApplySame(d, ws + vs, ws, |ws|);
    } else {
      ApplyConcat(d, ws, vs, k - 1);
      assert (ws + vs)[|ws| + k - 1] == vs[k - 1];
    }
  }

  /** Redo: replaying all writes after any prefix of them gives the same disk. */
  lemma RedoIsIdempotent(d: Disk, ws: seq<Write>, k: nat)
    requires InRange(d, ws) && k <= |ws|
    ensures ApplyAll(Apply(d, ws, k), ws) == ApplyAll(d, ws)
  {
    var e := Apply(d, ws, k);
    forall b | 0 <= b < |d| ensures ApplyAll(e, ws)[b] == ApplyAll(d, ws)[b] {
      if Touches(ws, |ws|, b) {
        ApplyTouched(d, e, ws, |ws|, b);
      } else {
        ApplyUntouched(d, ws, |ws|, b);
        ApplyUntouched(e, ws, |ws|, b);
        ApplyUntouched(d, ws, k, b);
      }
    }
  }

  // ----- home blocks and the log region

  ghost predicate SameHome(d: Disk, e: Disk, l: Layout) {
    |d| == |e| && forall b: nat | b < |d| && !l.InLog(b) :: d[b] == e[b]
  }

  /** Writes that stay inside the log region do not change home blocks. */
  lemma LogWritesKeepHome(d: Disk, l: Layout, ws: seq<Write>, k: nat)
    requires InRange(d, ws) && k <= |ws| && forall i | 0 <= i < |ws| :: l.InLog(ws[i].blockno)
    ensures SameHome(d, Apply(d, ws, k), l)
  {
    forall b: nat | b < |d| && !l.InLog(b) ensures d[b] == Apply(d, ws, k)[b] {
      ApplyUntouched(d, ws, k, b);
    }
  }

  /** Writes to home blocks do not change the log region. */
  lemma HomeWritesKeepLog(d: Disk, l: Layout, ws: seq<Write>, k: nat)
    requires InRange(d, ws) && k <= |ws| && forall i | 0 <= i < |ws| :: !l.InLog(ws[i].blockno)
    ensures forall b: nat | b < |d| && l.InLog(b) :: d[b] == Apply(d, ws, k)[b]
  {
    forall b: nat | b < |d| && l.InLog(b) ensures d[b] == Apply(d, ws, k)[b] {
      ApplyUntouched(d, ws, k, b);
    }
  }

  /** Equal home blocks stay equal under the same writes. */
  lemma SameHomeApply(d: Disk, e: Disk, l: Layout, ws: seq<Write>)
    requires SameHome(d, e, l) && InRange(d, ws)
    ensures SameHome(ApplyAll(d, ws), ApplyAll(e, ws), l)
  {
    forall b: nat | b < |d| && !l.InLog(b) ensures ApplyAll(d, ws)[b] == ApplyAll(e, ws)[b] {
      if Touches(ws, |ws|, b) {
        ApplyTouched(d, e, ws, |ws|, b);
      } else {
        ApplyUntouched(d, ws, |ws|, b);
        ApplyUntouched(e, ws, |ws|, b);
      }
    }
  }

  // ----- recovery

  ghost predicate WellFormed(d: Disk, l: Layout) {
    && Fits(d, l)
    && LoggedN(d[l.start]) <= LOGSIZE
    && HomeBlocks(d, l, LoggedBlocks(d[l.start]))
  }

  ghost predicate EmptyLog(d: Disk, l: Layout) {
    Fits(d, l) && LoggedN(d[l.start]) == 0
  }

  /** Copies of log slots to home blocks, as install_trans issues them. */
  ghost function InstallWrites(blocks: seq<nat>, datas: seq<Block>): (ws: seq<Write>)
    requires |blocks| == |datas|
    ensures |ws| == |blocks| && forall i | 0 <= i < |ws| :: ws[i] == Write(blocks[i], datas[i])
  {
    seq(|blocks|, i requires 0 <= i < |blocks| => Write(blocks[i], datas[i]))
  }

  ghost function Slots(d: Disk, l: Layout, n: nat): (datas: seq<Block>)
    requires l.start + n < |d|
  {
    d[l.start + 1..l.start + 1 + n]
  }

  /** What is in the log of d. */
  ghost function Pending(d: Disk, l: Layout): (ws: seq<Write>)
    requires WellFormed(d, l)
    ensures |ws| == LoggedN(d[l.start]) && InRange(d, ws) && forall i | 0 <= i < |ws| :: !l.InLog(ws[i].blockno)
  {
    var blocks := LoggedBlocks(d[l.start]);
    InstallWrites(blocks, Slots(d, l, |blocks|))
  }

  /** The log header and slots decide what is pending. */
  lemma SamePending(d: Disk, e: Disk, l: Layout)
    requires WellFormed(d, l) && |d| == |e|
    requires forall b: nat | b < |d| && l.InLog(b) :: d[b] == e[b]
    ensures WellFormed(e, l) && Pending(e, l) == Pending(d, l)
  {
    var n := LoggedN(d[l.start]);
    assert Slots(e, l, n) == Slots(d, l, n);
  }

  ghost function RecoveryWrites(d: Disk, l: Layout): (ws: seq<Write>)
    requires WellFormed(d, l)
    ensures |ws| == LoggedN(d[l.start]) + 1 && InRange(d, ws)
  {
    Pending(d, l) + [Write(l.start, Cleared(d[l.start]))]
  }

  /** The disk after an undisturbed recovery. */
  ghost function Recovered(d: Disk, l: Layout): (r: Disk)
    requires WellFormed(d, l)
    ensures |r| == |d|
  {
    ApplyAll(d, RecoveryWrites(d, l))
  }

  /** Recovery installs what is pending and then clears the header. */
  lemma RecoveredHome(d: Disk, l: Layout)
    requires WellFormed(d, l)
    ensures Recovered(d, l) == ApplyAll(d, Pending(d, l))[l.start := Cleared(d[l.start])]
    ensures SameHome(Recovered(d, l), ApplyAll(d, Pending(d, l)), l)
    ensures EmptyLog(Recovered(d, l), l)
  {
    var ws, ps := RecoveryWrites(d, l), Pending(d, l);
    ApplySame(d, ws, ps, |ps|);
  }

  /** With an empty log the disk itself is what recovery gives. */
  lemma EmptyLogRecovers(d: Disk, l: Layout)
    requires EmptyLog(d, l)
    ensures WellFormed(d, l) && SameHome(Recovered(d, l), d, l)
  {
    assert LoggedBlocks(d[l.start]) == [];
    RecoveredHome(d, l);
  }

  /** Crash before the header is cleared: the log still holds everything. */
  lemma RecoveryCrashInstalling(d: Disk, l: Layout, k: nat)
    requires WellFormed(d, l) && k <= |Pending(d, l)|
    ensures WellFormed(Apply(d, Pending(d, l), k), l)
    ensures SameHome(Recovered(Apply(d, Pending(d, l), k), l), Recovered(d, l), l)
  {
    var ps := Pending(d, l);
    var e := Apply(d, ps, k);
    HomeWritesKeepLog(d, l, ps, k);
    SamePending(d, e, l);
    RedoIsIdempotent(d, ps, k);
    RecoveredHome(d, l);
    RecoveredHome(e, l);
  }

  /** A crash during recovery, after any number of its writes, leaves a disk whose
      recovery gives the same home blocks. */
  lemma RecoveryCrash(d: Disk, l: Layout, k: nat)
    requires WellFormed(d, l) && k <= |RecoveryWrites(d, l)|
    ensures WellFormed(Apply(d, RecoveryWrites(d, l), k), l)
    ensures SameHome(Recovered(Apply(d, RecoveryWrites(d, l), k), l), Recovered(d, l), l)
  {
    var ws, ps := RecoveryWrites(d, l), Pending(d, l);
    if k <= |ps| {
      ApplySame(d, ws, ps, k);
      RecoveryCrashInstalling(d, l, k);
    } else {
      RecoveredHome(d, l);
      EmptyLogRecovers(Recovered(d, l), l);
    }
  }

  // ----- commit

  ghost function LogSlotWrites(l: Layout, datas: seq<Block>): (ws: seq<Write>)
    ensures |ws| == |datas| && forall i | 0 <= i < |ws| :: ws[i] == Write(l.start + 1 + i, datas[i])
  {
    seq(|datas|, i requires 0 <= i < |datas| => Write(l.start + 1 + i, datas[i]))
  }

  /** The slots, then the header: the first half of commit(). */
  ghost function MarkWrites(d: Disk, l: Layout, t: Transaction): (ws: seq<Write>)
    requires Fits(d, l) && ValidTransaction(d, l, t)
    ensures |ws| == |t.blocks| + 1 && InRange(d, ws) && forall i | 0 <= i < |ws| :: l.InLog(ws[i].blockno)
  {
    LogSlotWrites(l, t.datas) + [Write(l.start, t.header)]
  }

  /** The header write, number |blocks| from zero, is the commit point. */
  ghost predicate Durable(t: Transaction, k: nat) {
    t.blocks != [] && k > |t.blocks|
  }

  /** The transaction applied whole. */
  ghost function Effect(d: Disk, t: Transaction): (r: Disk)
    requires |t.blocks| == |t.datas| && InRange(d, InstallWrites(t.blocks, t.datas))
    ensures |r| == |d|
  {
    ApplyAll(d, InstallWrites(t.blocks, t.datas))
  }

  /** The disk right after the header write. */
  ghost function CommitPoint(d: Disk, l: Layout, t: Transaction): (c: Disk)
    requires Fits(d, l) && ValidTransaction(d, l, t)
    ensures |c| == |d|
  {
    ApplyAll(d, MarkWrites(d, l, t))
  }

  lemma {:induction false} SlotAt(d: Disk, l: Layout, datas: seq<Block>, i: nat, k: nat)
    requires InRange(d, LogSlotWrites(l, datas)) && i < k <= |datas|
    ensures l.start + 1 + i < |d|
    ensures Apply(d, LogSlotWrites(l, datas), k)[l.start + 1 + i] == datas[i]
  {
    assert LogSlotWrites(l, datas)[i].blockno < |d|;
    if i < k - 1 {
      SlotAt(d, l, datas, i, k - 1);
    }
  }

  lemma SlotsFilled(d: Disk, l: Layout, datas: seq<Block>)
    requires l.start + |datas| < |d|
    ensures InRange(d, LogSlotWrites(l, datas))
    ensures Slots(ApplyAll(d, LogSlotWrites(l, datas)), l, |datas|) == datas
  {
    var e := ApplyAll(d, LogSlotWrites(l, datas));
    forall i | 0 <= i < |datas| ensures e[l.start + 1 + i] == datas[i] {
      SlotAt(d, l, datas, i, |datas|);
    }
  }

  /** The disk at the commit point: slots filled, header written, home blocks untouched. */
  lemma AtCommitPoint(d: Disk, l: Layout, t: Transaction)
    requires Fits(d, l) && ValidTransaction(d, l, t)
    ensures InRange(d, LogSlotWrites(l, t.datas))
    ensures CommitPoint(d, l, t) == ApplyAll(d, LogSlotWrites(l, t.datas))[l.start := t.header]
    ensures Slots(CommitPoint(d, l, t), l, |t.datas|) == t.datas
    ensures SameHome(d, CommitPoint(d, l, t), l)
  {
    var ws, ms := LogSlotWrites(l, t.datas), MarkWrites(d, l, t);
    SlotsFilled(d, l, t.datas);
    ApplySame(d, ms, ws, |ws|);
    assert Slots(CommitPoint(d, l, t), l, |t.datas|) == Slots(ApplyAll(d, ws), l, |t.datas|);
    LogWritesKeepHome(d, l, ms, |ms|);
  }

  /** What is pending at the commit point is the transaction. */
  lemma CommitPointPending(d: Disk, l: Layout, t: Transaction)
    requires Fits(d, l) && ValidTransaction(d, l, t)
    ensures WellFormed(CommitPoint(d, l, t), l)
    ensures Pending(CommitPoint(d, l, t), l) == InstallWrites(t.blocks, t.datas)
  {
    AtCommitPoint(d, l, t);
  }

  /** Recovering at the commit point gives the whole transaction. */
  lemma CommitPointRecovers(d: Disk, l: Layout, t: Transaction)
    requires Fits(d, l) && ValidTransaction(d, l, t)
    ensures WellFormed(CommitPoint(d, l, t), l)
    ensures SameHome(Recovered(CommitPoint(d, l, t), l), Effect(d, t), l)
  {
    var c := CommitPoint(d, l, t);
    CommitPointPending(d, l, t);
    AtCommitPoint(d, l, t);
    RecoveredHome(c, l);
    SameHomeApply(d, c, l, InstallWrites(t.blocks, t.datas));
  }

  /** All writes of commit(): fill the slots, write the header, then do what a recovery
      from that point does: install and clear the header. */
  ghost function CommitWrites(d: Disk, l: Layout, t: Transaction): (ws: seq<Write>)
    requires Fits(d, l) && ValidTransaction(d, l, t)
    ensures InRange(d, ws)
    ensures |ws| == if t.blocks == [] then 0 else 2 * |t.blocks| + 2
  {
    if t.blocks == [] then []
    else CommitPointPending(d, l, t); MarkWrites(d, l, t) + RecoveryWrites(CommitPoint(d, l, t), l)
  }

  /** A finished commit, stage by stage. */
  lemma CommitStages(d: Disk, l: Layout, t: Transaction)
    requires Fits(d, l) && ValidTransaction(d, l, t) && t.blocks != []
    ensures WellFormed(CommitPoint(d, l, t), l)
    ensures ApplyAll(d, CommitWrites(d, l, t)) == Recovered(CommitPoint(d, l, t), l)
  {
    hide GetWord, PutWord, LoggedBlocks;
    CommitPointPending(d, l, t);
    var ms, rs := MarkWrites(d, l, t), RecoveryWrites(CommitPoint(d, l, t), l);
    ApplyConcat(d, ms, rs, |rs|);
  }

  /** Crash before the commit point: the old header still says "empty". */
  lemma CrashBeforeCommitPoint(d: Disk, l: Layout, t: Transaction, k: nat)
    requires EmptyLog(d, l) && ValidTransaction(d, l, t) && k <= |t.blocks| && t.blocks != []
    ensures k <= |CommitWrites(d, l, t)| && WellFormed(Apply(d, CommitWrites(d, l, t), k), l)
    ensures SameHome(Recovered(Apply(d, CommitWrites(d, l, t), k), l), d, l)
  {
    var ws, cs := LogSlotWrites(l, t.datas), CommitWrites(d, l, t);
    assert forall i | 0 <= i < |ws| :: ws[i] == cs[i];
    ApplySame(d, cs, ws, k);
    var e := Apply(d, ws, k);
    LogWritesKeepHome(d, l, ws, k);
    ApplyUntouched(d, ws, k, l.start);
    EmptyLogRecovers(e, l);
  }

  /** Crash at or after the commit point: recovery redoes the rest of commit. */
  lemma CrashAfterCommitPoint(d: Disk, l: Layout, t: Transaction, j: nat)
    requires Fits(d, l) && ValidTransaction(d, l, t) && t.blocks != [] && j <= |t.blocks| + 1
    ensures WellFormed(Apply(d, CommitWrites(d, l, t), |t.blocks| + 1 + j), l)
    ensures SameHome(Recovered(Apply(d, CommitWrites(d, l, t), |t.blocks| + 1 + j), l), Effect(d, t), l)
  {
    hide Apply, RecoveryWrites, Recovered, MarkWrites, WellFormed, ValidTransaction;
    CommitPointRecovers(d, l, t);
    var c := CommitPoint(d, l, t);
    CommitPointPending(d, l, t);
    ApplyConcat(d, MarkWrites(d, l, t), RecoveryWrites(c, l), j);
    RecoveryCrash(c, l, j);
  }

  /** Crash atomicity of one commit: after any number k of its writes, recovery
      leaves the old home blocks or all of the new ones, and k decides which. */
  lemma CommitCrash(d: Disk, l: Layout, t: Transaction, k: nat)
    requires EmptyLog(d, l) && ValidTransaction(d, l, t) && k <= |CommitWrites(d, l, t)|
    ensures WellFormed(Apply(d, CommitWrites(d, l, t), k), l)
    ensures SameHome(Recovered(Apply(d, CommitWrites(d, l, t), k), l), if Durable(t, k) then Effect(d, t) else d, l)
  {
    hide RecoveryWrites, Recovered, MarkWrites, WellFormed;
    if t.blocks == [] {
      EmptyLogRecovers(d, l);
    } else if k <= |t.blocks| {
      CrashBeforeCommitPoint(d, l, t, k);
    } else {
      CrashAfterCommitPoint(d, l, t, k - |t.blocks| - 1);
    }
  }

  /** A finished commit leaves an empty log. */
  lemma CommitEmptiesLog(d: Disk, l: Layout, t: Transaction)
    requires EmptyLog(d, l) && ValidTransaction(d, l, t)
    ensures EmptyLog(ApplyAll(d, CommitWrites(d, l, t)), l)
  {
    if t.blocks != [] {
      CommitStages(d, l, t);
      RecoveredHome(CommitPoint(d, l, t), l);
    }
  }

  /** Installing contents that the home blocks already have changes nothing. */
  lemma {:induction false} InstallNoChange(d: Disk, blocks: seq<nat>, datas: seq<Block>, k: nat)
    requires |blocks| == |datas| && k <= |blocks|
    requires forall i | 0 <= i < |blocks| :: blocks[i] < |d| && d[blocks[i]] == datas[i]
    ensures Apply(d, InstallWrites(blocks, datas), k) == d
  {
    if k > 0 {
      InstallNoChange(d, blocks, datas, k - 1);
    }
  }

  /** What recovery from the commit point needs: the header names the transaction. */
  lemma CommitPointHeader(d: Disk, l: Layout, t: Transaction)
    requires Fits(d, l) && ValidTransaction(d, l, t)
    ensures WellFormed(CommitPoint(d, l, t), l)
    ensures Pending(CommitPoint(d, l, t), l) == InstallWrites(t.blocks, t.datas)
    ensures CommitPoint(d, l, t)[l.start] == t.header
  {
    CommitPointPending(d, l, t);
    AtCommitPoint(d, l, t);
  }

  /** A transaction taken from v itself leaves the home blocks of v as they are. */
  lemma CommitKeepsView(v: Disk, l: Layout, t: Transaction)
    requires Fits(v, l) && ValidTransaction(v, l, t)
    requires forall i | 0 <= i < |t.blocks| :: v[t.blocks[i]] == t.datas[i]
    ensures WellFormed(CommitPoint(v, l, t), l)
    ensures SameHome(Recovered(CommitPoint(v, l, t), l), v, l)
  {
    CommitPointRecovers(v, l, t);
    InstallNoChange(v, t.blocks, t.datas, |t.blocks|);
  }

  // ----- whole runs

  datatype Event =
    | Commit(t: Transaction)                  // commit runs to its end
    | CommitCrashed(t: Transaction, k: nat)   // crash after k writes of commit
    | RecoveryCrashed(k: nat)                 // crash after k writes of recovery
    | Recover                                 // recovery runs to its end

  datatype Machine = Machine(disk: Disk, up: bool)

  ghost predicate Enabled(m: Machine, l: Layout, e: Event)
    requires WellFormed(m.disk, l)
  {
    match e
    case Commit(t) => m.up && ValidTransaction(m.disk, l, t)
    case CommitCrashed(t, k) => m.up && ValidTransaction(m.disk, l, t) && k <= |CommitWrites(m.disk, l, t)|
    case RecoveryCrashed(k) => !m.up && k <= |RecoveryWrites(m.disk, l)|
    case Recover => !m.up
  }

  ghost predicate Good(m: Machine, l: Layout) {
    WellFormed(m.disk, l) && (m.up ==> EmptyLog(m.disk, l))
  }

  ghost function Next(m: Machine, l: Layout, e: Event): (r: Machine)
    requires Good(m, l) && Enabled(m, l, e)
    ensures Good(r, l) && |r.disk| == |m.disk|
  {
    match e
    case Commit(t) =>
      CommitCrash(m.disk, l, t, |CommitWrites(m.disk, l, t)|);
      CommitEmptiesLog(m.disk, l, t);
      Machine(ApplyAll(m.disk, CommitWrites(m.disk, l, t)), true)
    case CommitCrashed(t, k) =>
      CommitCrash(m.disk, l, t, k);
      Machine(Apply(m.disk, CommitWrites(m.disk, l, t), k), false)
    case RecoveryCrashed(k) =>
      RecoveryCrash(m.disk, l, k);
      Machine(Apply(m.disk, RecoveryWrites(m.disk, l), k), false)
    case Recover =>
      RecoveredHome(m.disk, l);
      EmptyLogRecovers(Recovered(m.disk, l), l);
      Machine(Recovered(m.disk, l), true)
  }

  /** The specification: whole transactions on a disk without a log. */
  ghost function Ideal(d: Disk, e: Event): (r: Disk)
    requires e.Commit? || e.CommitCrashed? ==>
               |e.t.blocks| == |e.t.datas| && InRange(d, InstallWrites(e.t.blocks, e.t.datas))
    ensures |r| == |d|
  {
    match e
    case Commit(t) => Effect(d, t)
    case CommitCrashed(t, k) => if Durable(t, k) then Effect(d, t) else d
    case _ => d
  }

  ghost predicate Run(m: Machine, l: Layout, es: seq<Event>)
    requires Good(m, l)
    decreases |es|
  {
    es == [] || (Enabled(m, l, es[0]) && Run(Next(m, l, es[0]), l, es[1..]))
  }

  ghost function Final(m: Machine, l: Layout, es: seq<Event>): (r: Machine)
    requires Good(m, l) && Run(m, l, es)
    ensures Good(r, l) && |r.disk| == |m.disk|
    decreases |es|
  {
    if es == [] then m else Final(Next(m, l, es[0]), l, es[1..])
  }

  ghost predicate Applicable(d: Disk, es: seq<Event>)
    decreases |es|
  {
    es == [] || ((es[0].Commit? || es[0].CommitCrashed? ==>
                    |es[0].t.blocks| == |es[0].t.datas| && InRange(d, InstallWrites(es[0].t.blocks, es[0].t.datas)))
                 && Applicable(Ideal(d, es[0]), es[1..]))
  }

  ghost function IdealFinal(d: Disk, es: seq<Event>): (r: Disk)
    requires Applicable(d, es)
    ensures |r| == |d|
    decreases |es|
  {
    if es == [] then d else IdealFinal(Ideal(d, es[0]), es[1..])
  }

  /** A commit, crashed after k writes or finished, against the ideal disk. */
  lemma CommitRefines(m: Disk, l: Layout, t: Transaction, k: nat, d: Disk)
    requires EmptyLog(m, l) && ValidTransaction(m, l, t) && k <= |CommitWrites(m, l, t)| && SameHome(m, d, l)
    ensures InRange(d, InstallWrites(t.blocks, t.datas))
    ensures WellFormed(Apply(m, CommitWrites(m, l, t), k), l)
    ensures SameHome(Recovered(Apply(m, CommitWrites(m, l, t), k), l), if Durable(t, k) then Effect(d, t) else d, l)
  {
    CommitCrash(m, l, t, k);
    SameHomeApply(m, d, l, InstallWrites(t.blocks, t.datas));
  }

  /** One event keeps the recovered home blocks equal to the ideal disk. */
  lemma StepRefines(m: Machine, l: Layout, e: Event, d: Disk)
    requires Good(m, l) && Enabled(m, l, e) && SameHome(Recovered(m.disk, l), d, l)
    ensures e.Commit? || e.CommitCrashed? ==>
              |e.t.blocks| == |e.t.datas| && InRange(d, InstallWrites(e.t.blocks, e.t.datas))
    ensures SameHome(Recovered(Next(m, l, e).disk, l), Ideal(d, e), l)
  {
    match e
    case Commit(t) =>
      EmptyLogRecovers(m.disk, l);
      CommitRefines(m.disk, l, t, |CommitWrites(m.disk, l, t)|, d);
    case CommitCrashed(t, k) =>
      EmptyLogRecovers(m.disk, l);
      CommitRefines(m.disk, l, t, k, d);
    case RecoveryCrashed(k) =>
      RecoveryCrash(m.disk, l, k);
    case Recover =>
      RecoveredHome(m.disk, l);
      EmptyLogRecovers(Recovered(m.disk, l), l);
  }

  /** Crash atomicity over every run: any mix of finished and crashed commits and of
      finished and crashed recoveries leaves exactly the effect of the transactions
      that reached their commit point, each one whole and in order. */
  lemma {:induction false} CrashAtomicity(m: Machine, l: Layout, es: seq<Event>, d: Disk)
    requires Good(m, l) && Run(m, l, es) && SameHome(Recovered(m.disk, l), d, l)
    ensures Applicable(d, es)
    ensures SameHome(Recovered(Final(m, l, es).disk, l), IdealFinal(d, es), l)
    decreases |es|
  {
    if es != [] {
      StepRefines(m, l, es[0], d);
      CrashAtomicity(Next(m, l, es[0]), l, es[1..], Ideal(d, es[0]));
    }
  }
}
