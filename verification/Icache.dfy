/** The inode cache (fs.c): reference counts of in-memory inodes. */
module Icache {

  const NINODE: nat := 50
  const T_DIR: nat := 1
  const DIRSIZ: nat := 14

  /** Device and inode number. */
  type Key = (nat, nat)

  /** A name fills its field; shorter ones end with a NUL. */
  type Name = s: seq<char> | |s| == DIRSIZ witness seq(DIRSIZ, _ => '\0')

  datatype Dirent = Dirent(inum: nat, name: Name)

  /** An inode on disk; `entries` is its content if it is a directory. */
  datatype Dinode = Dinode(typ: nat, nlink: nat, entries: seq<Dirent>)

  type Disk = map<Key, Dinode>

  /** struct inode. */
  datatype Inode = Inode(dev: nat, inum: nat, refs: nat, busy: bool, valid: bool, typ: nat, nlink: nat) {
    /** iput would free the inode on disk. */
    predicate Last() {
      refs == 1 && valid && nlink == 0
    }

    /** Somebody holds the lock of the inode in this slot. */
    predicate Held() {
      refs > 0 && busy
    }
  }

  /** What ilock does: take the lock, sleep, or panic with "ilock: no type". */
  datatype Locking = Locked | Asleep | NoType

  function KeyOf(ip: Inode): (k: Key) {
    (ip.dev, ip.inum)
  }

  /** References that a slot holds to k. */
  function Holds(ip: Inode, k: Key): (n: nat) {
    if KeyOf(ip) == k then ip.refs else 0
  }

  /** All references to k. */
  ghost function Refs(ss: seq<Inode>, k: Key): (n: nat) {
    if ss == [] then 0 else Holds(ss[0], k) + Refs(ss[1..], k)
  }

  lemma {:induction false} RefsUpdate(ss: seq<Inode>, i: nat, x: Inode, k: Key)
    requires i < |ss|
    ensures Refs(ss[i := x], k) == Refs(ss, k) - Holds(ss[i], k) + Holds(x, k)
    decreases |ss|
  {
    var t := ss[i := x];
    if i == 0 {
      assert t[1..] == ss[1..];
    } else {
      assert t[1..] == ss[1..][i - 1 := x];
      RefsUpdate(ss[1..], i - 1, x, k);
    }
  }

  /** At most one slot in use per inode. */
  ghost predicate Unique(ss: seq<Inode>) {
    forall i, j | 0 <= i < j < |ss| && ss[i].refs > 0 && ss[j].refs > 0 :: KeyOf(ss[i]) != KeyOf(ss[j])
  }

  /** A slot that has been read agrees with the disk. */
  ghost predicate Agrees(ip: Inode, disk: Disk) {
    ip.refs > 0 && ip.valid ==> KeyOf(ip) in disk && ip.typ == disk[KeyOf(ip)].typ && ip.nlink == disk[KeyOf(ip)].nlink
  }

  ghost predicate CacheOk(ss: seq<Inode>, disk: Disk) {
    |ss| == NINODE && Unique(ss) && forall i | 0 <= i < |ss| :: Agrees(ss[i], disk)
  }

  /** The references of one inode have changed by d, all others are the same. */
  ghost predicate Moved(ss: seq<Inode>, ts: seq<Inode>, k: Key, d: int) {
    forall x: Key :: Refs(ts, x) == Refs(ss, x) + if x == k then d else 0
  }

  /** With one slot per inode its count is the count of that slot. */
  lemma {:induction false} RefsIsSlot(ss: seq<Inode>, i: nat)
    requires Unique(ss) && i < |ss| && ss[i].refs > 0
    ensures Refs(ss, KeyOf(ss[i])) == ss[i].refs
    decreases |ss|
  {
    assert Unique(ss[1..]) by {
      forall a, b | 0 <= a < b < |ss[1..]| && ss[1..][a].refs > 0 && ss[1..][b].refs > 0
        ensures KeyOf(ss[1..][a]) != KeyOf(ss[1..][b]) {
        assert ss[1..][a] == ss[a + 1] && ss[1..][b] == ss[b + 1];
      }
    }
    if i == 0 {
      forall j | 0 <= j < |ss[1..]| ensures Holds(ss[1..][j], KeyOf(ss[0])) == 0 {
        assert ss[1..][j] == ss[j + 1];
      }
      NoRefs(ss[1..], KeyOf(ss[0]));
    } else {
      assert ss[1..][i - 1] == ss[i];
      RefsIsSlot(ss[1..], i - 1);
    }
  }

  lemma {:induction false} NoRefs(ss: seq<Inode>, k: Key)
    requires forall j | 0 <= j < |ss| :: Holds(ss[j], k) == 0
    ensures Refs(ss, k) == 0
  {
    if ss != [] {
      NoRefs(ss[1..], k);
    }
  }

  /** A slot changes its count, or an unused one is taken over for k. */
  lemma SlotMoved(ss: seq<Inode>, i: nat, x: Inode, k: Key)
    requires i < |ss| && KeyOf(x) == k && (KeyOf(ss[i]) == k || ss[i].refs == 0)
    ensures Moved(ss, ss[i := x], k, x.refs - ss[i].refs)
  {
    forall y: Key ensures Refs(ss[i := x], y) == Refs(ss, y) + if y == k then x.refs - ss[i].refs else 0 {
      RefsUpdate(ss, i, x, y);
    }
  }

  /** A reference to a is traded for one to b. */
  lemma MovedSwap(ss: seq<Inode>, ts: seq<Inode>, us: seq<Inode>, vs: seq<Inode>, a: Key, b: Key)
    requires Moved(ss, ts, a, 1) && Moved(ts, us, b, 1) && Moved(us, vs, a, -1)
    ensures Moved(ss, vs, b, 1)
  {
  }

  lemma MovedTrans(ss: seq<Inode>, ts: seq<Inode>, us: seq<Inode>, k: Key, a: int, b: int)
    requires Moved(ss, ts, k, a) && Moved(ts, us, k, b)
    ensures Moved(ss, us, k, a + b)
  {
  }

  class Cache {
    const slots: array<Inode>
    var disk: Disk

    ghost predicate Valid()
      reads this, slots
    {
      slots.Length == NINODE && CacheOk(slots[..], disk)
    }

    /** An empty cache over a disk. */
    constructor (disk: Disk)
      ensures Valid() && this.disk == disk && fresh(slots) && forall i: nat | i < NINODE :: slots[i].refs == 0
    {
      slots := new Inode[NINODE](_ => Inode(0, 0, 0, false, false, 0, 0));
      this.disk := disk;
    }

    /** iget; NINODE stands for the panic when every slot is in use. */
    method Iget(dev: nat, inum: nat) returns (i: nat)
      requires Valid()
      modifies slots
      ensures Valid() && i <= NINODE
      ensures i < NINODE ==>
                KeyOf(slots[i]) == (dev, inum) && slots[i].refs > 0 && Moved(old(slots[..]), slots[..], (dev, inum), 1)
      ensures i < NINODE ==> forall j: nat | j < NINODE && j != i :: slots[j] == old(slots[j])
      ensures i < NINODE ==>
                (old(slots[i].refs) == 0 && slots[i] == Inode(dev, inum, 1, false, false, slots[i].typ, slots[i].nlink))
                             || (old(slots[i].refs) > 0 && slots[i] == old(slots[i]).(refs := old(slots[i].refs) + 1))
      ensures i == NINODE ==> slots[..] == old(slots[..]) && forall j: nat | j < NINODE :: slots[j].refs > 0
    {
      ghost var ss := slots[..];
      var empty: nat := NINODE;
      i := 0;
      while i < NINODE
        invariant i <= NINODE && empty <= NINODE && slots[..] == ss
        invariant forall j: nat | j < i :: !(ss[j].refs > 0 && KeyOf(ss[j]) == (dev, inum))
        invariant empty < NINODE ==> empty < i && ss[empty].refs == 0
        invariant empty == NINODE ==> forall j: nat | j < i :: ss[j].refs > 0
      {
        if slots[i].refs > 0 && slots[i].dev == dev && slots[i].inum == inum {
          SlotMoved(ss, i, ss[i].(refs := ss[i].refs + 1), (dev, inum));
          slots[i] := slots[i].(refs := slots[i].refs + 1);
          assert slots[..] == ss[i := ss[i].(refs := ss[i].refs + 1)];
          return;
        }
        if empty == NINODE && slots[i].refs == 0 {
          empty := i;
        }
        i := i + 1;
      }
      i := empty;
      if empty < NINODE {
        ghost var x := ss[empty].(dev := dev, inum := inum, refs := 1, busy := false, valid := false);
        SlotMoved(ss, empty, x, (dev, inum));
        slots[empty] := slots[empty].(dev := dev, inum := inum, refs := 1, busy := false, valid := false);
        assert slots[..] == ss[empty := x];
      }
    }

    method Idup(i: nat)
      requires Valid() && i < NINODE && slots[i].refs > 0
      modifies slots
      ensures Valid() && slots[..] == old(slots[..])[i := old(slots[i]).(refs := old(slots[i].refs) + 1)]
      ensures Moved(old(slots[..]), slots[..], KeyOf(slots[i]), 1)
    {
      ghost var ss, x := slots[..], slots[i].(refs := slots[i].refs + 1);
      SlotMoved(ss, i, x, KeyOf(x));
      slots[i] := slots[i].(refs := slots[i].refs + 1);
      assert slots[..] == ss[i := x];
    }

    /** One pass of ilock: take the lock, or sleep while somebody else has it. */
    method Ilock(i: nat) returns (r: Locking)
      requires Valid() && i < NINODE && slots[i].refs > 0 && KeyOf(slots[i]) in disk
      modifies slots
      ensures Valid() && (r == Asleep <==> old(slots[i].busy)) && (r == Asleep ==> slots[..] == old(slots[..]))
      ensures slots[i].busy && KeyOf(slots[i]) == old(KeyOf(slots[i])) && slots[i].refs == old(slots[i].refs)
      ensures forall j: nat | j < NINODE && j != i :: slots[j] == old(slots[j])
      ensures Moved(old(slots[..]), slots[..], KeyOf(slots[i]), 0)
      ensures r != Asleep ==> slots[i].valid && (r == Locked <==> old(slots[i].valid) || slots[i].typ != 0)
    {
      ghost var ss := slots[..];
      if slots[i].busy {
        return Asleep;
      }
      slots[i] := slots[i].(busy := true);
      r := Locked;
      if !slots[i].valid {
        var d := disk[KeyOf(slots[i])];
        slots[i] := slots[i].(typ := d.typ, nlink := d.nlink, valid := true);
        r := if d.typ != 0 then Locked else NoType;
      }
      SlotMoved(ss, i, slots[i], KeyOf(slots[i]));
      assert slots[..] == ss[i := slots[i]];
    }

    method Iunlock(i: nat)
      requires Valid() && i < NINODE && slots[i].refs > 0 && slots[i].busy
      modifies slots
      ensures Valid() && slots[..] == old(slots[..])[i := old(slots[i]).(busy := false)]
      ensures Moved(old(slots[..]), slots[..], KeyOf(slots[i]), 0)
    {
      ghost var ss := slots[..];
      SlotMoved(ss, i, ss[i].(busy := false), KeyOf(ss[i]));
      slots[i] := slots[i].(busy := false);
      assert slots[..] == ss[i := ss[i].(busy := false)];
    }

    /** iput: the last reference to an inode without links frees it on disk; false is the panic "iput busy". */
    method Iput(i: nat) returns (ok: bool)
      requires Valid() && i < NINODE && slots[i].refs > 0
      modifies slots, this`disk
      ensures Valid() && (ok <==> !old(slots[i].refs == 1 && slots[i].valid && slots[i].nlink == 0 && slots[i].busy))
      ensures !ok ==> slots[..] == old(slots[..]) && disk == old(disk)
      ensures ok ==>
                && Moved(old(slots[..]), slots[..], KeyOf(old(slots[i])), -1)
                && (forall j: nat | j < NINODE && j != i :: slots[j] == old(slots[j]))
                && if old(slots[i].refs == 1 && slots[i].valid && slots[i].nlink == 0) then
                     && disk == old(disk)[KeyOf(old(slots[i])) := Dinode(0, 0, [])]
                     && slots[i] == old(slots[i]).(refs := 0, typ := 0, busy := false, valid := false)
                   else
                     disk == old(disk) && slots[i] == old(slots[i]).(refs := old(slots[i].refs) - 1)
    {
      ghost var ss := slots[..];
      if slots[i].refs == 1 && slots[i].valid && slots[i].nlink == 0 {
        if slots[i].busy {
          return false;
        }
        disk := disk[KeyOf(slots[i]) := Dinode(0, 0, [])];
        slots[i] := slots[i].(typ := 0, valid := false);
      }
      slots[i] := slots[i].(refs := slots[i].refs - 1);
      ok := true;
      SlotMoved(ss, i, slots[i], KeyOf(slots[i]));
      assert slots[..] == ss[i := slots[i]];
      forall j | 0 <= j < NINODE && j != i ensures Agrees(slots[j], disk) {
        assert Agrees(ss[j], old(disk));
      }
    }

    /** iunlockput of an inode that has a link or another reference: nothing happens on disk. */
    method IunlockPut(i: nat)
      requires Valid() && i < NINODE && slots[i].refs > 0 && slots[i].busy && slots[i].valid &&
               (slots[i].nlink > 0 || slots[i].refs > 1)
      modifies slots, this`disk
      ensures Valid() && disk == old(disk) &&
              slots[..] == old(slots[..])[i := old(slots[i]).(busy := false, refs := old(slots[i].refs) - 1)]
      ensures Moved(old(slots[..]), slots[..], KeyOf(old(slots[i])), -1)
    {
      hide CacheOk, Moved;
      ghost var ss := slots[..];
      Iunlock(i);
      ghost var ts := slots[..];
      var ok := Iput(i);
      MovedTrans(ss, ts, slots[..], KeyOf(ss[i]), 0, -1);
    }
  }
}
