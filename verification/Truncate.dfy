/** Freeing all blocks of an inode (itrunc in fs.c) on the level of slots and owners. */
module Truncate {
  import opened Blocks
  import opened Inodes

  /** Entries below j of inode i's indirect block. */
  predicate EntryBelow(o: Owner, i: nat, j: nat) {
    o.inum == i && NADDRS <= o.slot < NADDRS + j
  }

  /** Emptying a direct slot: its block has no owner any more. */
  lemma UnlinkDirect(m: Image, own: map<nat, Owner>, i: nat, t: nat)
    requires m.Owned(own) && i < |m.ips| && t < NDIRECT && m.ips[i].addrs[t] != 0
    ensures SetAddr(m, i, t, 0).Wf() && SetAddr(m, i, t, 0).Owned(own - {m.ips[i].addrs[t]})
    ensures m.ips[i].addrs[t] in own && own[m.ips[i].addrs[t]] == Owner(i, t)
    ensures forall j: nat, s: nat | j < |m.ips| && s < NSLOTS && !(j == i && s == t) ::
              SetAddr(m, i, t, 0).Slot(j, s) == m.Slot(j, s)
  {
    hide GetWord;
    var r, b := SetAddr(m, i, t, 0), m.ips[i].addrs[t];
    assert m.Slot(i, t) == b;
    assert r.Wf();
    forall j: nat, s: nat | j < |m.ips| && s < NSLOTS ensures r.Slot(j, s) == if j == i && s == t then 0
      else m.Slot(j, s) {
    }
    forall j: nat, s: nat | j < |r.ips| && s < NSLOTS && r.Slot(j, s) != 0 ensures r.Slot(j, s) != b {
      assert own[m.Slot(j, s)] == Owner(j, s);
    }
  }

  /** What is left of the owners when inode i loses its indirect block and all entries. */
  ghost function WithoutIndirect(own: map<nat, Owner>, i: nat): (r: map<nat, Owner>)
    ensures forall b :: b in r <==> b in own && !(own[b].inum == i && own[b].slot >= NDIRECT)
    ensures forall b | b in r :: r[b] == own[b]
  {
    map b | b in own && !(own[b].inum == i && own[b].slot >= NDIRECT) :: own[b]
  }

  /** Emptying the indirect pointer drops every entry with it. */
  lemma UnlinkIndirect(m: Image, own: map<nat, Owner>, i: nat)
    requires m.Owned(own) && i < |m.ips| && m.ips[i].addrs[NDIRECT] != 0
    ensures SetAddr(m, i, NDIRECT, 0).Wf() && SetAddr(m, i, NDIRECT, 0).Owned(WithoutIndirect(own, i))
    ensures forall j: nat, s: nat | j < |m.ips| && s < NSLOTS && j != i ::
            SetAddr(m, i, NDIRECT, 0).Slot(j, s) == m.Slot(j, s)
  {
    hide GetWord;
    var r := SetAddr(m, i, NDIRECT, 0);
    assert r.Wf();
    forall j: nat, s: nat | j < |m.ips| && s < NSLOTS
      ensures r.Slot(j, s) == if j == i && s >= NDIRECT then 0 else m.Slot(j, s)
    {
    }
    forall j: nat, s: nat | j < |r.ips| && s < NSLOTS && r.Slot(j, s) != 0
      ensures r.Slot(j, s) in WithoutIndirect(own, i) && WithoutIndirect(own, i)[r.Slot(j, s)] == Owner(j, s)
    {
      assert own[m.Slot(j, s)] == Owner(j, s);
    }
  }

  /** The e-th entry, if not empty, is owned by its slot; no other slot of the inode names the same block. */
  lemma EntryOwner(m: Image, own: map<nat, Owner>, i: nat, e: nat)
    requires m.Owned(own) && i < |m.ips| && e < NINDIRECT && m.ips[i].addrs[NDIRECT] != 0
    requires GetWord(m.bs[m.ips[i].addrs[NDIRECT]], e) != 0
    ensures var b := GetWord(m.bs[m.ips[i].addrs[NDIRECT]], e);
            && b in own && own[b] == Owner(i, NADDRS + e) && m.InData(b)
            && (forall t: nat | t < NADDRS :: m.ips[i].addrs[t] != b)
            && forall e': nat | e' < NINDIRECT && e' != e :: GetWord(m.bs[m.ips[i].addrs[NDIRECT]], e') != b
  {
    hide GetWord;
    var b := GetWord(m.bs[m.ips[i].addrs[NDIRECT]], e);
    assert m.Slot(i, NADDRS + e) == b;
    forall t: nat | t < NADDRS ensures m.ips[i].addrs[t] != b {
      assert m.Slot(i, t) == m.ips[i].addrs[t];
    }
    forall e': nat | e' < NINDIRECT && e' != e ensures GetWord(m.bs[m.ips[i].addrs[NDIRECT]], e') != b {
      assert m.Slot(i, NADDRS + e') == GetWord(m.bs[m.ips[i].addrs[NDIRECT]], e');
    }
  }

  /** An empty entry owns nothing. */
  lemma EmptyEntry(m: Image, own: map<nat, Owner>, i: nat, e: nat, b: nat)
    requires m.Owned(own) && i < |m.ips| && e < NINDIRECT && m.ips[i].addrs[NDIRECT] != 0
    requires GetWord(m.bs[m.ips[i].addrs[NDIRECT]], e) == 0 && b in own
    ensures own[b] != Owner(i, NADDRS + e)
  {
    hide GetWord;
    assert m.Slot(i, NADDRS + e) == 0;
    assert m.InData(b) && b != 0;
  }

  /** An inode without indirect block owns no entry. */
  lemma NoIndirect(m: Image, own: map<nat, Owner>, i: nat)
    requires m.Owned(own) && i < |m.ips| && m.ips[i].addrs[NDIRECT] == 0
    ensures forall b | b in own && own[b].inum == i :: own[b].slot < NDIRECT
  {
    hide GetWord;
    forall b | b in own && own[b].inum == i ensures own[b].slot < NDIRECT {
      assert m.Slot(i, own[b].slot) == b && m.InData(b);
    }
  }

  /** Without the entries and the pointer, exactly the other owners are left. */
  lemma DrainedKeys(m: Image, own: map<nat, Owner>, i: nat)
    requires m.Owned(own) && i < |m.ips| && m.ips[i].addrs[NDIRECT] != 0
    ensures forall b | b in own :: b in WithoutIndirect(own, i) <==>
              !EntryBelow(own[b], i, NINDIRECT) && b != m.ips[i].addrs[NDIRECT]
  {
    hide GetWord;
    var ind := m.ips[i].addrs[NDIRECT];
    assert m.Slot(i, NDIRECT) == ind;
    forall b | b in own
      ensures b in WithoutIndirect(own, i) <==> !EntryBelow(own[b], i, NINDIRECT) && b != ind
    {
      assert m.Slot(own[b].inum, own[b].slot) == b;
    }
  }

  lemma DirectEmpty(m: Image, own: map<nat, Owner>, i: nat, t: nat)
    requires m.Owned(own) && i < |m.ips| && t < NDIRECT && m.ips[i].addrs[t] == 0
    ensures forall b | b in own :: own[b] != Owner(i, t)
  {
    hide GetWord;
    assert m.Slot(i, t) == 0;
  }

  /** Slots and owners are unchanged when the data area is. */
  lemma SameDataOwned(m: Image, own: map<nat, Owner>, cs: seq<Block>)
    requires m.Owned(own) && |cs| == |m.bs| && forall c: nat | m.first <= c < m.last :: cs[c] == m.bs[c]
    ensures m.(bs := cs).Wf() && m.(bs := cs).Owned(own)
    ensures forall i: nat, s: nat | i < |m.ips| && s < NSLOTS :: m.(bs := cs).Slot(i, s) == m.Slot(i, s)
  {
    UnownedWrite(m, cs, own);
  }

  lemma EntryIsBlock(m: Image, own: map<nat, Owner>, i: nat, e: nat, c: nat)
    requires m.Owned(own) && i < |m.ips| && e < NINDIRECT && m.ips[i].addrs[NDIRECT] != 0
    requires c in own && own[c] == Owner(i, NADDRS + e)
    ensures c == GetWord(m.bs[m.ips[i].addrs[NDIRECT]], e)
  {
    hide GetWord;
    assert m.Slot(i, NADDRS + e) == c;
  }
}
