/** The Kernighan and Ritchie storage allocator (umalloc.c). Addresses count Header-sized
    units; the static header `base` lies below the heap that sbrk hands out. */
module Umalloc {
  import opened Wrappers

  const NULL: nat := 0
  const BASE: nat := 1
  /** sizeof(Header) */
  const UNIT: nat := 8
  const TWO32: nat := 0x1_0000_0000

  // ----- blocks: header address to size in units

  type Tiles = map<nat, nat>

  /** The blocks are non-empty, do not overlap, and together are exactly the units of `core`. */
  ghost predicate Tiling(blk: Tiles, core: set<nat>) {
    && (forall h | h in blk :: BASE < h && 0 < blk[h])
    && (forall h, k | h in blk && k in blk && h < k :: h + blk[h] <= k)
    && (forall h, u | h in blk && h <= u < h + blk[h] :: u in core)
    && (forall u | u in core :: InSome(blk, u))
  }

  /** Unit u lies in some block. */
  ghost predicate InSome(blk: Tiles, u: nat) {
    exists h :: h in blk && h <= u < h + blk[h]
  }

  ghost function Interval(a: nat, n: nat): (r: set<nat>)
    ensures forall u: nat :: u in r <==> a <= u < a + n
  {
    if n == 0 then {} else Interval(a, n - 1) + {a + n - 1}
  }

  /** A fresh region becomes one block. */
  lemma TileGrow(blk: Tiles, core: set<nat>, a: nat, n: nat)
    requires Tiling(blk, core) && 0 < n && BASE < a && forall h | h in blk :: h + blk[h] <= a
    ensures Tiling(blk[a := n], core + Interval(a, n))
  {
    var b := blk[a := n];
    forall u | u in core + Interval(a, n) ensures InSome(b, u) {
      if u in core {
        var h :| h in blk && h <= u < h + blk[h];
        assert h in b && h <= u < h + b[h];
      } else {
        assert a in b && a <= u < a + b[a];
      }
    }
  }

  ghost function MergeTiles(blk: Tiles, a: nat, b: nat): (r: Tiles)
    requires a in blk && b in blk && a < b
    ensures forall h :: h in r <==> h in blk && h != b
    ensures forall h | h in r :: r[h] == if h == a then blk[a] + blk[b] else blk[h]
  {
    (blk - {b})[a := blk[a] + blk[b]]
  }

  /** Two touching blocks become one. */
  lemma TileMerge(blk: Tiles, core: set<nat>, h: nat, k: nat)
    requires Tiling(blk, core) && h in blk && k in blk && h < k && h + blk[h] == k
    ensures Tiling(MergeTiles(blk, h, k), core)
  {
    var b := MergeTiles(blk, h, k);
    forall u | u in core ensures InSome(b, u) {
      var x :| x in blk && x <= u < x + blk[x];
      var y := if x == k then h else x;
      assert y in b && y <= u < y + b[y];
    }
    forall x, u | x in b && x <= u < x + b[x] ensures u in core {
      if x == h && u >= k {
        assert k <= u < k + blk[k];
      }
    }
  }

  ghost function SplitTiles(blk: Tiles, h: nat, n: nat): (r: Tiles)
    requires h in blk && 0 < n < blk[h]
  {
    blk[h := blk[h] - n][h + blk[h] - n := n]
  }

  lemma SplitDisjoint(blk: Tiles, core: set<nat>, h: nat, n: nat)
    requires Tiling(blk, core) && h in blk && 0 < n < blk[h]
    ensures h + blk[h] - n !in blk
    ensures forall x, y | x in SplitTiles(blk, h, n) && y in SplitTiles(blk, h, n) && x < y ::
              x + SplitTiles(blk, h, n)[x] <= y
  {
    hide InSome;
    var k := h + blk[h] - n;
    assert k !in blk;
  }

  lemma SplitCovers(blk: Tiles, core: set<nat>, h: nat, n: nat)
    requires Tiling(blk, core) && h in blk && 0 < n < blk[h]
    ensures forall u | u in core :: InSome(SplitTiles(blk, h, n), u)
  {
    var k, b := h + blk[h] - n, SplitTiles(blk, h, n);
    assert k !in blk;
    forall u | u in core ensures InSome(b, u) {
      var x :| x in blk && x <= u < x + blk[x];
      var y := if x == h && u >= k then k else x;
      assert y in b && y <= u < y + b[y];
    }
  }

  /** The upper n units of a block become a block of their own. */
  lemma TileSplit(blk: Tiles, core: set<nat>, h: nat, n: nat)
    requires Tiling(blk, core) && h in blk && 0 < n < blk[h]
    ensures Tiling(SplitTiles(blk, h, n), core)
    ensures h + blk[h] - n !in blk
  {
    SplitDisjoint(blk, core, h, n);
    SplitCovers(blk, core, h, n);
    hide InSome;
    var k, b := h + blk[h] - n, SplitTiles(blk, h, n);
    forall x, u | x in b && x <= u < x + b[x] ensures u in core {
      if x == k {
        assert h <= u < h + blk[h];
      }
    }
  }

  // ----- the free list

  /** Header fields, and ghosts: the free list in address order from `base`, all blocks, the
      live ones among them, and every unit obtained from sbrk. */
  datatype Heap = Heap(ptr: map<nat, nat>, size: map<nat, nat>,
                       fl: seq<nat>, blk: Tiles, live: set<nat>, core: set<nat>)

  /** Next element around the circle. */
  ghost function Succ(fl: seq<nat>, k: nat): (r: nat)
    requires k < |fl|
  {
    if k + 1 < |fl| then fl[k + 1] else fl[0]
  }

  ghost predicate Sorted(fl: seq<nat>) {
    0 < |fl| && fl[0] == BASE && forall i, j | 0 <= i < j < |fl| :: fl[i] < fl[j]
  }

  ghost predicate Follows(ptr: map<nat, nat>, fl: seq<nat>, k: nat)
    requires k < |fl|
  {
    fl[k] in ptr && ptr[fl[k]] == Succ(fl, k)
  }

  ghost predicate Circular(ptr: map<nat, nat>, fl: seq<nat>) {
    forall k: nat | k < |fl| :: Follows(ptr, fl, k)
  }

  /** Headers hold the sizes: 0 for base, the block size for every block. */
  ghost predicate Headers(size: map<nat, nat>, blk: Tiles) {
    BASE in size && size[BASE] == 0 && forall h | h in blk :: h in size && size[h] == blk[h]
  }

  /** A block is on the free list exactly when it is not live. */
  ghost predicate Split(fl: seq<nat>, blk: Tiles, live: set<nat>) {
    && (forall k: nat | 1 <= k < |fl| :: fl[k] in blk && fl[k] !in live)
    && (forall h | h in blk && h !in live :: h in fl)
    && (forall h | h in live :: h in blk)
  }

  /** Consecutive free blocks neither overlap nor touch, except possibly after lo..hi. */
  ghost predicate Apart(fl: seq<nat>, blk: Tiles, lo: nat, hi: nat) {
    forall k: nat | 1 <= k && k + 1 < |fl| && !(lo <= k < hi) :: Gap(fl, blk, k)
  }

  ghost predicate Gap(fl: seq<nat>, blk: Tiles, k: nat)
    requires k + 1 < |fl|
  {
    fl[k] in blk && fl[k] + blk[fl[k]] < fl[k + 1]
  }

  ghost predicate Good(s: Heap, lo: nat, hi: nat) {
    && Tiling(s.blk, s.core) && Sorted(s.fl) && Circular(s.ptr, s.fl) && Headers(s.size, s.blk)
    && Split(s.fl, s.blk, s.live) && Apart(s.fl, s.blk, lo, hi)
  }

  /** The place of a block in the list. */
  ghost predicate Between(fl: seq<nat>, k: nat, b: nat) {
    k < |fl| && fl[k] < b && (k + 1 < |fl| ==> b < fl[k + 1])
  }

  ghost function Ins(fl: seq<nat>, k: nat, b: nat): (r: seq<nat>)
    requires k < |fl|
    ensures |r| == |fl| + 1
    ensures forall j: nat | j <= k :: r[j] == fl[j]
    ensures r[k + 1] == b
    ensures forall j: nat | k + 1 < j < |r| :: r[j] == fl[j - 1]
    ensures forall x :: x in r <==> x == b || x in fl
  {
    var r := fl[..k + 1] + [b] + fl[k + 1..];
    assert fl == fl[..k + 1] + fl[k + 1..];
    r
  }

  ghost function Del(fl: seq<nat>, k: nat): (r: seq<nat>)
    requires k < |fl|
    ensures |r| == |fl| - 1
    ensures forall j: nat | j < k :: r[j] == fl[j]
    ensures forall j: nat | k <= j < |r| :: r[j] == fl[j + 1]
  {
    fl[..k] + fl[k + 1..]
  }

  lemma DelKeeps(fl: seq<nat>, k: nat)
    requires Sorted(fl) && 1 <= k < |fl|
    ensures Sorted(Del(fl, k)) && forall x :: x in Del(fl, k) <==> x in fl && x != fl[k]
  {
    var r := Del(fl, k);
    forall x | x in fl && x != fl[k] ensures x in r {
      var j :| 0 <= j < |fl| && fl[j] == x;
      assert r[if j < k then j else j - 1] == x;
    }
  }

  /** A live block put back into the list, not joined with its neighbours yet. */
  ghost function Insert(s: Heap, k: nat, b: nat): (r: Heap)
    requires Between(s.fl, k, b)
  {
    s.(ptr := s.ptr[b := Succ(s.fl, k)][s.fl[k] := b], fl := Ins(s.fl, k, b), live := s.live - {b})
  }

  lemma InsertCircular(ptr: map<nat, nat>, fl: seq<nat>, k: nat, b: nat)
    requires Sorted(fl) && Circular(ptr, fl) && Between(fl, k, b)
    ensures Sorted(Ins(fl, k, b)) && Circular(ptr[b := Succ(fl, k)][fl[k] := b], Ins(fl, k, b))
  {
    hide Ins;
    var r, q := Ins(fl, k, b), ptr[b := Succ(fl, k)][fl[k] := b];
    forall j: nat | j < |r| ensures Follows(q, r, j) {
      if j < k {
        assert Follows(ptr, fl, j);
      } else if j > k + 1 {
        assert Follows(ptr, fl, j - 1);
      }
    }
  }

  lemma InsertSplit(fl: seq<nat>, blk: Tiles, live: set<nat>, k: nat, b: nat)
    requires Split(fl, blk, live) && b in live && Between(fl, k, b)
    ensures Split(Ins(fl, k, b), blk, live - {b})
  {
    hide Ins;
  }

  lemma InsertApart(fl: seq<nat>, blk: Tiles, k: nat, b: nat)
    requires Apart(fl, blk, 0, 0) && Between(fl, k, b)
    ensures Apart(Ins(fl, k, b), blk, k, k + 2)
  {
    hide Ins;
    var r := Ins(fl, k, b);
    forall j: nat | 1 <= j && j + 1 < |r| && !(k <= j < k + 2) ensures Gap(r, blk, j) {
      assert Gap(fl, blk, if j > k then j - 1 else j);
    }
  }

  lemma InsertGood(s: Heap, k: nat, b: nat)
    requires Good(s, 0, 0) && b in s.live && Between(s.fl, k, b)
    ensures Good(Insert(s, k, b), k, k + 2)
  {
    hide Tiling, Sorted, Circular, Split, Apart, Headers, Ins;
    InsertCircular(s.ptr, s.fl, k, b);
    InsertSplit(s.fl, s.blk, s.live, k, b);
    InsertApart(s.fl, s.blk, k, b);
  }

  ghost predicate Joinable(s: Heap, k: nat) {
    && 1 <= k && k + 1 < |s.fl| && s.fl[k] < s.fl[k + 1]
    && s.fl[k + 1] in s.ptr && s.fl[k] in s.size && s.fl[k + 1] in s.size && s.fl[k] in s.blk && s.fl[k + 1] in s.blk
  }

  /** Two touching neighbours in the list become one block. */
  ghost function Join(s: Heap, k: nat): (r: Heap)
    requires Joinable(s, k)
  {
    var a, b := s.fl[k], s.fl[k + 1];
    s.(ptr := s.ptr[a := s.ptr[b]], size := s.size[a := s.size[a] + s.size[b]],
       fl := Del(s.fl, k + 1), blk := MergeTiles(s.blk, a, b))
  }

  /** Unlinking element k: its predecessor takes over its pointer. */
  lemma UnlinkCircular(ptr: map<nat, nat>, fl: seq<nat>, k: nat)
    requires Sorted(fl) && Circular(ptr, fl) && 1 <= k < |fl|
    ensures fl[k] in ptr && Circular(ptr[fl[k - 1] := ptr[fl[k]]], Del(fl, k))
  {
    hide Del;
    assert Follows(ptr, fl, k);
    var r, q := Del(fl, k), ptr[fl[k - 1] := ptr[fl[k]]];
    forall j: nat | j < |r| ensures Follows(q, r, j) {
      if j < k - 1 {
        assert Follows(ptr, fl, j);
      } else if j > k - 1 {
        assert Follows(ptr, fl, j + 1);
      } else {
        assert Follows(ptr, fl, k);
      }
    }
  }

  lemma JoinSplit(fl: seq<nat>, blk: Tiles, live: set<nat>, k: nat)
    requires Sorted(fl) && Split(fl, blk, live) && 1 <= k && k + 1 < |fl|
    ensures fl[k] in blk && fl[k + 1] in blk && fl[k] < fl[k + 1]
    ensures Split(Del(fl, k + 1), MergeTiles(blk, fl[k], fl[k + 1]), live)
  {
    SplitLive(fl, blk, live, k);
    DelKeeps(fl, k + 1);
    hide Del, MergeTiles, Sorted;
    var r, b := Del(fl, k + 1), MergeTiles(blk, fl[k], fl[k + 1]);
    forall j: nat | 1 <= j < |r| ensures r[j] in b && r[j] !in live {
      StillListed(fl, blk, live, k, j);
    }
    forall h | h in b && h !in live ensures h in r {
      assert h in fl && h != fl[k + 1];
    }
  }

  lemma StillListed(fl: seq<nat>, blk: Tiles, live: set<nat>, k: nat, j: nat)
    requires Sorted(fl) && Split(fl, blk, live) && 1 <= k && k + 1 < |fl| && 1 <= j < |fl| - 1
    requires fl[k] in blk && fl[k + 1] in blk && fl[k] < fl[k + 1]
    ensures Del(fl, k + 1)[j] in MergeTiles(blk, fl[k], fl[k + 1]) && Del(fl, k + 1)[j] !in live
  {
    hide Del, MergeTiles;
    var i := if j <= k then j else j + 1;
    assert Del(fl, k + 1)[j] == fl[i];
    assert fl[i] in blk && fl[i] !in live && fl[i] != fl[k + 1];
  }

  lemma SplitLive(fl: seq<nat>, blk: Tiles, live: set<nat>, k: nat)
    requires Sorted(fl) && Split(fl, blk, live) && 1 <= k && k + 1 < |fl|
    ensures fl[k] in blk && fl[k + 1] in blk && fl[k + 1] !in live && fl[k] < fl[k + 1]
    ensures forall h | h in live :: h in MergeTiles(blk, fl[k], fl[k + 1])
    ensures forall h | h in MergeTiles(blk, fl[k], fl[k + 1]) && h !in live :: h in fl && h != fl[k + 1]
  {
    hide MergeTiles;
  }

  lemma JoinApart(fl: seq<nat>, blk: Tiles, live: set<nat>, k: nat, lo: nat)
    requires Sorted(fl) && Split(fl, blk, live) && Apart(fl, blk, lo, k + 1) && lo <= k
    requires 1 <= k && k + 1 < |fl| && fl[k] in blk && fl[k] + blk[fl[k]] == fl[k + 1]
    ensures fl[k + 1] in blk && fl[k] < fl[k + 1]
    ensures Split(Del(fl, k + 1), MergeTiles(blk, fl[k], fl[k + 1]), live)
    ensures Apart(Del(fl, k + 1), MergeTiles(blk, fl[k], fl[k + 1]), lo, k)
  {
    JoinSplit(fl, blk, live, k);
    hide Del, MergeTiles, Split;
    var r, b := Del(fl, k + 1), MergeTiles(blk, fl[k], fl[k + 1]);
    forall j: nat | 1 <= j && j + 1 < |r| && !(lo <= j < k) ensures Gap(r, b, j) {
      if j >= k {
        assert Gap(fl, blk, j + 1);
      } else {
        assert Gap(fl, blk, j);
      }
    }
  }

  lemma JoinHeaders(size: map<nat, nat>, blk: Tiles, a: nat, b: nat)
    requires Headers(size, blk) && a in blk && b in blk && a < b && BASE !in blk
    ensures Headers(size[a := size[a] + size[b]], MergeTiles(blk, a, b))
  {
  }

  /** What the list and the headers say about a neighbour pair. */
  lemma Neighbours(s: Heap, k: nat, lo: nat, hi: nat)
    requires Good(s, lo, hi) && 1 <= k && k + 1 < |s.fl|
    ensures Joinable(s, k) && BASE !in s.blk
    ensures s.size[s.fl[k]] == s.blk[s.fl[k]] && s.size[s.fl[k + 1]] == s.blk[s.fl[k + 1]]
  {
    assert Follows(s.ptr, s.fl, k + 1);
  }

  lemma JoinGood(s: Heap, k: nat, lo: nat)
    requires Good(s, lo, k + 1) && lo <= k && 1 <= k && k + 1 < |s.fl| && s.fl[k] in s.blk
    requires s.fl[k] + s.blk[s.fl[k]] == s.fl[k + 1]
    ensures Joinable(s, k) && Good(Join(s, k), lo, k)
  {
    hide Tiling, Circular, Del, Apart, MergeTiles, Split, Sorted, Headers;
    Neighbours(s, k, lo, k + 1);
    TileMerge(s.blk, s.core, s.fl[k], s.fl[k + 1]);
    UnlinkCircular(s.ptr, s.fl, k + 1);
    DelKeeps(s.fl, k + 1);
    JoinHeaders(s.size, s.blk, s.fl[k], s.fl[k + 1]);
    JoinApart(s.fl, s.blk, s.live, k, lo);
  }

  /** Neighbours that do not touch are apart. */
  lemma CloseGap(s: Heap, lo: nat, k: nat)
    requires Good(s, lo, k + 1) && lo <= k
    requires 1 <= k && k + 1 < |s.fl| ==> s.fl[k] in s.size && s.fl[k] + s.size[s.fl[k]] != s.fl[k + 1]
    ensures Good(s, lo, k)
  {
    if 1 <= k && k + 1 < |s.fl| {
      Neighbours(s, k, lo, k + 1);
      assert s.fl[k] + s.blk[s.fl[k]] <= s.fl[k + 1];
      assert Gap(s.fl, s.blk, k);
    }
    hide Tiling, Sorted, Circular, Split, Headers;
    forall j: nat | 1 <= j && j + 1 < |s.fl| && !(lo <= j < k) ensures Gap(s.fl, s.blk, j) {
    }
  }

  lemma EmptyGap(s: Heap, k: nat)
    requires Good(s, k, k)
    ensures Good(s, 0, 0)
  {
    hide Tiling, Sorted, Circular, Split, Headers;
  }

  /** Insert, then join with the upper neighbour if they touch. */
  ghost function InsertUpper(s: Heap, k: nat, b: nat): (r: Heap)
    requires Between(s.fl, k, b) && Good(s, 0, 0) && b in s.live
  {
    InsertGood(s, k, b);
    var r := Insert(s, k, b);
    if k + 1 < |s.fl| && b + s.size[b] == s.fl[k + 1] then
      Neighbours(r, k + 1, k, k + 2);
      Join(r, k + 1)
    else r
  }

  /** What the list says about a live block and its place. */
  lemma PlaceFacts(s: Heap, k: nat, b: nat)
    requires Between(s.fl, k, b) && Good(s, 0, 0) && b in s.live
    ensures BASE < b && b in s.size && b in s.blk && s.size[b] == s.blk[b] && s.fl[k] != NULL
    ensures s.fl[k] in s.ptr && s.ptr[s.fl[k]] == Succ(s.fl, k) && s.fl[k] in s.size
    ensures k == 0 ==> s.fl[k] + s.size[s.fl[k]] != b
    ensures k + 1 < |s.fl| ==> s.fl[k + 1] in s.ptr && s.fl[k + 1] in s.size && s.fl[k] < b < s.fl[k + 1]
    ensures k + 1 == |s.fl| ==> b + s.size[b] != Succ(s.fl, k)
  {
    assert Follows(s.ptr, s.fl, k);
    assert k > 0 ==> s.fl[k] in s.blk;
    if k + 1 < |s.fl| {
      assert Follows(s.ptr, s.fl, k + 1);
      assert s.fl[k + 1] in s.blk;
    }
  }

  lemma InsertUpperGood(s: Heap, k: nat, b: nat)
    requires Between(s.fl, k, b) && Good(s, 0, 0) && b in s.live
    ensures Good(InsertUpper(s, k, b), k, k + 1)
    ensures k + 1 < |InsertUpper(s, k, b).fl| && InsertUpper(s, k, b).fl[k + 1] == b &&
            InsertUpper(s, k, b).fl[k] == s.fl[k]
  {
    hide Tiling, Sorted, Circular, Split, Headers, Apart, Ins, Del;
    PlaceFacts(s, k, b);
    InsertGood(s, k, b);
    var r := Insert(s, k, b);
    if k + 1 < |s.fl| && b + s.size[b] == s.fl[k + 1] {
      Neighbours(r, k + 1, k, k + 2);
      JoinGood(r, k + 1, k);
    } else {
      if k + 2 < |r.fl| {
        Neighbours(r, k + 1, k, k + 2);
      }
      CloseGap(r, k, k + 1);
    }
  }

  /** All of free, on values. */
  ghost function Freed(s: Heap, k: nat, b: nat): (r: Heap)
    requires Between(s.fl, k, b) && Good(s, 0, 0) && b in s.live
  {
    InsertUpperGood(s, k, b);
    var r := InsertUpper(s, k, b);
    if 1 <= k && s.fl[k] in s.size && s.fl[k] + s.size[s.fl[k]] == b then
      Neighbours(r, k, k, k + 1);
      Join(r, k)
    else r
  }

  /** The blocks that stay live keep their place and size; nothing but b is given back. */
  ghost predicate Keeps(s: Heap, r: Heap, live: set<nat>) {
    r.live == live && live <= s.live && r.core == s.core && forall h | h in live ::
      h in s.blk && h in r.blk && r.blk[h] == s.blk[h]
  }

  lemma FreedGood(s: Heap, k: nat, b: nat)
    requires Between(s.fl, k, b) && Good(s, 0, 0) && b in s.live
    ensures Good(Freed(s, k, b), 0, 0)
    ensures k < |Freed(s, k, b).fl| && Freed(s, k, b).fl[k] == s.fl[k]
    ensures Keeps(s, Freed(s, k, b), s.live - {b})
  {
    FreedKeeps(s, k, b);
    hide Tiling, Sorted, Circular, Split, Apart, Ins, Del, Headers;
    InsertUpperGood(s, k, b);
    var r := InsertUpper(s, k, b);
    FreedSizes(s, k, b);
    if 1 <= k && s.fl[k] in s.size && s.fl[k] + s.size[s.fl[k]] == b {
      Neighbours(r, k, k, k + 1);
      JoinGood(r, k, k);
      EmptyGap(Join(r, k), k);
    } else {
      if 1 <= k {
        Neighbours(r, k, k, k + 1);
      }
      CloseGap(r, k, k);
      EmptyGap(r, k);
    }
  }

  /** Joining the upper neighbour leaves the lower one's header alone. */
  lemma FreedSizes(s: Heap, k: nat, b: nat)
    requires Between(s.fl, k, b) && Good(s, 0, 0) && b in s.live
    ensures s.fl[k] in s.size && s.fl[k] in InsertUpper(s, k, b).size
    ensures InsertUpper(s, k, b).size[s.fl[k]] == s.size[s.fl[k]]
  {
    hide Tiling, Circular, Apart, Ins, Del, MergeTiles, Split;
    InsertGood(s, k, b);
    PlaceFacts(s, k, b);
    assert s.fl[k] in s.size by { ListedSize(s, k); }
    assert s.fl[k] < b;
  }

  lemma ListedSize(s: Heap, k: nat)
    requires Good(s, 0, 0) && k < |s.fl|
    ensures s.fl[k] in s.size
  {
    hide Tiling, Circular, Apart;
    assert k > 0 ==> s.fl[k] in s.blk;
  }

  lemma FreedKeeps(s: Heap, k: nat, b: nat)
    requires Between(s.fl, k, b) && Good(s, 0, 0) && b in s.live
    ensures Keeps(s, Freed(s, k, b), s.live - {b})
  {
    hide Tiling, Circular, Apart, Ins, Del, InsertUpper;
    InsertUpperGood(s, k, b);
    InsertUpperKeeps(s, k, b);
    var r := InsertUpper(s, k, b);
    if 1 <= k && s.fl[k] in s.size && s.fl[k] + s.size[s.fl[k]] == b {
      Neighbours(r, k, k, k + 1);
      JoinKeeps(s, r, k, k, k + 1, s.live - {b});
    }
  }

  lemma InsertUpperKeeps(s: Heap, k: nat, b: nat)
    requires Between(s.fl, k, b) && Good(s, 0, 0) && b in s.live
    ensures Keeps(s, InsertUpper(s, k, b), s.live - {b})
  {
    hide Tiling, Circular, Apart, Ins, Del;
    InsertGood(s, k, b);
    var r := Insert(s, k, b);
    assert Keeps(s, r, s.live - {b});
    if k + 1 < |s.fl| && b + s.size[b] == s.fl[k + 1] {
      Neighbours(r, k + 1, k, k + 2);
      JoinKeeps(s, r, k + 1, k, k + 2, s.live - {b});
    }
  }

  /** Free blocks are joined, live ones are not touched. */
  lemma JoinKeeps(s: Heap, r: Heap, k: nat, lo: nat, hi: nat, live: set<nat>)
    requires Keeps(s, r, live) && Good(r, lo, hi) && Joinable(r, k)
    ensures Keeps(s, Join(r, k), live)
  {
    hide Tiling, Circular, Apart, Del, Sorted;
  }

  lemma LiveNotListed(s: Heap, b: nat)
    requires Good(s, 0, 0) && b in s.live
    ensures BASE < b && b !in s.fl
  {
  }

  /** The header fields after the first half of free, the way free assigns them. */
  lemma UpperFields(s: Heap, k: nat, b: nat)
    requires Between(s.fl, k, b) && Good(s, 0, 0) && b in s.live
    ensures s.fl[k] in s.ptr && b in s.size
    ensures var p := s.fl[k];
            var nx := s.ptr[p];
            var up := b + s.size[b] == nx;
            && (up ==> nx in s.ptr && nx in s.size)
            && InsertUpper(s, k, b).ptr == s.ptr[b := if up then s.ptr[nx] else nx][p := b]
            && InsertUpper(s, k, b).size == if up then s.size[b := s.size[b] + s.size[nx]] else s.size
  {
    hide Tiling, Sorted, Circular, Split, Headers, Apart, Ins, Del;
    PlaceFacts(s, k, b);
    InsertGood(s, k, b);
    var r := Insert(s, k, b);
    if k + 1 < |s.fl| {
      Neighbours(r, k + 1, k, k + 2);
    }
  }

  /** The second half. */
  lemma LowerFields(s: Heap, k: nat, b: nat)
    requires Between(s.fl, k, b) && Good(s, 0, 0) && b in s.live
    ensures s.fl[k] in s.size && b in InsertUpper(s, k, b).ptr
    ensures s.fl[k] in InsertUpper(s, k, b).size && b in InsertUpper(s, k, b).size
    ensures var p, r := s.fl[k], InsertUpper(s, k, b);
            var low := p + s.size[p] == b;
            && r.size[p] == s.size[p]
            && Freed(s, k, b).ptr == (if low then r.ptr[p := r.ptr[b]] else r.ptr)
            && Freed(s, k, b).size == if low then r.size[p := r.size[p] + r.size[b]] else r.size
  {
    hide Tiling, Sorted, Circular, Split, Headers, Apart, Ins, Del;
    PlaceFacts(s, k, b);
    UpperFields(s, k, b);
    FreedSizes(s, k, b);
    InsertUpperGood(s, k, b);
    if k >= 1 {
      Neighbours(InsertUpper(s, k, b), k, k, k + 1);
    }
  }

  lemma LiveBlocks(s: Heap)
    requires Good(s, 0, 0)
    ensures forall h | h in s.live :: h in s.blk
  {
  }

  /** Blocks end below an address above all units. */
  lemma BelowBreak(blk: Tiles, core: set<nat>, a: nat)
    requires Tiling(blk, core) && forall u | u in core :: u < a
    ensures forall h | h in blk :: h + blk[h] <= a
  {
    forall h | h in blk ensures h + blk[h] <= a {
      var u := h + blk[h] - 1;
      assert u in core;
    }
  }

  /** A block of n units that is no longer live lies inside some free block. */
  lemma FreeBlockLarge(s: Heap, r: Heap, h: nat, n: nat)
    requires Good(s, 0, 0) && Good(r, 0, 0) && h in s.live && s.blk[h] == n
    requires Keeps(s, r, s.live - {h})
    ensures exists k: nat :: 1 <= k < |r.fl| && r.fl[k] in r.blk && r.blk[r.fl[k]] >= n
  {
    hide Circular, Headers, Apart;
    assert h in s.core;
    assert InSome(r.blk, h);
    var x :| x in r.blk && x <= h < x + r.blk[x];
    NotInLive(s, r, h, x, h);
    WholeInside(s, r, h, x);
    var k :| 0 <= k < |r.fl| && r.fl[k] == x;
  }

  /** The free block that holds its first unit holds all of it. */
  lemma WholeInside(s: Heap, r: Heap, h: nat, x: nat)
    requires Good(s, 0, 0) && Good(r, 0, 0) && h in s.live && h in s.blk && Keeps(s, r, s.live - {h})
    requires x in r.blk && x in r.fl && x !in r.live && x <= h < x + r.blk[x]
    ensures h + s.blk[h] <= x + r.blk[x]
  {
    hide Circular, Headers, Apart;
    var e := x + r.blk[x];
    if e < h + s.blk[h] {
      assert e in s.core;
      assert InSome(r.blk, e);
      var y :| y in r.blk && y <= e < y + r.blk[y];
      NotInLive(s, r, h, y, e);
      assert y == e;
      FreeNeverTouch(r, x, y);
    }
  }

  /** A block of r that reaches into the freed block is not live. */
  lemma NotInLive(s: Heap, r: Heap, h: nat, x: nat, u: nat)
    requires Good(s, 0, 0) && Good(r, 0, 0) && h in s.live && Keeps(s, r, s.live - {h})
    requires x in r.blk && x <= u < x + r.blk[x] && h in s.blk && h <= u < h + s.blk[h]
    ensures x !in r.live && x in r.fl
  {
    hide Circular, Headers, Apart, Sorted;
    forall y | y in r.live ensures y in r.blk && !(y <= u < y + r.blk[y]) {
      assert y in s.blk && s.blk[y] == r.blk[y] && y != h;
    }
  }

  /** Two free blocks never touch: every pair that could be joined has been. */
  lemma FreeNeverTouch(s: Heap, x: nat, y: nat)
    requires Good(s, 0, 0) && x in s.fl && y in s.fl && x in s.blk
    ensures x + s.blk[x] != y
  {
    hide Circular, Headers;
    var i :| 0 <= i < |s.fl| && s.fl[i] == x;
    var j :| 0 <= j < |s.fl| && s.fl[j] == y;
    if x < y {
      assert i < j;
      assert Gap(s.fl, s.blk, i);
      assert s.fl[i + 1] <= s.fl[j];
    }
  }

  /** malloc, exact fit: element k leaves the list and becomes live. */
  ghost function Remove(s: Heap, k: nat): (r: Heap)
    requires 1 <= k < |s.fl| && s.fl[k] in s.ptr
  {
    s.(ptr := s.ptr[s.fl[k - 1] := s.ptr[s.fl[k]]], fl := Del(s.fl, k), live := s.live + {s.fl[k]})
  }

  lemma RemoveSplit(fl: seq<nat>, blk: Tiles, live: set<nat>, k: nat)
    requires Sorted(fl) && Split(fl, blk, live) && 1 <= k < |fl|
    ensures Split(Del(fl, k), blk, live + {fl[k]})
  {
    DelKeeps(fl, k);
    hide Del;
    assert fl[k] in blk;
    var r := Del(fl, k);
    forall j: nat | 1 <= j < |r| ensures r[j] in blk && r[j] !in live + {fl[k]} {
      assert r[j] == fl[if j < k then j else j + 1];
    }
  }

  lemma RemoveApart(fl: seq<nat>, blk: Tiles, k: nat)
    requires Sorted(fl) && Apart(fl, blk, 0, 0) && 1 <= k < |fl|
    ensures Apart(Del(fl, k), blk, 0, 0)
  {
    hide Del;
    var r := Del(fl, k);
    forall j: nat | 1 <= j && j + 1 < |r| ensures Gap(r, blk, j) {
      if j < k {
        assert Gap(fl, blk, j);
      } else {
        assert Gap(fl, blk, j + 1);
      }
    }
  }

  lemma RemoveGood(s: Heap, k: nat)
    requires Good(s, 0, 0) && 1 <= k < |s.fl|
    ensures s.fl[k] in s.ptr && s.fl[k] in s.blk && Good(Remove(s, k), 0, 0)
  {
    hide Tiling, Circular, Apart, Headers, Del;
    UnlinkCircular(s.ptr, s.fl, k);
    DelKeeps(s.fl, k);
    RemoveSplit(s.fl, s.blk, s.live, k);
    RemoveApart(s.fl, s.blk, k);
  }

  /** malloc, larger block: its upper n units become a live block. */
  ghost function Carve(s: Heap, k: nat, n: nat): (r: Heap)
    requires k < |s.fl| && s.fl[k] in s.blk && 0 < n < s.blk[s.fl[k]]
  {
    var h, sz := s.fl[k], s.blk[s.fl[k]];
    s.(size := s.size[h := sz - n][h + sz - n := n], blk := s.blk[h := sz - n][h + sz - n := n],
       live := s.live + {h + sz - n})
  }

  lemma CarveLists(fl: seq<nat>, blk: Tiles, live: set<nat>, core: set<nat>, k: nat, n: nat)
    requires Tiling(blk, core) && Sorted(fl) && Split(fl, blk, live) && Apart(fl, blk, 0, 0)
    requires 1 <= k < |fl| && fl[k] in blk && 0 < n < blk[fl[k]]
    ensures var h, sz := fl[k], blk[fl[k]];
            var b := blk[h := sz - n][h + sz - n := n];
            Split(fl, b, live + {h + sz - n}) && Apart(fl, b, 0, 0)
  {
    var h, sz := fl[k], blk[fl[k]];
    var x := h + sz - n;
    TileSplit(blk, core, h, n);
    hide Tiling;
    var b := blk[h := sz - n][x := n];
    assert x !in fl by {
      forall j: nat | j < |fl| ensures fl[j] != x {
        assert j > 0 ==> fl[j] in blk;
      }
    }
    forall j: nat | 1 <= j && j + 1 < |fl| ensures Gap(fl, b, j) {
      assert Gap(fl, blk, j) && fl[j] != x;
    }
  }

  lemma CarveHeaders(size: map<nat, nat>, blk: Tiles, core: set<nat>, h: nat, n: nat)
    requires Tiling(blk, core) && Headers(size, blk) && h in blk && 0 < n < blk[h]
    ensures Headers(size[h := blk[h] - n][h + blk[h] - n := n], blk[h := blk[h] - n][h + blk[h] - n := n])
  {
  }

  lemma CarveGood(s: Heap, k: nat, n: nat)
    requires Good(s, 0, 0) && 1 <= k < |s.fl| && s.fl[k] in s.blk && 0 < n < s.blk[s.fl[k]]
    ensures Good(Carve(s, k, n), 0, 0)
    ensures s.fl[k] + s.blk[s.fl[k]] - n !in s.blk
  {
    hide Tiling, Circular, Apart, Sorted, Split;
    TileSplit(s.blk, s.core, s.fl[k], n);
    CarveLists(s.fl, s.blk, s.live, s.core, k, n);
    CarveHeaders(s.size, s.blk, s.core, s.fl[k], n);
    hide Headers;
  }

  /** morecore: a fresh region becomes a block, live until it is freed into the list. */
  ghost function Grow(s: Heap, a: nat, n: nat): (r: Heap) {
    s.(size := s.size[a := n], blk := s.blk[a := n], live := s.live + {a}, core := s.core + Interval(a, n))
  }

  lemma GrowLists(fl: seq<nat>, blk: Tiles, live: set<nat>, a: nat, n: nat)
    requires Split(fl, blk, live) && Apart(fl, blk, 0, 0) && a !in blk
    ensures Split(fl, blk[a := n], live + {a}) && Apart(fl, blk[a := n], 0, 0)
  {
    var b := blk[a := n];
    forall j: nat | 1 <= j && j + 1 < |fl| ensures Gap(fl, b, j) {
      assert Gap(fl, blk, j);
    }
  }

  lemma GrowGood(s: Heap, a: nat, n: nat)
    requires Good(s, 0, 0) && 0 < n && BASE < a && forall h | h in s.blk :: h + s.blk[h] <= a
    ensures Good(Grow(s, a, n), 0, 0) && a !in s.blk
  {
    assert a !in s.blk;
    hide Tiling, Circular, Sorted, Split, Apart, Interval;
    TileGrow(s.blk, s.core, a, n);
    GrowLists(s.fl, s.blk, s.live, a, n);
  }

  /** An element past base, and the one before it. */
  lemma TakeFacts(s: Heap, j: nat)
    requires Good(s, 0, 0) && 1 <= j < |s.fl|
    ensures s.fl[j] in s.ptr && s.fl[j] in s.blk && s.fl[j] in s.size && s.size[s.fl[j]] == s.blk[s.fl[j]]
    ensures s.fl[j] !in s.live && s.fl[j] != s.fl[j - 1] && s.fl[j - 1] != NULL && BASE < s.fl[j]
    ensures s.fl[j - 1] in Del(s.fl, j)
    ensures forall h | h in s.live :: h in s.blk
  {
    assert Follows(s.ptr, s.fl, j);
    assert Del(s.fl, j)[j - 1] == s.fl[j - 1];
  }

  /** The k-th element after element f, around the circle. */
  ghost function From(fl: seq<nat>, f: nat, k: nat): (r: nat)
    requires f < |fl| && k <= |fl|
  {
    if f + k < |fl| then fl[f + k] else fl[f + k - |fl|]
  }

  /** The last free block below b, which every block above base has. */
  ghost function Place(fl: seq<nat>, b: nat): (k: nat)
    requires Sorted(fl) && BASE < b && b !in fl
    ensures Between(fl, k, b)
  {
    PlaceUpTo(fl, b, |fl|)
  }

  ghost function PlaceUpTo(fl: seq<nat>, b: nat, n: nat): (k: nat)
    requires Sorted(fl) && BASE < b && b !in fl && 1 <= n <= |fl| && (n < |fl| ==> b < fl[n])
    ensures Between(fl, k, b)
  {
    if fl[n - 1] < b then n - 1 else PlaceUpTo(fl, b, n - 1)
  }

  /** nunits in malloc, with unsigned wrap-around. */
  function Units(nbytes: nat): (n: nat) {
    (nbytes + UNIT - 1) % TWO32 / UNIT + 1
  }

  /** The rounded size holds the request exactly when the rounding does not wrap around, and is then the least. */
  lemma UnitsLargeEnough(nbytes: nat)
    requires nbytes < TWO32
    ensures (Units(nbytes) - 1) * UNIT >= nbytes <==> nbytes <= TWO32 - UNIT
    ensures (Units(nbytes) - 2) * UNIT < nbytes
  {
  }

  /** Largest request whose size in bytes still fits sbrk's signed argument. */
  const MAXREQUEST: nat := 0x7FFF_FFF0

  /** The k-th element after f, and how malloc's loop sees it. */
  lemma FromFacts(s: Heap, f: nat, k: nat)
    requires Good(s, 0, 0) && f < |s.fl| && k <= |s.fl|
    ensures From(s.fl, f, k) in s.size
    ensures k > 0 ==> From(s.fl, f, k - 1) in s.ptr && s.ptr[From(s.fl, f, k - 1)] == From(s.fl, f, k)
    ensures k > 0 ==> (From(s.fl, f, k) == s.fl[f] <==> k == |s.fl|)
    ensures k > 0 && s.size[From(s.fl, f, k)] > 0 ==> f + k != |s.fl|
  {
    hide Tiling, Apart;
    var i := if f + k < |s.fl| then f + k else f + k - |s.fl|;
    assert i > 0 ==> s.fl[i] in s.blk;
    if k > 0 {
      assert Follows(s.ptr, s.fl, if f + k - 1 < |s.fl| then f + k - 1 else f + k - 1 - |s.fl|);
    }
  }

  /** Elements f + 1 up to f + k around the circle are too small. */
  ghost predicate TooSmall(size: map<nat, nat>, fl: seq<nat>, f: nat, k: nat, nunits: nat) {
    f < |fl| && k <= |fl| && forall x: nat | 1 <= x <= k :: From(fl, f, x) in size && size[From(fl, f, x)] < nunits
  }

  lemma TooSmallMore(size: map<nat, nat>, fl: seq<nat>, f: nat, k: nat, nunits: nat)
    requires 1 <= k <= |fl| && TooSmall(size, fl, f, k - 1, nunits)
    requires From(fl, f, k) in size && size[From(fl, f, k)] < nunits
    ensures TooSmall(size, fl, f, k, nunits)
  {
  }

  lemma FromStart(size: map<nat, nat>, fl: seq<nat>, f: nat, nunits: nat)
    requires f < |fl|
    ensures From(fl, f, 0) == fl[f] && TooSmall(size, fl, f, 0, nunits)
  {
  }

  /** A non-empty block in the loop is past base, and prevp is the element before it. */
  lemma FromIndex(s: Heap, f: nat, k: nat)
    requires Good(s, 0, 0) && f < |s.fl| && 1 <= k <= |s.fl| && From(s.fl, f, k) in s.size &&
             s.size[From(s.fl, f, k)] > 0
    ensures var j := if f + k < |s.fl| then f + k else f + k - |s.fl|;
            1 <= j < |s.fl| && s.fl[j] == From(s.fl, f, k) && s.fl[j - 1] == From(s.fl, f, k - 1)
  {
    FromFacts(s, f, k);
  }

  /** Once around without a fit: no free block is large enough. */
  lemma NothingFits(s: Heap, f: nat, nunits: nat)
    requires Good(s, 0, 0) && TooSmall(s.size, s.fl, f, |s.fl|, nunits)
    ensures forall g: nat | 1 <= g < |s.fl| :: s.fl[g] in s.blk && s.blk[s.fl[g]] < nunits
    ensures forall h | h in s.blk && h !in s.live :: s.blk[h] < nunits
  {
    hide Apart, Circular;
    forall g: nat | 1 <= g < |s.fl| ensures s.fl[g] in s.blk && s.blk[s.fl[g]] < nunits {
      var x := if g > f then g - f else g + |s.fl| - f;
      assert From(s.fl, f, x) == s.fl[g];
    }
    forall h | h in s.blk && h !in s.live ensures s.blk[h] < nunits {
      var g :| 0 <= g < |s.fl| && s.fl[g] == h;
      assert g != 0;
    }
  }

  /** Some free block has this many units. */
  ghost predicate Fitting(blk: Tiles, live: set<nat>, nunits: nat) {
    exists h :: h in blk && h !in live && blk[h] >= nunits
  }

  /** What sbrk is asked for. */
  ghost predicate Asked(before: set<nat>, after: set<nat>, brk: nat, nunits: nat) {
    after == before + Interval(brk, if nunits < 4096 then 4096 else nunits)
  }

  lemma AskedIs(before: set<nat>, after: set<nat>, brk: nat, nunits: nat)
    requires after == before + Interval(brk, if nunits < 4096 then 4096 else nunits)
    ensures Asked(before, after, brk, nunits)
  {
  }

  lemma NotFitting(blk: Tiles, live: set<nat>, nunits: nat)
    requires forall h | h in blk && h !in live :: blk[h] < nunits
    ensures !Fitting(blk, live, nunits)
  {
  }

  lemma FitsHere(s: Heap, k: nat, nunits: nat)
    requires Good(s, 0, 0) && 1 <= k < |s.fl| && s.fl[k] in s.size && s.size[s.fl[k]] >= nunits
    ensures Fitting(s.blk, s.live, nunits)
  {
    assert s.fl[k] in s.blk && s.fl[k] !in s.live;
  }

  class Allocator {
    var ptr: map<nat, nat>
    var size: map<nat, nat>
    var freep: nat
    ghost var fl: seq<nat>
    ghost var blk: Tiles
    ghost var live: set<nat>
    ghost var core: set<nat>

    ghost function Now(): (s: Heap)
      reads this
    {
      Heap(ptr, size, fl, blk, live, core)
    }

    /** Before the first malloc freep is null; afterwards it points into the free list. */
    ghost predicate Valid()
      reads this
    {
      if freep == NULL then blk == map[] && live == {} && core == {} && fl == []
      else Good(Now(), 0, 0) && freep in fl
    }

    constructor ()
      ensures Valid() && live == {} && core == {}
    {
      ptr, size, freep := map[], map[], NULL;
      fl, blk, live, core := [], map[], {}, {};
    }

    /** The search loop of free, from wherever freep is to the block's place in address order. */
    method FindPlace(bp: nat) returns (p: nat)
      requires freep != NULL && Valid() && BASE < bp && bp !in fl
      ensures Sorted(fl) && p == fl[Place(fl, bp)]
    {
      hide Tiling, Headers, Split, Apart, Place;
      ghost var k := Place(fl, bp);
      ghost var c :| 0 <= c < |fl| && fl[c] == freep;
      p := freep;
      assert Follows(ptr, fl, c);
      while !(bp > p && bp < ptr[p])
        invariant 0 <= c < |fl| && p == fl[c] && p in ptr && ptr[p] == Succ(fl, c)
        decreases if c <= k then k - c else |fl| - c + k
      {
        if p >= ptr[p] && (bp > p || bp < ptr[p]) {
          break;
        }
        assert c != k;
        p := ptr[p];
        c := if c + 1 < |fl| then c + 1 else 0;
        assert Follows(ptr, fl, c);
      }
      assert c == k;
    }

    /** free: put the block back in address order and join it with touching neighbours. */
    method Free(ap: nat)
      requires freep != NULL && Valid() && 1 <= ap && ap - 1 in live
      modifies this
      ensures freep != NULL && Valid()
      ensures Keeps(old(Now()), Now(), old(live) - {ap - 1})
    {
      hide Tiling, Sorted, Circular, Split, Headers, Apart, Ins, Del, InsertUpper, Freed, Place;
      var bp := ap - 1;
      LiveNotListed(Now(), bp);
      var p := FindPlace(bp);
      ghost var s, k := Now(), Place(fl, bp);
      PlaceFacts(s, k, bp);
      UpperFields(s, k, bp);
      LowerFields(s, k, bp);
      FreedGood(s, k, bp);
      ghost var r := Freed(s, k, bp);
      Relink(p, bp);
      assert ptr == r.ptr && size == r.size;
      freep := p;
      fl, blk, live := r.fl, r.blk, r.live;
    }

    /** The header updates of free, once the place is found. */
    method Relink(p: nat, bp: nat)
      requires p in ptr && p in size && bp in size && p != bp
      requires bp + size[bp] == ptr[p] ==> ptr[p] in ptr && ptr[p] in size && ptr[p] != p
      modifies this`ptr, this`size
      ensures var nx := old(ptr)[p];
              var up := bp + old(size)[bp] == nx;
              var q1 := old(ptr)[bp := if up then old(ptr)[nx] else nx];
              var z1 := if up then old(size)[bp := old(size)[bp] + old(size)[nx]] else old(size);
              var low := p + old(size)[p] == bp;
              && ptr == q1[p := if low then q1[bp] else bp]
              && size == if low then z1[p := z1[p] + z1[bp]] else z1
    {
      var nx := ptr[p];
      if bp + size[bp] == nx {
        size := size[bp := size[bp] + size[nx]];
        ptr := ptr[bp := ptr[nx]];
      } else {
        ptr := ptr[bp := nx];
      }
      if p + size[p] == bp {
        size := size[p := size[p] + size[bp]];
        ptr := ptr[p := ptr[bp]];
      } else {
        ptr := ptr[p := bp];
      }
    }

    /** morecore: ask for at least 4096 units and free them into the list. `brk` is what sbrk
        answers: None, or a fresh address above everything handed out so far. */
    method Morecore(nu: nat, brk: Option<nat>) returns (p: nat)
      requires freep != NULL && Valid() && 0 < nu
      requires brk.Some? ==> BASE < brk.value && forall u | u in core :: u < brk.value
      modifies this
      ensures freep != NULL && Valid() && live == old(live)
      ensures p == if brk.None? then NULL else freep
      ensures brk.None? ==> Now() == old(Now()) && freep == old(freep)
      ensures brk.Some? ==> core == old(core) + Interval(brk.value, if nu < 4096 then 4096 else nu)
      ensures forall h | h in live :: h in blk && h in old(blk) && blk[h] == old(blk)[h]
      ensures brk.Some? ==> exists k: nat :: 1 <= k < |fl| && fl[k] in blk && blk[fl[k]] >= nu
    {
      hide Sorted, Circular, Split, Headers, Apart;
      var n := if nu < 4096 then 4096 else nu;
      if brk.None? {
        LiveBlocks(Now());
        return NULL;
      }
      var hp := brk.value;
      BelowBreak(blk, core, hp);
      LiveBlocks(Now());
      GrowGood(Now(), hp, n);
      hide Tiling;
      size := size[hp := n];
      blk := blk[hp := n];
      live := live + {hp};
      core := core + Interval(hp, n);
      ghost var s := Now();
      Free(hp + 1);
      FreeBlockLarge(s, Now(), hp, n);
      p := freep;
    }

    /** The block found by malloc's loop, element j of the list, is handed out: whole if it
        fits exactly, otherwise its upper end. */
    method Take(prevp: nat, p0: nat, nunits: nat, ghost j: nat) returns (p: nat)
      requires freep != NULL && Valid() && 1 <= j < |fl| && p0 == fl[j] && prevp == fl[j - 1] && 0 < nunits
      requires p0 in size && size[p0] >= nunits
      modifies this
      ensures freep != NULL && Valid() && core == old(core)
      ensures p !in old(live) && live == old(live) + {p} && p in blk && blk[p] == nunits && BASE < p
      ensures forall h | h in old(live) :: h in blk && h in old(blk) && blk[h] == old(blk)[h]
    {
      hide Tiling, Sorted, Headers, Split, Circular, Apart, Del;
      ghost var s := Now();
      TakeFacts(s, j);
      p := p0;
      if size[p] == nunits {
        RemoveGood(s, j);
        ptr := ptr[prevp := ptr[p]];
        fl, live := Del(fl, j), live + {p};
      } else {
        CarveGood(s, j, nunits);
        size := size[p := size[p] - nunits];
        p := p + size[p];
        size := size[p := nunits];
        blk := blk[p0 := blk[p0] - nunits][p := nunits];
        live := live + {p};
      }
      freep := prevp;
    }

    /** First call of malloc: the list is base alone. */
    method Start()
      requires Valid() && freep == NULL
      modifies this
      ensures freep != NULL && Valid() && live == old(live) && blk == old(blk) && core == old(core)
    {
      ptr := ptr[BASE := BASE];
      freep := BASE;
      size := size[BASE := 0];
      fl := [BASE];
    }

    /** malloc: a block of exactly the rounded size, overlapping no live block, or 0 when
        nothing on the list fits and sbrk has no more. `brk` is what sbrk would answer. */
    method Malloc(nbytes: nat, brk: Option<nat>) returns (r: nat)
      requires Valid() && nbytes <= MAXREQUEST
      requires brk.Some? ==> BASE < brk.value && forall u | u in core :: u < brk.value
      modifies this
      ensures freep != NULL && Valid()
      ensures r == NULL ==> brk.None? && live == old(live) && core == old(core)
      ensures r == NULL ==> forall h | h in blk && h !in live :: blk[h] < Units(nbytes)
      ensures r == NULL <==> brk.None? && !Fitting(old(blk), old(live), Units(nbytes))
      ensures if Fitting(old(blk), old(live), Units(nbytes)) || brk.None? then core == old(core)
              else Asked(old(core), core, brk.value, Units(nbytes))
      ensures r != NULL ==> 1 <= r && r - 1 !in old(live) && live == old(live) + {r - 1}
      ensures r != NULL ==> r - 1 in blk && blk[r - 1] == Units(nbytes) && (blk[r - 1] - 1) * UNIT >= nbytes
      ensures r != NULL ==> (blk[r - 1] - 2) * UNIT < nbytes
      ensures core == old(core) || (brk.Some? && exists n :: core == old(core) + Interval(brk.value, n))
      ensures forall h | h in old(live) :: h in blk && h in old(blk) && blk[h] == old(blk)[h]
    {
      hide Good, Interval, Units, Fitting, Asked;
      var nunits := Units(nbytes);
      UnitsLargeEnough(nbytes);
      if freep == NULL {
        Start();
      }
      r := Search(nunits, brk);
    }

    /** The block h of every live h is what it was. */
    ghost predicate LiveKept(was: Tiles)
      reads this
    {
      forall h | h in live :: h in blk && h in was && blk[h] == was[h]
    }

    /** malloc's loop. */
    method Search(nunits: nat, brk: Option<nat>) returns (r: nat)
      requires freep != NULL && Valid() && 0 < nunits
      requires brk.Some? ==> BASE < brk.value && forall u | u in core :: u < brk.value
      modifies this
      ensures freep != NULL && Valid()
      ensures r == NULL ==> brk.None? && live == old(live) && core == old(core)
      ensures r == NULL ==> forall h | h in blk && h !in live :: blk[h] < nunits
      ensures r == NULL <==> brk.None? && !Fitting(old(blk), old(live), nunits)
      ensures if Fitting(old(blk), old(live), nunits) || brk.None? then core == old(core)
              else Asked(old(core), core, brk.value, nunits)
      ensures r != NULL ==>
                1 <= r && r - 1 !in old(live) && live == old(live) + {r - 1} && r - 1 in blk && blk[r - 1] == nunits
      ensures core == old(core) || (brk.Some? && exists n :: core == old(core) + Interval(brk.value, n))
      ensures forall h | h in old(live) :: h in blk && h in old(blk) && blk[h] == old(blk)[h]
    {
      hide Good, From, TooSmall, Interval, Allocator.LiveKept, Fitting, Asked;
      ghost var was := blk;
      ghost var f: nat := FreepAt();
      ghost var k := 1;
      LiveKeptNow();
      FromFacts(Now(), f, 1);
      FromStart(size, fl, f, nunits);
      var prevp := freep;
      var p := ptr[prevp];
      var grown := false;
      while true
        invariant freep != NULL && Valid() && live == old(live) && LiveKept(was)
        invariant f < |fl| && freep == fl[f] && 1 <= k <= |fl| && TooSmall(size, fl, f, k - 1, nunits)
        invariant prevp == From(fl, f, k - 1) && p == From(fl, f, k)
        invariant grown ==> exists g: nat :: 1 <= g < |fl| && fl[g] in blk && blk[fl[g]] >= nunits
        invariant !grown ==> core == old(core) && blk == was
        invariant grown ==> !Fitting(was, old(live), nunits) && brk.Some? && Asked(old(core), core, brk.value, nunits)
        invariant grown ==> brk.Some? && exists n :: core == old(core) + Interval(brk.value, n)
        decreases !grown, |fl| - k
      {
        FromFacts(Now(), f, k);
        if size[p] >= nunits {
          FromIndex(Now(), f, k);
          LiveKeptIs(was);
          FitsHere(Now(), if f + k < |fl| then f + k else f + k - |fl|, nunits);
          p := Take(prevp, p, nunits, if f + k < |fl| then f + k else f + k - |fl|);
          return p + 1;
        }
        TooSmallMore(size, fl, f, k, nunits);
        if p == freep {
          NothingFits(Now(), f, nunits);
          NotFitting(blk, live, nunits);
          LiveKeptIs(was);
          ghost var before := core;
          p := Morecore(nunits, brk);
          if p != NULL {
            AskedIs(before, core, brk.value, nunits);
          }
          LiveKeptAfter(was);
          if p == NULL {
            LiveKeptIs(was);
            return NULL;
          }
          grown := true;
          f := FreepAt();
          k := 0;
          FromStart(size, fl, f, nunits);
        }
        FromFacts(Now(), f, k + 1);
        prevp := p;
        p := ptr[p];
        k := k + 1;
      }
    }

    /** Where freep is in the free list. */
    lemma FreepAt() returns (f: nat)
      requires freep != NULL && Valid()
      ensures f < |fl| && fl[f] == freep
    {
      hide Good;
      f :| 0 <= f < |fl| && fl[f] == freep;
    }

    lemma LiveKeptNow()
      requires freep != NULL && Valid()
      ensures LiveKept(blk)
    {
      LiveBlocks(Now());
    }

    lemma LiveKeptIs(was: Tiles)
      requires LiveKept(was)
      ensures forall h | h in live :: h in blk && h in was && blk[h] == was[h]
    {
    }

    lemma LiveKeptAfter(was: Tiles)
      requires forall h | h in live :: h in blk && h in was && blk[h] == was[h]
      ensures LiveKept(was)
    {
    }
  }
}
