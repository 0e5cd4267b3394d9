/** Path names (fs.c): namex as a walk over the '/'-separated elements of a path. */
module Paths {

  import opened Icache
  import opened Wrappers

  const ROOTDEV: nat := 1
  const ROOTINO: nat := 1

  // ----- the elements of a path

  /** The parts between slashes, empty ones included. */
  function Split(s: seq<char>): (parts: seq<seq<char>>) {
    if s == [] then [[]]
    else
      var rest := Split(s[1..]);
      if s[0] == '/' then [[]] + rest
      else if rest == [] then [[s[0]]]
      else [[s[0]] + rest[0]] + rest[1..]
  }

  function NonEmpty(parts: seq<seq<char>>): (r: seq<seq<char>>) {
    if parts == [] then [] else (if parts[0] == [] then [] else [parts[0]]) + NonEmpty(parts[1..])
  }

  /** Names are cut to DIRSIZ bytes. */
  function Cut(s: seq<char>): (r: seq<char>)
    ensures r <= s && (|s| <= DIRSIZ ==> r == s) && (|s| > DIRSIZ ==> |r| == DIRSIZ)
  {
    if |s| > DIRSIZ then s[..DIRSIZ] else s
  }

  function CutAll(parts: seq<seq<char>>): (r: seq<seq<char>>)
    ensures |r| == |parts| && forall i | 0 <= i < |r| :: r[i] == Cut(parts[i])
  {
    if parts == [] then [] else [Cut(parts[0])] + CutAll(parts[1..])
  }

  /** The elements of a path. */
  function Elements(path: seq<char>): (r: seq<seq<char>>) {
    CutAll(NonEmpty(Split(path)))
  }

  lemma LeadingSlash(s: seq<char>)
    requires s != [] && s[0] == '/'
    ensures Elements(s) == Elements(s[1..])
  {
    var rest := Split(s[1..]);
    assert Split(s)[1..] == rest;
    assert NonEmpty(Split(s)) == [] + NonEmpty(rest);
  }

  /** No slash in the first e characters. */
  lemma {:induction false} SplitAt(s: seq<char>, e: nat)
    requires e <= |s| && (forall i | 0 <= i < e :: s[i] != '/') && (e < |s| ==> s[e] == '/')
    ensures Split(s) == [s[..e]] + if e < |s| then Split(s[e + 1..]) else []
    decreases e
  {
    if e > 0 {
      SplitAt(s[1..], e - 1);
      assert s[1..][..e - 1] == s[1..e];
      assert [s[0]] + s[1..e] == s[..e];
      if e < |s| {
        assert s[1..][e..] == s[e + 1..];
      }
    }
  }

  /** The first element, when the path starts with one. */
  lemma FirstElement(s: seq<char>, e: nat)
    requires 0 < e <= |s| && (forall i | 0 <= i < e :: s[i] != '/') && (e < |s| ==> s[e] == '/')
    ensures Elements(s) == [Cut(s[..e])] + Elements(s[e..])
  {
    SplitAt(s, e);
    if e < |s| {
      var tail := Split(s[e + 1..]);
      assert Split(s)[1..] == tail;
      LeadingSlash(s[e..]);
      assert s[e..][1..] == s[e + 1..];
      assert NonEmpty(Split(s)) == [s[..e]] + NonEmpty(tail);
      CutCons(s[..e], NonEmpty(tail));
    } else {
      assert s[e..] == [] && s[..e] == s;
      assert NonEmpty(Split(s)) == [s] + NonEmpty([]);
      CutCons(s, []);
      assert Split(s[e..]) == [[]] && NonEmpty([[]]) == [] + NonEmpty([]);
    }
  }

  lemma CutCons(x: seq<char>, xs: seq<seq<char>>)
    ensures CutAll([x] + xs) == [Cut(x)] + CutAll(xs)
  {
    assert ([x] + xs)[1..] == xs;
  }

  lemma NoElements()
    ensures Elements([]) == []
  {
    assert NonEmpty([[]]) == [] + NonEmpty([]);
  }

  /** s[b..e] is the first run of characters other than '/'. */
  ghost predicate RunAt(s: seq<char>, b: nat, e: nat) {
    && b < e <= |s| && (forall i: nat | i < b :: s[i] == '/')
    && (forall i: nat | b <= i < e :: s[i] != '/') && (e < |s| ==> s[e] == '/')
  }

  /** The path is made of these elements: its runs between slashes, each cut to DIRSIZ. */
  ghost predicate Consists(s: seq<char>, es: seq<seq<char>>)
    decreases |es|
  {
    if es == [] then forall i: nat | i < |s| :: s[i] == '/'
    else exists b: nat, e: nat ::
      b < e <= |s| && RunAt(s, b, e) && es[0] == Cut(s[b..e]) && Consists(s[e..], es[1..])
  }

  lemma ConsistsAt(s: seq<char>, b: nat, e: nat, es: seq<seq<char>>)
    requires b < e <= |s| && RunAt(s, b, e) && es != [] && es[0] == Cut(s[b..e]) && Consists(s[e..], es[1..])
    ensures Consists(s, es)
  {
    hide RunAt, Cut;
  }

  lemma ConsistsBy(s: seq<char>, es: seq<seq<char>>) returns (b: nat, e: nat)
    requires es != [] && Consists(s, es)
    ensures b < e <= |s| && RunAt(s, b, e) && es[0] == Cut(s[b..e]) && Consists(s[e..], es[1..])
  {
    hide RunAt, Cut;
    b, e :| b < e <= |s| && RunAt(s, b, e) && es[0] == Cut(s[b..e]) && Consists(s[e..], es[1..]);
  }

  lemma RunUnique(s: seq<char>, b: nat, e: nat, c: nat, f: nat)
    requires RunAt(s, b, e) && RunAt(s, c, f)
    ensures b == c && e == f
  {
    assert s[b] != '/' && s[c] != '/';
    assert (e < |s| ==> s[e] == '/') && (f < |s| ==> s[f] == '/');
  }

  lemma FirstRun(s: seq<char>) returns (e: nat)
    requires s != [] && s[0] != '/'
    ensures RunAt(s, 0, e)
  {
    e := 1;
    while e < |s| && s[e] != '/'
      invariant 0 < e <= |s| && forall i: nat | i < e :: s[i] != '/'
    {
      e := e + 1;
    }
  }

  lemma RunShift(s: seq<char>, b: nat, e: nat)
    requires s != [] && s[0] == '/'
    ensures RunAt(s[1..], b, e) <==> RunAt(s, b + 1, e + 1)
  {
    var t := s[1..];
    assert forall i: nat | i < |t| :: t[i] == s[i + 1];
    if RunAt(t, b, e) {
      forall i: nat | i < b + 1 ensures s[i] == '/' {
        assert i > 0 ==> s[i] == t[i - 1];
      }
      forall i: nat | b + 1 <= i < e + 1 ensures s[i] != '/' {
        assert s[i] == t[i - 1];
      }
    }
  }

  lemma SliceShift(s: seq<char>, b: nat, e: nat)
    requires b <= e < |s|
    ensures s[1..][b..e] == s[b + 1..e + 1] && s[1..][e..] == s[e + 1..]
  {
    assert |s[1..][b..e]| == |s[b + 1..e + 1]|;
    assert forall i: nat | i < e - b :: s[1..][b..e][i] == s[b + 1..e + 1][i];
  }

  lemma ConsistsSlash(s: seq<char>, es: seq<seq<char>>)
    requires s != [] && s[0] == '/'
    ensures Consists(s, es) <==> Consists(s[1..], es)
  {
    hide RunAt, Cut, Consists;
    var t := s[1..];
    if es == [] {
      SlashesMore(s);
    } else {
      if Consists(s, es) {
        var b, e := ConsistsBy(s, es);
        RunBounds(s, b, e);
        RunShift(s, b - 1, e - 1);
        SliceShift(s, b - 1, e - 1);
        ConsistsAt(t, b - 1, e - 1, es);
      }
      if Consists(t, es) {
        var b, e := ConsistsBy(t, es);
        RunShift(s, b, e);
        SliceShift(s, b, e);
        ConsistsAt(s, b + 1, e + 1, es);
      }
    }
  }

  lemma SlashesMore(s: seq<char>)
    requires s != [] && s[0] == '/'
    ensures Consists(s, []) <==> Consists(s[1..], [])
  {
    var t := s[1..];
    if Consists(t, []) {
      assert forall i: nat | 0 < i < |s| :: s[i] == t[i - 1];
    }
    if Consists(s, []) {
      assert forall i: nat | i < |t| :: t[i] == s[i + 1];
    }
  }

  lemma RunBounds(s: seq<char>, b: nat, e: nat)
    requires RunAt(s, b, e)
    ensures b < e <= |s| && s[b] != '/'
  {
  }

  /** A path has exactly the elements it is made of. */
  lemma {:induction false} ElementsIff(s: seq<char>, es: seq<seq<char>>)
    ensures Elements(s) == es <==> Consists(s, es)
    decreases |s|
  {
    hide Elements, Consists, RunAt, Cut;
    if s == [] {
      NoElements();
      ConsistsNone(es);
    } else if s[0] == '/' {
      LeadingSlash(s);
      ElementsIff(s[1..], es);
      ConsistsSlash(s, es);
    } else {
      var e := FirstRun(s);
      RunBounds(s, 0, e);
      RunStart(s, e);
      FirstElement(s, e);
      var rest := Elements(s[e..]);
      if es == [] {
        ConsistsSome(s);
      } else {
        ElementsIff(s[e..], es[1..]);
        ConsistsFirst(s, e, es);
        assert es == [es[0]] + es[1..];
        assert ([Cut(s[..e])] + rest)[1..] == rest;
      }
    }
  }

  lemma ConsistsNone(es: seq<seq<char>>)
    ensures Consists([], es) <==> es == []
  {
  }

  lemma ConsistsSome(s: seq<char>)
    requires s != [] && s[0] != '/'
    ensures !Consists(s, [])
  {
  }

  lemma RunStart(s: seq<char>, e: nat)
    requires RunAt(s, 0, e)
    ensures (forall i | 0 <= i < e :: s[i] != '/') && (e < |s| ==> s[e] == '/')
  {
  }

  lemma ConsistsFirst(s: seq<char>, e: nat, es: seq<seq<char>>)
    requires e <= |s| && RunAt(s, 0, e) && es != []
    ensures Consists(s, es) <==> es[0] == Cut(s[..e]) && Consists(s[e..], es[1..])
  {
    hide RunAt, Cut, Consists;
    RunBounds(s, 0, e);
    assert s[0..e] == s[..e];
    if Consists(s, es) {
      var c, f := ConsistsBy(s, es);
      RunUnique(s, 0, e, c, f);
    }
    if es[0] == Cut(s[..e]) && Consists(s[e..], es[1..]) {
      ConsistsAt(s, 0, e, es);
    }
  }

  /** The path to a chain of names from the root. */
  ghost function Joined(es: seq<seq<char>>): (s: seq<char>) {
    if es == [] then [] else ['/'] + es[0] + Joined(es[1..])
  }

  lemma JoinedFirst(x: seq<char>, es: seq<seq<char>>)
    requires '/' !in x
    ensures var s := x + Joined(es);
            && s[..|x|] == x && s[|x|..] == Joined(es) && (forall i | 0 <= i < |x| :: s[i] != '/')
            && (|x| < |s| ==> s[|x|] == '/')
  {
  }

  /** Writing a path out of names and taking it apart again gives the names. */
  lemma {:induction false} ElementsJoined(es: seq<seq<char>>)
    requires forall e | e in es :: e != [] && '/' !in e && |e| <= DIRSIZ
    ensures Elements(Joined(es)) == es
  {
    hide Elements, Cut;
    if es == [] {
      NoElements();
    } else {
      var x, rest := es[0], Joined(es[1..]);
      ElementsJoined(es[1..]);
      LeadingSlash(Joined(es));
      assert Joined(es)[1..] == x + rest;
      JoinedFirst(x, es[1..]);
      FirstElement(x + rest, |x|);
      assert es == [x] + es[1..];
    }
  }

  // ----- names

  /** The characters before the first NUL. */
  function Trim(s: seq<char>): (r: seq<char>) {
    if s == [] || s[0] == '\0' then [] else [s[0]] + Trim(s[1..])
  }

  lemma {:induction false} TrimAt(s: seq<char>, n: nat)
    requires n <= |s| && (forall i | 0 <= i < n :: s[i] != '\0') && (n < |s| ==> s[n] == '\0')
    ensures Trim(s) == s[..n]
    decreases n
  {
    if n > 0 {
      TrimAt(s[1..], n - 1);
      assert s[..n] == [s[0]] + s[1..][..n - 1];
    }
  }

  /** strncmp(s, t, DIRSIZ) == 0 */
  method NameEq(s: seq<char>, t: seq<char>) returns (b: bool)
    requires |s| == DIRSIZ && |t| == DIRSIZ
    ensures b <==> Trim(s) == Trim(t)
  {
    var i := 0;
    while i < DIRSIZ && s[i] != '\0' && s[i] == t[i]
      invariant i <= DIRSIZ && (forall j | 0 <= j < i :: s[j] != '\0' && s[j] == t[j])
    {
      i := i + 1;
    }
    if i == DIRSIZ {
      assert s == t;
      return true;
    }
    b := s[i] == t[i];
    Prefix(s, t, i);
  }

  lemma {:induction false} Prefix(s: seq<char>, t: seq<char>, i: nat)
    requires |s| == |t| && i < |s| && (forall j | 0 <= j < i :: s[j] != '\0' && s[j] == t[j]) &&
             (s[i] == '\0' || s[i] != t[i])
    ensures Trim(s) == Trim(t) <==> s[i] == t[i]
    decreases i
  {
    if i > 0 {
      Prefix(s[1..], t[1..], i - 1);
      assert Trim(s) == [s[0]] + Trim(s[1..]) && Trim(t) == [t[0]] + Trim(t[1..]);
      if Trim(s) == Trim(t) {
        assert Trim(s)[1..] == Trim(s[1..]) && Trim(t)[1..] == Trim(t[1..]);
      }
    } else if s[0] != t[0] && t[0] != '\0' && s[0] != '\0' {
      assert Trim(s)[0] == s[0] && Trim(t)[0] == t[0];
    }
  }

  /** skipelem, from position pos of the path: the next element goes to `name`. */
  method SkipElem(path: seq<char>, pos: nat, name: array<char>) returns (found: bool, next: nat)
    requires pos <= |path| && name.Length == DIRSIZ && forall c | c in path :: c != '\0'
    modifies name
    ensures next <= |path| && (found <==> Elements(path[pos..]) != [])
    ensures found ==> Elements(path[pos..]) == [Trim(name[..])] + Elements(path[next..])
    ensures found ==> (next == |path| <==> Elements(path[next..]) == [])
  {
    hide Elements, Trim, Cut;
    NoElements();
    next := SkipSlashes(path, pos);
    if next == |path| {
      found := false;
      assert path[next..] == [];
      return;
    }
    found := true;
    var s := next;
    next := ScanElem(path, s);
    FirstElement(path[s..], next - s);
    var elem := path[s..next];
    assert path[s..][..next - s] == elem && path[s..][next - s..] == path[next..];
    assert forall c | c in elem :: c in path;
    CopyName(elem, name);
    next := SkipSlashes(path, next);
    if next < |path| {
      StartsElement(path[next..]);
    } else {
      assert path[next..] == [];
    }
  }

  method ScanElem(path: seq<char>, s: nat) returns (e: nat)
    requires s < |path| && path[s] != '/'
    ensures s < e <= |path| && (forall i | 0 <= i < e - s :: path[s..][i] != '/') &&
            (e < |path| ==> path[s..][e - s] == '/')
  {
    e := s;
    while e < |path| && path[e] != '/'
      invariant s <= e <= |path| && forall i | s <= i < e :: path[i] != '/'
    {
      e := e + 1;
    }
  }

  /** A path that starts with an element has one. */
  lemma StartsElement(s: seq<char>)
    requires s != [] && s[0] != '/'
    ensures Elements(s) != []
  {
    var e := FirstRun(s);
    FirstElement(s, e);
  }

  method SkipSlashes(path: seq<char>, pos: nat) returns (next: nat)
    requires pos <= |path|
    ensures pos <= next <= |path| && Elements(path[pos..]) == Elements(path[next..]) &&
            (next < |path| ==> path[next] != '/')
  {
    hide Elements;
    next := pos;
    while next < |path| && path[next] == '/'
      invariant pos <= next <= |path| && Elements(path[pos..]) == Elements(path[next..])
    {
      LeadingSlash(path[next..]);
      assert path[next..][1..] == path[next + 1..];
      next := next + 1;
    }
  }

  /** skipelem's copy: at most DIRSIZ bytes, ended by a NUL if there is room; what the buffer held
      beyond that stays. */
  method CopyName(elem: seq<char>, name: array<char>)
    requires name.Length == DIRSIZ && forall c | c in elem :: c != '\0'
    modifies name
    ensures Trim(name[..]) == Cut(elem)
  {
    var n := if |elem| >= DIRSIZ then DIRSIZ else |elem|;
    var i := 0;
    while i < n
      invariant i <= n && forall j | 0 <= j < i :: name[j] == elem[j]
    {
      name[i] := elem[i];
      i := i + 1;
    }
    if |elem| < DIRSIZ {
      name[n] := '\0';
    }
    forall j | 0 <= j < n ensures name[j] != '\0' {
      assert elem[j] in elem;
    }
    TrimAt(name[..], n);
    assert name[..][..n] == Cut(elem);
  }

  // ----- looking names up

  /** The first entry in use with this name. */
  function Find(entries: seq<Dirent>, name: seq<char>): (r: Option<nat>) {
    if entries == [] then None
    else if entries[0].inum != 0 && Trim(entries[0].name) == name then Some(entries[0].inum)
    else Find(entries[1..], name)
  }

  /** An entry in use with this name. */
  ghost predicate Names(e: Dirent, name: seq<char>) {
    e.inum != 0 && Trim(e.name) == name
  }

  /** Entry i is the first with this name. */
  ghost predicate FirstNamed(entries: seq<Dirent>, name: seq<char>, i: nat) {
    i < |entries| && Names(entries[i], name) && forall j: nat | j < i :: !Names(entries[j], name)
  }

  /** What Find finds: the first entry with the name, and nothing exactly if there is none. */
  lemma {:induction false} FindFirst(entries: seq<Dirent>, name: seq<char>) returns (i: nat)
    ensures match Find(entries, name)
            case None => forall j: nat | j < |entries| :: !Names(entries[j], name)
            case Some(inum) => FirstNamed(entries, name, i) && inum == entries[i].inum
    decreases |entries|
  {
    i := 0;
    if entries != [] && !Names(entries[0], name) {
      i := FindFirst(entries[1..], name);
      assert forall j: nat | 0 < j < |entries| :: entries[j] == entries[1..][j - 1];
      i := i + 1;
    }
  }

  /** Follow the elements from inode k; every inode with something below it must be a directory. */
  ghost function Walk(disk: Disk, k: Key, es: seq<seq<char>>): (r: Option<Key>)
    decreases |es|
  {
    if es == [] then Some(k)
    else if k !in disk || disk[k].typ != T_DIR then None
    else match Find(disk[k].entries, es[0])
      case None => None
      case Some(inum) => Walk(disk, (k.0, inum), es[1..])
  }

  /** What namex finds: the inode of the whole path, or the directory that its last element is in. */
  ghost function Target(disk: Disk, k: Key, es: seq<seq<char>>, parent: bool): (r: Option<Key>) {
    if !parent then Walk(disk, k, es)
    else if es == [] then None
    else match Walk(disk, k, es[..|es| - 1])
      case None => None
      case Some(d) => if d in disk && disk[d].typ == T_DIR then Some(d) else None
  }

  /** Inodes from k on, each a directory whose first entry with the next name is the next inode. */
  ghost predicate Leads(disk: Disk, ks: seq<Key>, es: seq<seq<char>>) {
    |ks| == |es| + 1 && forall n: nat | n < |es| :: Below(disk, ks[n], es[n], ks[n + 1])
  }

  /** x is what directory k has under this name. */
  ghost predicate Below(disk: Disk, k: Key, name: seq<char>, x: Key) {
    && k in disk && disk[k].typ == T_DIR && x.0 == k.0
    && exists i: nat :: FirstNamed(disk[k].entries, name, i) && x.1 == disk[k].entries[i].inum
  }

  lemma BelowFind(disk: Disk, k: Key, name: seq<char>, x: Key)
    ensures Below(disk, k, name, x) <==>
              k in disk && disk[k].typ == T_DIR && x.0 == k.0 && Find(disk[k].entries, name) == Some(x.1)
  {
    if k in disk {
      var i := FindFirst(disk[k].entries, name);
    }
  }

  /** A path leads to x exactly if there are directories on the way to it, each with the next name. */
  lemma {:induction false} WalkIff(disk: Disk, k: Key, es: seq<seq<char>>, x: Key)
    ensures Walk(disk, k, es) == Some(x) <==> exists ks :: Leads(disk, ks, es) && ks[0] == k && ks[|es|] == x
    decreases |es|
  {
    hide Below;
    if es == [] {
      assert Walk(disk, k, es) == Some(x) ==> Leads(disk, [k], es) && [k][0] == k && [k][|es|] == x;
    } else {
      if Walk(disk, k, es) == Some(x) {
        var y := (k.0, Find(disk[k].entries, es[0]).value);
        BelowFind(disk, k, es[0], y);
        WalkIff(disk, y, es[1..], x);
        var ks :| Leads(disk, ks, es[1..]) && ks[0] == y && ks[|es[1..]|] == x;
        LeadsCons(disk, k, ks, es);
      }
      if ks :| Leads(disk, ks, es) && ks[0] == k && ks[|es|] == x {
        assert Below(disk, ks[0], es[0], ks[1]);
        BelowFind(disk, k, es[0], ks[1]);
        LeadsRest(disk, ks, es);
        WalkIff(disk, ks[1], es[1..], x);
        assert ks[1..][0] == ks[1] && ks[1..][|es[1..]|] == x;
      }
    }
  }

  lemma LeadsCons(disk: Disk, k: Key, ks: seq<Key>, es: seq<seq<char>>)
    requires es != [] && Leads(disk, ks, es[1..]) && Below(disk, k, es[0], ks[0])
    ensures Leads(disk, [k] + ks, es) && ([k] + ks)[0] == k && ([k] + ks)[|es|] == ks[|es| - 1]
  {
    hide Below;
    forall n: nat | n < |es| ensures Below(disk, ([k] + ks)[n], es[n], ([k] + ks)[n + 1]) {
      assert n > 0 ==> es[n] == es[1..][n - 1] && Below(disk, ks[n - 1], es[1..][n - 1], ks[n]);
    }
  }

  lemma LeadsRest(disk: Disk, ks: seq<Key>, es: seq<seq<char>>)
    requires es != [] && Leads(disk, ks, es)
    ensures Leads(disk, ks[1..], es[1..])
  {
    hide Below;
    forall n: nat | n < |es[1..]| ensures Below(disk, ks[1..][n], es[1..][n], ks[1..][n + 1]) {
      assert Below(disk, ks[n + 1], es[n + 1], ks[n + 2]);
    }
  }

  /** The inode of a path is what its parent directory has under the last name. */
  lemma ParentHolds(disk: Disk, k: Key, es: seq<seq<char>>, x: Key)
    requires es != []
    ensures Target(disk, k, es, false) == Some(x) <==>
              exists d: Key :: Target(disk, k, es, true) == Some(d) && Below(disk, d, es[|es| - 1], x)
  {
    var n := |es| - 1;
    WalkJoin(disk, k, es[..n], es[n..]);
    assert es[..n] + es[n..] == es;
    var r := Walk(disk, k, es[..n]);
    if r.Some? {
      BelowFind(disk, r.value, es[n], x);
      assert es[n..][0] == es[n] && es[n..][1..] == [];
    }
  }

  lemma {:induction false} WalkJoin(disk: Disk, k: Key, a: seq<seq<char>>, b: seq<seq<char>>)
    ensures Walk(disk, k, a + b) == match Walk(disk, k, a)
                                    case None => None
                                    case Some(d) => Walk(disk, d, b)
    decreases |a|
  {
    if a == [] {
      assert a + b == b;
    } else {
      assert (a + b)[0] == a[0] && (a + b)[1..] == a[1..] + b;
      if k in disk && disk[k].typ == T_DIR {
        var r := Find(disk[k].entries, a[0]);
        if r.Some? {
          WalkJoin(disk, (k.0, r.value), a[1..], b);
        }
      }
    }
  }

  lemma TargetStep(disk: Disk, k: Key, es: seq<seq<char>>, parent: bool)
    requires es != [] && k in disk
    ensures disk[k].typ != T_DIR ==> Target(disk, k, es, parent) == None
    ensures disk[k].typ == T_DIR && parent && |es| == 1 ==> Target(disk, k, es, parent) == Some(k)
    ensures disk[k].typ == T_DIR && !(parent && |es| == 1) ==>
              Target(disk, k, es, parent) == match Find(disk[k].entries, es[0])
                                             case None => None
                                             case Some(inum) => Target(disk, (k.0, inum), es[1..], parent)
  {
    if parent && |es| > 1 {
      assert es[..|es| - 1][1..] == es[1..][..|es| - 2];
    }
  }

  /** Inode k exists and is not freed when the walk lets go of it: it has links, or somebody holds it. */
  ghost predicate Lasting(disk: Disk, ss: seq<Inode>, k: Key) {
    k in disk && (disk[k].nlink > 0 || Refs(ss, k) > 0)
  }

  /** So do the start and all inodes on the way that have something below them. */
  ghost predicate WayLasts(disk: Disk, ss: seq<Inode>, k: Key, es: seq<seq<char>>) {
    && Lasting(disk, ss, k)
    && forall n: nat | n < |es| && Walk(disk, k, es[..n]).Some? :: Lasting(disk, ss, Walk(disk, k, es[..n]).value)
  }

  lemma OnDisk(disk: Disk, ss: seq<Inode>, k: Key)
    requires Lasting(disk, ss, k)
    ensures k in disk
  {
  }

  /** Every entry in use names an inode with links. */
  ghost predicate Linked(disk: Disk) {
    forall k: Key, i | k in disk && disk[k].typ == T_DIR && 0 <= i < |disk[k].entries| ::
      disk[k].entries[i].inum != 0 ==> HasLinks(disk, (k.0, disk[k].entries[i].inum))
  }

  ghost predicate HasLinks(disk: Disk, k: Key) {
    k in disk && disk[k].nlink > 0
  }

  lemma {:induction false} FindLinked(disk: Disk, k: Key, entries: seq<Dirent>, name: seq<char>)
    requires forall i | 0 <= i < |entries| :: entries[i].inum != 0 ==> HasLinks(disk, (k.0, entries[i].inum))
    ensures var r := Find(entries, name); r.Some? ==> HasLinks(disk, (k.0, r.value))
    decreases |entries|
  {
    if entries != [] {
      FindLinked(disk, k, entries[1..], name);
    }
  }

  lemma {:induction false} WalkLinked(disk: Disk, k: Key, es: seq<seq<char>>)
    requires Linked(disk) && HasLinks(disk, k)
    ensures var r := Walk(disk, k, es); r.Some? ==> HasLinks(disk, r.value)
    decreases |es|
  {
    if es != [] && disk[k].typ == T_DIR {
      FindLinked(disk, k, disk[k].entries, es[0]);
      var r := Find(disk[k].entries, es[0]);
      if r.Some? {
        WalkLinked(disk, (k.0, r.value), es[1..]);
      }
    }
  }

  /** On a disk where every entry names an inode with links, every way from such an inode lasts. */
  lemma LinkedLasts(disk: Disk, ss: seq<Inode>, k: Key, es: seq<seq<char>>)
    requires Linked(disk) && HasLinks(disk, k)
    ensures WayLasts(disk, ss, k, es)
  {
    forall n: nat | n < |es| && Walk(disk, k, es[..n]).Some? ensures Lasting(disk, ss, Walk(disk, k, es[..n]).value) {
      WalkLinked(disk, k, es[..n]);
    }
  }

  /** A name padded with NULs. */
  function Padded(s: seq<char>): (r: Name)
    requires |s| <= DIRSIZ
  {
    s + seq(DIRSIZ - |s|, _ => '\0')
  }

  /** The disk that mkfs starts from: a root directory with "." and "..". */
  function RootDisk(): (disk: Disk) {
    map[(ROOTDEV, ROOTINO) := Dinode(T_DIR, 1, [Dirent(ROOTINO, Padded(".")), Dirent(ROOTINO, Padded(".."))])]
  }

  lemma RootLasts(ss: seq<Inode>, es: seq<seq<char>>)
    ensures WayLasts(RootDisk(), ss, (ROOTDEV, ROOTINO), es)
  {
    assert Linked(RootDisk());
    LinkedLasts(RootDisk(), ss, (ROOTDEV, ROOTINO), es);
  }

  /** A slot of the cache, nothing, the panic of a full cache, asleep on the lock of an inode, or the panic
      of ilock at an inode without type. */
  datatype Outcome = Got(i: nat) | Nothing | Panicked | Waits(i: nat) | Typeless(i: nat)

  /** Every slot of the cache is in use. */
  ghost predicate InUse(ss: seq<Inode>) {
    forall j | 0 <= j < |ss| :: ss[j].refs > 0
  }

  /** dirlookup of a locked directory. */
  method DirLookup(c: Cache, dp: nat, name: seq<char>) returns (r: Outcome)
    requires c.Valid() && dp < NINODE && c.slots[dp].refs > 0 && KeyOf(c.slots[dp]) in c.disk && |name| == DIRSIZ
    modifies c.slots
    ensures c.Valid() && !r.Waits? && !r.Typeless?
    ensures r.Panicked? ==> InUse(c.slots[..])
    ensures r.Nothing? ==> forall i: nat | i < |c.disk[old(KeyOf(c.slots[dp]))].entries| ::
              !Names(c.disk[old(KeyOf(c.slots[dp]))].entries[i], Trim(name))
    ensures r.Got? ==> r.i < NINODE && exists i: nat ::
              && FirstNamed(c.disk[old(KeyOf(c.slots[dp]))].entries, Trim(name), i)
              && KeyOf(c.slots[r.i]) == (old(c.slots[dp]).dev, c.disk[old(KeyOf(c.slots[dp]))].entries[i].inum)
    ensures r.Nothing? ==>
              Find(c.disk[old(KeyOf(c.slots[dp]))].entries, Trim(name)) == None && c.slots[..] == old(c.slots[..])
    ensures r.Got? ==>
              && r.i < NINODE && c.slots[r.i].refs > 0 && KeyOf(c.slots[r.i]).0 == old(c.slots[dp]).dev
              && Find(c.disk[old(KeyOf(c.slots[dp]))].entries, Trim(name)) == Some(KeyOf(c.slots[r.i]).1)
              && Moved(old(c.slots[..]), c.slots[..], KeyOf(c.slots[r.i]), 1)
              && (forall j: nat | j < NINODE && j != r.i :: c.slots[j] == old(c.slots[j]))
              && (if old(c.slots[r.i].refs) == 0 then !c.slots[r.i].busy
                  else c.slots[r.i] == old(c.slots[r.i]).(refs := old(c.slots[r.i].refs) + 1))
  {
    var entries := c.disk[KeyOf(c.slots[dp])].entries;
    var dev := c.slots[dp].dev;
    var off := 0;
    assert entries[0..] == entries;
    while off < |entries|
      invariant off <= |entries| && c.slots[..] == old(c.slots[..]) && c.Valid()
      invariant Find(entries, Trim(name)) == Find(entries[off..], Trim(name))
      invariant forall j: nat | j < off :: !Names(entries[j], Trim(name))
    {
      assert entries[off..][1..] == entries[off + 1..];
      if entries[off].inum != 0 {
        var same := NameEq(name, entries[off].name);
        if same {
          assert FirstNamed(entries, Trim(name), off);
          var i := c.Iget(dev, entries[off].inum);
          return if i < NINODE then Got(i) else Panicked;
        }
      }
      off := off + 1;
    }
    r := Nothing;
  }

  /** The same inodes are locked. */
  ghost predicate SameLocks(ss: seq<Inode>, ts: seq<Inode>) {
    && |ss| == |ts|
    && forall j | 0 <= j < |ss| :: ss[j].Held() == ts[j].Held() && (ss[j].Held() ==> KeyOf(ss[j]) == KeyOf(ts[j]))
  }

  /** The same references and the same locks. */
  ghost predicate Restored(ss: seq<Inode>, ts: seq<Inode>) {
    SameLocks(ss, ts) && forall x: Key :: Refs(ts, x) == Refs(ss, x)
  }

  /** The walk stands at slot ip with one reference more than it started with. */
  ghost predicate At(ss: seq<Inode>, ts: seq<Inode>, ip: nat) {
    ip < |ts| == NINODE && ts[ip].refs > 0 && SameLocks(ss, ts) && Moved(ss, ts, KeyOf(ts[ip]), 1)
  }

  lemma SameRefs(ss: seq<Inode>, ts: seq<Inode>, us: seq<Inode>, k: Key)
    requires Moved(ss, ts, k, 1) && Moved(ts, us, k, -1)
    ensures forall x: Key :: Refs(us, x) == Refs(ss, x)
  {
    hide Refs;
    MovedTrans(ss, ts, us, k, 1, -1);
  }

  /** Letting go of an inode that lasts does not free it. */
  lemma NotLast(ss: seq<Inode>, ts: seq<Inode>, disk: Disk, ip: nat)
    requires CacheOk(ts, disk) && At(ss, ts, ip) && Lasting(disk, ss, KeyOf(ts[ip]))
    ensures disk[KeyOf(ts[ip])].nlink > 0 || ts[ip].refs > 1
  {
    RefsIsSlot(ts, ip);
  }

  /** Where the walk starts: at the root or at the current directory, with a new reference. */
  method Start(c: Cache, path: seq<char>, cwd: nat) returns (r: Outcome)
    requires c.Valid() && cwd < NINODE && c.slots[cwd].refs > 0
    modifies c.slots
    ensures c.Valid() && (r.Got? || r.Panicked?) && (r.Panicked? ==> InUse(c.slots[..]))
    ensures r.Got? ==>
              At(old(c.slots[..]), c.slots[..], r.i) && KeyOf(c.slots[r.i]) == StartKey(path, old(c.slots[cwd]))
    ensures r.Got? ==>
              KeyOf(c.slots[r.i]) == if path != [] && path[0] == '/' then (1, 1) else old(KeyOf(c.slots[cwd]))
  {
    hide Refs;
    if path != [] && path[0] == '/' {
      var i := c.Iget(ROOTDEV, ROOTINO);
      r := if i < NINODE then Got(i) else Panicked;
    } else {
      c.Idup(cwd);
      r := Got(cwd);
    }
  }

  ghost function StartKey(path: seq<char>, cwd: Inode): (k: Key) {
    if path != [] && path[0] == '/' then (ROOTDEV, ROOTINO) else KeyOf(cwd)
  }

  datatype Step = Stop | Fail | Full | Blocked | Dead | Next(i: nat)

  /** One round of namex's loop, with the element already in `name`. */
  method StepFrom(c: Cache, ip: nat, name: seq<char>, stop: bool, ghost ss: seq<Inode>) returns (r: Step)
    requires c.Valid() && At(ss, c.slots[..], ip) && Lasting(c.disk, ss, KeyOf(c.slots[ip])) && |name| == DIRSIZ
    modifies c.slots, c`disk
    ensures c.Valid() && c.disk == old(c.disk)
    ensures var k := old(KeyOf(c.slots[ip]));
            match r
            case Fail =>
              && Restored(ss, c.slots[..])
              && (c.disk[k].typ != T_DIR || (!stop && Find(c.disk[k].entries, Trim(name)) == None))
            case Stop => stop && c.disk[k].typ == T_DIR && At(ss, c.slots[..], ip) && KeyOf(c.slots[ip]) == k
            case Next(i) =>
              && !stop && c.disk[k].typ == T_DIR && At(ss, c.slots[..], i)
              && KeyOf(c.slots[i]).0 == k.0 && Find(c.disk[k].entries, Trim(name)) == Some(KeyOf(c.slots[i]).1)
            case Full => InUse(c.slots[..])
            case Blocked => c.slots[..] == old(c.slots[..]) && c.slots[ip].Held()
            case Dead => c.disk[k].typ == 0 && KeyOf(c.slots[ip]) == k
    ensures r.Blocked? || !old(c.slots[ip].Held())
  {
    hide Refs, Find, Unique, Moved;
    NotLast(ss, c.slots[..], c.disk, ip);
    hide Lasting;
    ghost var k, s0 := KeyOf(c.slots[ip]), c.slots[..];
    var lock := c.Ilock(ip);
    if lock == Asleep {
      return Blocked;
    }
    ghost var s1 := c.slots[..];
    MovedTrans(ss, s0, s1, k, 1, 0);
    assert Agrees(s1[ip], c.disk);
    if lock == NoType {
      return Dead;
    }
    if c.slots[ip].typ != T_DIR {
      c.IunlockPut(ip);
      SameRefs(ss, s1, c.slots[..], k);
      return Fail;
    }
    if stop {
      c.Iunlock(ip);
      MovedTrans(ss, s1, c.slots[..], k, 1, 0);
      return Stop;
    }
    var next := DirLookup(c, ip, name);
    if next.Nothing? {
      c.IunlockPut(ip);
      SameRefs(ss, s1, c.slots[..], k);
      return Fail;
    }
    if next.Panicked? {
      return Full;
    }
    ghost var s2 := c.slots[..];
    assert Agrees(s2[ip], c.disk);
    c.IunlockPut(ip);
    MovedSwap(ss, s1, s2, c.slots[..], k, KeyOf(s2[next.i]));
    r := Next(next.i);
  }

  /** Somebody holds the lock of inode k. */
  ghost predicate LockedKey(ss: seq<Inode>, k: Key) {
    exists j | 0 <= j < |ss| :: ss[j].Held() && KeyOf(ss[j]) == k
  }

  /** None of the first n inodes on the way is locked. */
  ghost predicate Clear(disk: Disk, k: Key, es: seq<seq<char>>, n: nat, ss: seq<Inode>)
    requires n <= |es|
  {
    forall m: nat | m < n && Walk(disk, k, es[..m]).Some? :: !LockedKey(ss, Walk(disk, k, es[..m]).value)
  }

  /** The way comes to inode x, past no lock, with more to follow. */
  ghost predicate Reaches(disk: Disk, k: Key, es: seq<seq<char>>, ss: seq<Inode>, x: Key) {
    exists n: nat | n < |es| :: Walk(disk, k, es[..n]) == Some(x) && Clear(disk, k, es, n, ss)
  }

  lemma ClearNone(disk: Disk, k: Key, es: seq<seq<char>>, ss: seq<Inode>)
    ensures Clear(disk, k, es, 0, ss)
  {
  }

  lemma HeldBefore(ss: seq<Inode>, ts: seq<Inode>, ip: nat)
    requires At(ss, ts, ip)
    ensures ts[ip].Held() ==> ss[ip].Held()
  {
  }

  /** One more inode on the way, which nobody else has locked. */
  lemma ClearMore(ss: seq<Inode>, ts: seq<Inode>, disk: Disk, ip: nat, k: Key, es: seq<seq<char>>, n: nat)
    requires n < |es| && CacheOk(ts, disk) && At(ss, ts, ip) && !ts[ip].Held()
    requires Walk(disk, k, es[..n]) == Some(KeyOf(ts[ip])) && Clear(disk, k, es, n, ss)
    ensures Clear(disk, k, es, n + 1, ss)
  {
    hide Moved, Walk;
  }

  /** A walk that has failed fails with more elements as well. */
  lemma ClearRest(disk: Disk, k: Key, es: seq<seq<char>>, n: nat, ss: seq<Inode>)
    requires n <= |es| && Clear(disk, k, es, n, ss) && Walk(disk, k, es[..n]) == None
    ensures Clear(disk, k, es, |es|, ss)
  {
    forall m: nat | n <= m <= |es| ensures Walk(disk, k, es[..m]) == None {
      assert es[..m][..n] == es[..n];
      WalkPrefix(disk, k, es[..m], n);
    }
  }

  lemma {:induction false} WalkPrefix(disk: Disk, k: Key, es: seq<seq<char>>, n: nat)
    requires n <= |es| && Walk(disk, k, es[..n]) == None
    ensures Walk(disk, k, es) == None
    decreases |es|
  {
    if k in disk && disk[k].typ == T_DIR && Find(disk[k].entries, es[0]).Some? {
      assert es[..n][1..] == es[1..][..n - 1];
      WalkPrefix(disk, (k.0, Find(disk[k].entries, es[0]).value), es[1..], n - 1);
    }
  }

  /** namex, to its end or to the first lock that it has to wait for. */
  method Namex(c: Cache, path: seq<char>, parent: bool, name: array<char>, cwd: nat) returns (r: Outcome)
    requires c.Valid() && cwd < NINODE && c.slots[cwd].refs > 0
    requires WayLasts(c.disk, c.slots[..], StartKey(path, c.slots[cwd]), Elements(path))
    requires name.Length == DIRSIZ && forall x | x in path :: x != '\0'
    modifies c.slots, c`disk, name
    ensures c.Valid() && c.disk == old(c.disk)
    ensures var k, es := StartKey(path, old(c.slots[cwd])), Elements(path);
            match r
            case Got(i) =>
              && At(old(c.slots[..]), c.slots[..], i) && Target(c.disk, k, es, parent) == Some(KeyOf(c.slots[i]))
              && (parent ==> es != [] && Trim(name[..]) == es[|es| - 1])
            case Nothing => Target(c.disk, k, es, parent) == None && Restored(old(c.slots[..]), c.slots[..])
            case Panicked => InUse(c.slots[..])
            case Waits(i) =>
              && At(old(c.slots[..]), c.slots[..], i) && old(c.slots[i]).Held()
              && Reaches(c.disk, k, es, old(c.slots[..]), KeyOf(c.slots[i]))
            case Typeless(i) =>
              && i < NINODE && KeyOf(c.slots[i]) in c.disk && c.disk[KeyOf(c.slots[i])].typ == 0
              && Reaches(c.disk, k, es, old(c.slots[..]), KeyOf(c.slots[i]))
    ensures r.Got? || r.Nothing? ==>
              Clear(c.disk, StartKey(path, old(c.slots[cwd])), Elements(path), |Elements(path)|, old(c.slots[..]))
  {
    hide Clear, Refs, Elements, Trim, Target, Find, CacheOk, Lasting, SameLocks, Restored;
    ghost var ss, disk, all := c.slots[..], c.disk, Elements(path);
    ghost var k0, n: nat := StartKey(path, c.slots[cwd]), 0;
    assert Unique(ss) by {
      hide *;
      CacheUnique(ss, disk);
    }
    r := Start(c, path, cwd);
    if r.Panicked? {
      return;
    }
    var ip, pos := r.i, 0;
    assert path[0..] == path && all[0..] == all && all[..0] == [];
    ClearNone(disk, k0, all, ss);
    while true
      invariant 0 <= pos <= |path| && c.Valid() && c.disk == disk && At(ss, c.slots[..], ip)
      invariant n <= |all| && all[n..] == Elements(path[pos..])
      invariant Walk(disk, k0, all[..n]) == Some(KeyOf(c.slots[ip]))
      invariant Target(disk, k0, all, parent) == Target(disk, KeyOf(c.slots[ip]), all[n..], parent)
      invariant parent && all != [] ==> n < |all|
      invariant Clear(disk, k0, all, n, ss)
      decreases |all| - n
    {
      ghost var es, k := all[n..], KeyOf(c.slots[ip]);
      var found, next := SkipElem(path, pos, name);
      if !found {
        break;
      }
      assert k in disk by { OnDisk(disk, ss, k); }
      TargetStep(disk, k, es, parent);
      assert all[n] == es[0] == Trim(name[..]) && all[n + 1..] == es[1..] == Elements(path[next..]);
      ghost var ts := c.slots[..];
      var step := StepFrom(c, ip, name[..], parent && next == |path|, ss);
      if step.Blocked? {
        HeldBefore(ss, ts, ip);
        return Waits(ip);
      }
      if step.Dead? {
        return Typeless(ip);
      }
      WalkSnoc(disk, k0, all[..n], k, all[n]);
      assert all[..n + 1] == all[..n] + [all[n]];
      ClearMore(ss, ts, disk, ip, k0, all, n);
      match step
      case Full => return Panicked;
      case Fail =>
        WalkOne(disk, k, all[n]);
        ClearRest(disk, k0, all, n + 1, ss);
        return Nothing;
      case Stop => return Got(ip);
      case Next(i) =>
        WalkOne(disk, k, all[n]);
        ip, pos, n := i, next, n + 1;
    }
    TargetEnd(disk, KeyOf(c.slots[ip]), parent);
    if parent {
      PutBack(c, ip, ss);
      return Nothing;
    }
    r := Got(ip);
  }

  lemma CacheUnique(ss: seq<Inode>, disk: Disk)
    requires CacheOk(ss, disk)
    ensures Unique(ss)
  {
  }

  /** The reference of an unsuccessful walk is given back. */
  method PutBack(c: Cache, ip: nat, ghost ss: seq<Inode>)
    requires c.Valid() && Unique(ss) && At(ss, c.slots[..], ip) && Lasting(c.disk, ss, KeyOf(c.slots[ip]))
    modifies c.slots, c`disk
    ensures c.Valid() && c.disk == old(c.disk) && Restored(ss, c.slots[..])
  {
    hide Refs, Unique, Moved;
    ghost var s0 := c.slots[..];
    assert Agrees(s0[ip], c.disk);
    NotLast(ss, s0, c.disk, ip);
    OthersRef(ss, s0, c.disk, ip);
    var ok := c.Iput(ip);
    SameRefs(ss, s0, c.slots[..], KeyOf(s0[ip]));
  }

  /** The holder of a lock has a reference of its own. */
  lemma OthersRef(ss: seq<Inode>, ts: seq<Inode>, disk: Disk, ip: nat)
    requires Unique(ss) && CacheOk(ts, disk) && At(ss, ts, ip)
    ensures ts[ip].Held() ==> ts[ip].refs > 1
  {
    if ts[ip].Held() {
      RefsIsSlot(ts, ip);
      RefsIsSlot(ss, ip);
    }
  }

  /** A walk of one element more. */
  lemma {:induction false} WalkSnoc(disk: Disk, k0: Key, es: seq<seq<char>>, k: Key, e: seq<char>)
    requires Walk(disk, k0, es) == Some(k)
    ensures Walk(disk, k0, es + [e]) == Walk(disk, k, [e])
    decreases |es|
  {
    if es == [] {
      assert [] + [e] == [e];
    } else {
      assert (es + [e])[1..] == es[1..] + [e];
      WalkSnoc(disk, (k0.0, Find(disk[k0].entries, es[0]).value), es[1..], k, e);
    }
  }

  lemma WalkOne(disk: Disk, k: Key, e: seq<char>)
    requires k in disk
    ensures disk[k].typ != T_DIR || Find(disk[k].entries, e).None? ==> Walk(disk, k, [e]) == None
    ensures disk[k].typ == T_DIR && Find(disk[k].entries, e).Some? ==>
              Walk(disk, k, [e]) == Some((k.0, Find(disk[k].entries, e).value))
  {
  }

  lemma TargetEnd(disk: Disk, k: Key, parent: bool)
    ensures Target(disk, k, [], parent) == if parent then None else Some(k)
  {
  }
}
