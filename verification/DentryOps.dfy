/**
 The namespace operations: create, remove, move and exchange. Each is a
 sequence of the elementary changes of module Dentry, and keeps the whole tree
 in order: shape, absence of cycles, link counts, index, counters, space.
 */
module DentryOps {
  import opened Wrappers
  import opened Record
  import opened Dentry
  import opened DentryAccounting

  /** A namespace between two operations. */
  ghost predicate Valid(fs: Fs) {
    TreeOk(fs, {})
  }

  lemma EmptyIsValid()
    ensures Valid(EMPTY_FS)
  {
  }

  ghost predicate LiveParent(fs: Fs, parent: Option<Ptr>) {
    parent.Some? ==> parent.value in fs.heap
  }

  // ------------------------------------------------------------------- create

  function NewEntry(rec: Record, parent: Option<Ptr>, src: Option<Ptr>, inode: int): Entry {
    var mode := rec.stat.mode;
    Entry(inode, rec.me.name, parent, map[], if mode.hardLink then src else None, 1,
          rec.stat.(alloc := 0, spaceEnd := 0),
          if !mode.hardLink && mode.kind == KIND_LINK then rec.link else "", [])
  }

  /** What a create may be asked for: a live parent, and for a hard link a real
      file, whose type the request has taken over. */
  ghost predicate CreateReady(fs: Fs, rec: Record, parent: Option<Ptr>, src: Option<Ptr>) {
    && LiveParent(fs, parent)
    && (rec.stat.mode.hardLink ==>
          && src.Some? && src.value in fs.heap && !IsLink(fs.heap[src.value]) && !IsDir(fs.heap[src.value])
          && rec.stat.mode.kind == fs.heap[src.value].stat.mode.kind)
  }

  /** inodeNext is what the inode generator would hand out. */
  function Create(fs: Fs, rec: Record, parent: Option<Ptr>, src: Option<Ptr>, inodeNext: int): (Code, Fs, Record)
    requires CreateReady(fs, rec, parent, src)
  {
    var mode := rec.stat.mode;
    var found := FindMe(fs, parent, rec.me.name).0;
    var inode := if rec.inode == 0 then inodeNext else rec.inode;
    if mode.kind == KIND_NONE && !mode.hardLink then (Invalid, fs, rec)
    else if found != NoEntry then (if found == Success then Exists else found, fs, rec)
    else if !mode.hardLink && inode in fs.index then (Exists, fs, rec)
    else
      var fs1 := Born(fs, NewEntry(rec, parent, src, inode));
      (Success, Attach(fs1, fs.top, parent, rec.me.name), rec.(inode := inode))
  }

  lemma CreateAttach(fs: Fs, e: Entry, parent: Option<Ptr>, name: string)
    requires Shape(fs, {}) && Newborn(fs, e) && LiveParent(fs, parent)
    requires FindMe(fs, parent, name).0 == NoEntry
    ensures CanAttach(Born(fs, e), fs.top, parent, name)
  {
  }

  lemma ChainAvoidsLeaf(fs: Fs, loose: set<Ptr>, p: Ptr, q: Ptr) returns (up: seq<Ptr>)
    requires Shape(fs, loose) && Acyclic(fs, loose) && q in fs.heap && IsDir(fs.heap[q])
    requires p in fs.heap && p != q && fs.heap[p].children == map[]
    ensures IsChain(fs.heap, loose, up) && up[0] == q && p !in up
  {
    assert HasChain(fs.heap, loose, q);
    up :| IsChain(fs.heap, loose, up) && up[0] == q;
    ChainOfDirs(fs, loose, up);
  }

  lemma BornKeeps(fs: Fs, e: Entry)
    requires Shape(fs, {}) && Newborn(fs, e)
    ensures fs.top in Born(fs, e).heap && Born(fs, e).heap[fs.top].children == map[]
    ensures forall q :: q in fs.heap ==> q in Born(fs, e).heap && Born(fs, e).heap[q].stat == fs.heap[q].stat
  {
  }

  lemma BornReady(fs: Fs, e: Entry, parent: Option<Ptr>, name: string) returns (up: seq<Ptr>)
    requires Valid(fs) && Newborn(fs, e) && LiveParent(fs, parent)
    requires FindMe(fs, parent, name).0 == NoEntry
    ensures TreeOk(Born(fs, e), {fs.top}) && CanAttach(Born(fs, e), fs.top, parent, name)
    ensures parent.Some? ==> IsChain(Born(fs, e).heap, {fs.top}, up) && up[0] == parent.value && fs.top !in up
  {
    CreateAttach(fs, e, parent, name);
    BornKeeps(fs, e);
    BornTree(fs, {}, e, {fs.top});
    up := [];
    if parent.Some? {
      up := ChainAvoidsLeaf(Born(fs, e), {fs.top}, fs.top, parent.value);
    }
  }

  lemma AttachNewborn(fs: Fs, e: Entry, parent: Option<Ptr>, name: string)
    requires Valid(fs) && Newborn(fs, e) && LiveParent(fs, parent)
    requires FindMe(fs, parent, name).0 == NoEntry
    ensures CanAttach(Born(fs, e), fs.top, parent, name)
    ensures Valid(Attach(Born(fs, e), fs.top, parent, name))
  {
    var up := BornReady(fs, e, parent, name);
    AttachTree(Born(fs, e), {fs.top}, fs.top, parent, name, up, {});
  }

  lemma NewEntryIsNewborn(fs: Fs, rec: Record, parent: Option<Ptr>, src: Option<Ptr>, inode: int)
    requires CreateReady(fs, rec, parent, src)
    requires !rec.stat.mode.hardLink ==> inode !in fs.index && inode != 0
    ensures Newborn(fs, NewEntry(rec, parent, src, inode))
  {
  }

  /** Creation keeps the tree, or changes nothing. */
  lemma CreateKeepsValid(fs: Fs, rec: Record, parent: Option<Ptr>, src: Option<Ptr>, inodeNext: int)
    requires Valid(fs) && CreateReady(fs, rec, parent, src) && inodeNext != 0
    ensures var (code, fs', _) := Create(fs, rec, parent, src, inodeNext);
      Valid(fs') && (code != Success ==> fs' == fs)
  {
    var inode := if rec.inode == 0 then inodeNext else rec.inode;
    if Create(fs, rec, parent, src, inodeNext).0 == Success {
      NewEntryIsNewborn(fs, rec, parent, src, inode);
      AttachNewborn(fs, NewEntry(rec, parent, src, inode), parent, rec.me.name);
    }
  }

  // ------------------------------------------------------------------- remove

  lemma FoundIsAttached(fs: Fs, parent: Option<Ptr>, name: string)
    requires Shape(fs, {}) && LiveParent(fs, parent) && FindMe(fs, parent, name).0 == Success
    ensures var p := FindMe(fs, parent, name).1;
      && p.Some? && p.value in fs.heap && Attached(fs, p.value) && fs.heap[p.value].parent == parent
      && (parent.Some? ==> fs.heap[p.value].name == name)
  {
    if parent.Some? {
      assert ChildOk(fs.heap, {}, parent.value, name);
    }
  }

  ghost function Remove(fs: Fs, rec: Record, parent: Option<Ptr>): (Code, Fs, Record)
    requires Valid(fs) && LiveParent(fs, parent)
  {
    var (code, found) := FindMe(fs, parent, rec.me.name);
    if code != Success then (code, fs, rec)
    else
      FoundIsAttached(fs, parent, rec.me.name);
      var p := found.value;
      if IsDir(fs.heap[p]) && fs.heap[p].children != map[] then (NotEmpty, fs, rec)
      else
        LeafOrFile(fs, p);
        RemovableEntry(fs, p);
        (Success, Removed(fs, p), rec.(inode := fs.heap[p].inode))
  }

  lemma LeafOrFile(fs: Fs, p: Ptr)
    requires Shape(fs, {}) && p in fs.heap && !(IsDir(fs.heap[p]) && fs.heap[p].children != map[])
    ensures fs.heap[p].children == map[]
  {
    if !IsDir(fs.heap[p]) {
      OnlyDirsHaveChildren(fs, {}, p);
    }
  }

  /** Removal keeps the tree, or changes nothing. */
  lemma RemoveKeepsValid(fs: Fs, rec: Record, parent: Option<Ptr>)
    requires Valid(fs) && LiveParent(fs, parent)
    ensures var (code, fs', _) := Remove(fs, rec, parent);
      Valid(fs') && (code != Success ==> fs' == fs)
  {
    var (code, found) := FindMe(fs, parent, rec.me.name);
    if code == Success {
      FoundIsAttached(fs, parent, rec.me.name);
      var p := found.value;
      if !(IsDir(fs.heap[p]) && fs.heap[p].children != map[]) {
        LeafOrFile(fs, p);
        RemoveTree(fs, p);
      }
    }
  }

  // ------------------------------------------------------------- move and exchange

  /** d is p or above p. */
  ghost predicate IsAncestor(h: Heap, d: Ptr, p: Ptr) {
    exists path :: IsChain(h, {}, path) && path[0] == p && d in path
  }

  ghost predicate InPlace(fs: Fs, p: Ptr, parent: Ptr) {
    && p in fs.heap && parent in fs.heap && IsDir(fs.heap[parent])
    && fs.heap[p].parent == Some(parent)
    && fs.heap[p].name in fs.heap[parent].children && fs.heap[parent].children[fs.heap[p].name] == p
  }

  /** s leaves its directory and enters dp under another name. */
  function Moved(fs: Fs, s: Ptr, dp: Ptr, name: string): Fs
    requires s in fs.heap && dp in fs.heap && (fs.heap[s].parent.Some? ==> fs.heap[s].parent.value in fs.heap)
  {
    Attach(Detach(fs, s), s, Some(dp), name)
  }

  /** s and d change places. */
  function Exchanged(fs: Fs, s: Ptr, d: Ptr): Fs
    requires s in fs.heap && fs.heap[s].parent.Some? && fs.heap[s].parent.value in fs.heap
    requires d in fs.heap && fs.heap[d].parent.Some? && fs.heap[d].parent.value in fs.heap
  {
    var sp, dp := fs.heap[s].parent, fs.heap[d].parent;
    var sn, dn := fs.heap[s].name, fs.heap[d].name;
    Attach(Attach(Detach(Detach(fs, s), d), s, dp, dn), d, sp, sn)
  }

  /** A child is not above its own parent. */
  lemma ChildNotAbove(h: Heap, s: Ptr, up: seq<Ptr>)
    requires IsChain(h, {}, up) && s in h && h[s].parent == Some(up[0])
    ensures s !in up
  {
    if s in up {
      var i :| 0 <= i < |up| && up[i] == s;
      SuffixChain(h, up, i);
      assert IsChain(h, {}, [s] + up) by {
        forall j | 0 <= j < |up|
          ensures h[([s] + up)[j]].parent == Some(([s] + up)[j + 1])
        {
        }
      }
      ChainUnique(h, {}, up[i..], [s] + up);
    }
  }

  lemma SuffixChain(h: Heap, up: seq<Ptr>, i: nat)
    requires IsChain(h, {}, up) && i < |up|
    ensures IsChain(h, {}, up[i..]) && up[i..][0] == up[i]
  {
  }

  lemma CutsNothing(fs: Fs, loose: set<Ptr>, p: Ptr, up: seq<Ptr>, loose': set<Ptr>)
    requires p in fs.heap && (fs.heap[p].parent.Some? ==> fs.heap[p].parent.value in fs.heap)
    requires IsChain(fs.heap, loose, up) && p !in up && loose' == loose + {p}
    ensures IsChain(Detach(fs, p).heap, loose', up)
  {
  }

  lemma DetachedRoom(fs: Fs, s: Ptr, dp: Ptr, name: string)
    requires s in fs.heap && (fs.heap[s].parent.Some? ==> fs.heap[s].parent.value in fs.heap)
    requires dp in fs.heap && dp != s && IsDir(fs.heap[dp]) && name !in fs.heap[dp].children
    ensures CanAttach(Detach(fs, s), s, Some(dp), name)
  {
  }

  lemma TakeOut(fs: Fs, s: Ptr, sp: Ptr)
    requires Valid(fs) && InPlace(fs, s, sp)
    ensures TreeOk(Detach(fs, s), {s})
  {
    DetachTree(fs, {}, s, {s});
  }

  lemma RoomForMove(fs: Fs, s: Ptr, sp: Ptr, dp: Ptr, name: string, up: seq<Ptr>)
    requires InPlace(fs, s, sp) && dp in fs.heap && IsDir(fs.heap[dp]) && name !in fs.heap[dp].children
    requires IsChain(fs.heap, {}, up) && up[0] == dp && s !in up
    ensures CanAttach(Detach(fs, s), s, Some(dp), name) && IsChain(Detach(fs, s).heap, {s}, up)
  {
    CutsNothing(fs, {}, s, up, {s});
    DetachedRoom(fs, s, dp, name);
  }

  /** Moving to a free name in a directory that is not below s keeps the tree. */
  lemma MoveTree(fs: Fs, s: Ptr, sp: Ptr, dp: Ptr, name: string, up: seq<Ptr>)
    requires Valid(fs) && InPlace(fs, s, sp)
    requires dp in fs.heap && IsDir(fs.heap[dp]) && name !in fs.heap[dp].children
    requires IsChain(fs.heap, {}, up) && up[0] == dp && s !in up
    ensures Valid(Moved(fs, s, dp, name))
  {
    TakeOut(fs, s, sp);
    RoomForMove(fs, s, sp, dp, name, up);
    AttachTree(Detach(fs, s), {s}, s, Some(dp), name, up, {});
  }

  lemma AttachKeepsChain(fs: Fs, loose: set<Ptr>, p: Ptr, parent: Option<Ptr>, name: string, up: seq<Ptr>, loose': set<Ptr>)
    requires p in fs.heap && (parent.Some? ==> parent.value in fs.heap) && loose' == loose - {p}
    requires IsChain(fs.heap, loose, up) && p !in up
    ensures IsChain(Attach(fs, p, parent, name).heap, loose', up)
  {
  }

  /** Both ends of an exchange, and why neither is above the other's place. */
  ghost predicate CanExchange(fs: Fs, s: Ptr, sp: Ptr, d: Ptr, dp: Ptr, upS: seq<Ptr>, upD: seq<Ptr>) {
    && InPlace(fs, s, sp) && InPlace(fs, d, dp) && s != d
    && IsChain(fs.heap, {}, upS) && upS[0] == sp && s !in upS && d !in upS
    && IsChain(fs.heap, {}, upD) && upD[0] == dp && s !in upD && d !in upD
  }

  lemma ExchangeOut(fs: Fs, s: Ptr, sp: Ptr, d: Ptr, dp: Ptr, upS: seq<Ptr>, upD: seq<Ptr>)
    requires CanExchange(fs, s, sp, d, dp, upS, upD)
    ensures InPlace(Detach(fs, s), d, dp)
    ensures IsChain(Detach(fs, s).heap, {s}, upS) && IsChain(Detach(fs, s).heap, {s}, upD)
    ensures var fs2 := Detach(Detach(fs, s), d);
      && IsChain(fs2.heap, {s, d}, upS) && IsChain(fs2.heap, {s, d}, upD)
      && CanAttach(fs2, s, Some(dp), fs.heap[d].name)
  {
    CutsNothing(fs, {}, s, upS, {s});
    CutsNothing(fs, {}, s, upD, {s});
    CutsNothing(Detach(fs, s), {s}, d, upS, {s, d});
    CutsNothing(Detach(fs, s), {s}, d, upD, {s, d});
    assert sp in upS && dp in upD;
  }

  lemma ExchangeIn(fs: Fs, s: Ptr, sp: Ptr, d: Ptr, dp: Ptr, upS: seq<Ptr>, upD: seq<Ptr>)
    requires CanExchange(fs, s, sp, d, dp, upS, upD)
    ensures InPlace(Detach(fs, s), d, dp)
    ensures var fs3 := Attach(Detach(Detach(fs, s), d), s, Some(dp), fs.heap[d].name);
      CanAttach(fs3, d, Some(sp), fs.heap[s].name) && IsChain(fs3.heap, {d}, upS)
  {
    ExchangeOut(fs, s, sp, d, dp, upS, upD);
    AttachKeepsChain(Detach(Detach(fs, s), d), {s, d}, s, Some(dp), fs.heap[d].name, upS, {d});
    assert sp in upS && dp in upD;
  }

  lemma ExchangeTakeOut(fs: Fs, s: Ptr, sp: Ptr, d: Ptr, dp: Ptr)
    requires Valid(fs) && InPlace(fs, s, sp) && s != d && InPlace(Detach(fs, s), d, dp)
    ensures TreeOk(Detach(Detach(fs, s), d), {s, d})
  {
    TakeOut(fs, s, sp);
    DetachTree(Detach(fs, s), {s}, d, {s, d});
  }

  lemma ExchangeHalf(fs: Fs, s: Ptr, sp: Ptr, d: Ptr, dp: Ptr, upS: seq<Ptr>, upD: seq<Ptr>)
    requires Valid(fs) && CanExchange(fs, s, sp, d, dp, upS, upD)
    ensures InPlace(Detach(fs, s), d, dp)
    ensures TreeOk(Attach(Detach(Detach(fs, s), d), s, Some(dp), fs.heap[d].name), {d})
  {
    ExchangeOut(fs, s, sp, d, dp, upS, upD);
    ExchangeTakeOut(fs, s, sp, d, dp);
    PutBack(Detach(Detach(fs, s), d), s, d, dp, fs.heap[d].name, upD);
  }

  lemma PutBack(fs: Fs, s: Ptr, d: Ptr, dp: Ptr, name: string, up: seq<Ptr>)
    requires TreeOk(fs, {s, d}) && s != d && CanAttach(fs, s, Some(dp), name) && IsChain(fs.heap, {s, d}, up) && up[0] == dp && s !in up
    ensures TreeOk(Attach(fs, s, Some(dp), name), {d})
  {
    AttachTree(fs, {s, d}, s, Some(dp), name, up, {d});
  }

  /** Exchanging two entries, neither above the other's place, keeps the tree. */
  lemma ExchangeTree(fs: Fs, s: Ptr, sp: Ptr, d: Ptr, dp: Ptr, upS: seq<Ptr>, upD: seq<Ptr>)
    requires Valid(fs) && CanExchange(fs, s, sp, d, dp, upS, upD)
    ensures Valid(Exchanged(fs, s, d))
  {
    ExchangeHalf(fs, s, sp, d, dp, upS, upD);
    ExchangeIn(fs, s, sp, d, dp, upS, upD);
    var fs3 := Attach(Detach(Detach(fs, s), d), s, Some(dp), fs.heap[d].name);
    AttachTree(fs3, {d}, d, Some(sp), fs.heap[s].name, upS, {});
  }

  // ------------------------------------------------------- a name goes, the rest stays

  /** What another removal leaves of q. */
  ghost predicate Stays(fs: Fs, fs': Fs, q: Ptr)
    requires q in fs.heap
  {
    && q in fs'.heap
    && fs'.heap[q].parent == fs.heap[q].parent && fs'.heap[q].name == fs.heap[q].name
    && fs'.heap[q].stat == fs.heap[q].stat && fs'.heap[q].inode == fs.heap[q].inode
  }

  lemma ReleaseStays(fs: Fs, x: Ptr, q: Ptr)
    requires x in fs.heap && q in fs.heap && (q == x ==> fs.heap[x].nlink != 1)
    ensures Stays(fs, Release(fs, x), q)
    ensures Release(fs, x).heap[q].children == fs.heap[q].children
  {
  }

  lemma LinkedTwice(fs: Fs, d: Ptr, q: Ptr)
    requires AllNlinks(fs, {}) && d in fs.heap && d < fs.top && IsLink(fs.heap[d]) && fs.heap[d].src == Some(q)
    requires q in fs.heap && Attached(fs, q) && !IsLink(fs.heap[q]) && !IsDir(fs.heap[q])
    ensures fs.heap[q].nlink > 1
  {
    assert NlinkOk(fs, {}, q);
    SumAtLeast(fs.top, LinkWeight(fs.heap, q), d);
  }

  lemma ReleasedIsFile(fs: Fs, d: Ptr, q: Ptr)
    requires Valid(fs) && d in fs.heap && IsLink(fs.heap[d]) && q in fs.heap && fs.heap[d].src == Some(q)
    requires IsDir(fs.heap[q]) || Attached(fs, q)
    ensures !IsDir(fs.heap[q]) && fs.heap[q].nlink > 1
  {
    assert LinkOk(fs.heap, d);
    LinkedTwice(fs, d, q);
  }

  lemma DetachStays(fs: Fs, d: Ptr, q: Ptr)
    requires d in fs.heap && (fs.heap[d].parent.Some? ==> fs.heap[d].parent.value in fs.heap) && q in fs.heap
    ensures Stays(fs, Detach(fs, d), q)
    ensures !IsDir(fs.heap[q]) && fs.heap[d].parent != Some(q) ==> Detach(fs, d).heap[q] == fs.heap[q]
    ensures fs.heap[d].parent != Some(q) ==> Detach(fs, d).heap[q].children == fs.heap[q].children
    ensures fs.heap[d].parent == Some(q) ==> Detach(fs, d).heap[q].children == fs.heap[q].children - {fs.heap[d].name}
  {
  }

  /** A dentry other than d that has a place keeps it when d is removed. */
  lemma RemovedStays(fs: Fs, d: Ptr, q: Ptr)
    requires Valid(fs) && CanRemove(fs, d) && d != q && q in fs.heap
    requires IsDir(fs.heap[q]) || Attached(fs, q)
    ensures Stays(fs, Removed(fs, d), q)
    ensures Removed(fs, d).heap[q].children ==
              if fs.heap[d].parent == Some(q) then fs.heap[q].children - {fs.heap[d].name} else fs.heap[q].children
  {
    var fs1 := Detach(fs, d);
    DetachStays(fs, d, q);
    DetachStays(fs, d, d);
    if IsLink(fs.heap[d]) {
      var x := fs.heap[d].src.value;
      if x == q {
        ReleasedIsFile(fs, d, q);
        NotADirsName(fs, d, q);
      }
      ReleaseStays(Drop(fs1, d), x, q);
    } else {
      ReleaseStays(fs1, d, q);
    }
  }

  lemma NotADirsName(fs: Fs, d: Ptr, q: Ptr)
    requires Shape(fs, {}) && d in fs.heap && Attached(fs, d) && q in fs.heap && !IsDir(fs.heap[q])
    ensures fs.heap[d].parent != Some(q)
  {
    OnlyDirsHaveChildren(fs, {}, q);
  }

  // ------------------------------------------------------------------- rename

  predicate HasFlag(flags: int, bit: int)
    requires bit > 0
  {
    flags / bit % 2 == 1
  }

  lemma ChildInPlace(fs: Fs, parent: Ptr, name: string)
    requires Shape(fs, {}) && parent in fs.heap && FindChild(fs.heap, parent, name).0 == Success
    ensures var p := FindChild(fs.heap, parent, name).1;
      p.Some? && InPlace(fs, p.value, parent) && Attached(fs, p.value) && fs.heap[p.value].name == name
  {
    assert ChildOk(fs.heap, {}, parent, name);
  }

  /** The checks of a rename that do not walk the tree, and both dentries. */
  function RenameCheck(fs: Fs, rec: Record, sp: Option<Ptr>, dp: Option<Ptr>): (Code, Option<Ptr>, Option<Ptr>)
    requires Shape(fs, {}) && LiveParent(fs, sp) && LiveParent(fs, dp)
  {
    if sp.None? || dp.None? then (Invalid, None, None)
    else
      var (srcCode, s) := FindChild(fs.heap, sp.value, rec.src.name);
      var (destCode, d) := FindChild(fs.heap, dp.value, rec.me.name);
      if srcCode != Success then (srcCode, None, None)
      else if destCode != Success then
        (if destCode == NoEntry && !HasFlag(rec.flags, RENAME_EXCHANGE) then Success else destCode, s, None)
      else if HasFlag(rec.flags, RENAME_NOREPLACE) then (Exists, s, d)
      else if HasFlag(rec.flags, RENAME_EXCHANGE) then (Success, s, d)
      else
        ChildInPlace(fs, sp.value, rec.src.name);
        ChildInPlace(fs, dp.value, rec.me.name);
        if fs.heap[d.value].stat.mode.kind != fs.heap[s.value].stat.mode.kind then (Invalid, s, d)
        else if IsDir(fs.heap[d.value]) && fs.heap[d.value].children != map[] then (NotEmpty, s, d)
        else (Success, s, d)
  }

  /** What the check hands on when it succeeds. */
  ghost predicate Checked(fs: Fs, rec: Record, sp: Ptr, dp: Ptr, s: Ptr, d: Option<Ptr>) {
    && InPlace(fs, s, sp) && Attached(fs, s) && fs.heap[s].name == rec.src.name
    && dp in fs.heap && IsDir(fs.heap[dp])
    && (d.None? ==> rec.me.name !in fs.heap[dp].children && !HasFlag(rec.flags, RENAME_EXCHANGE))
    && (d.Some? ==>
          && InPlace(fs, d.value, dp) && Attached(fs, d.value) && fs.heap[d.value].name == rec.me.name
          && !HasFlag(rec.flags, RENAME_NOREPLACE)
          && (HasFlag(rec.flags, RENAME_EXCHANGE) ||
              (fs.heap[d.value].stat.mode.kind == fs.heap[s].stat.mode.kind && fs.heap[d.value].children == map[])))
  }

  lemma CheckedOf(fs: Fs, rec: Record, sp: Option<Ptr>, dp: Option<Ptr>)
    requires Shape(fs, {}) && LiveParent(fs, sp) && LiveParent(fs, dp) && RenameCheck(fs, rec, sp, dp).0 == Success
    ensures var (_, s, d) := RenameCheck(fs, rec, sp, dp);
      sp.Some? && dp.Some? && s.Some? && Checked(fs, rec, sp.value, dp.value, s.value, d)
  {
    ChildInPlace(fs, sp.value, rec.src.name);
    if FindChild(fs.heap, dp.value, rec.me.name).0 == Success {
      ChildInPlace(fs, dp.value, rec.me.name);
      var d := FindChild(fs.heap, dp.value, rec.me.name).1.value;
      if !(IsDir(fs.heap[d]) && fs.heap[d].children != map[]) {
        LeafOrFile(fs, d);
      }
    }
  }

  /** The walk that refuses a rename between two directories. */
  ghost predicate Refused(fs: Fs, sp: Ptr, dp: Ptr, s: Ptr, d: Option<Ptr>) {
    && sp != dp
    && (IsAncestor(fs.heap, s, dp) || IsAncestor(fs.heap, if d.Some? then d.value else dp, sp))
  }

  ghost function Renamed(fs: Fs, rec: Record, sp: Ptr, dp: Ptr, s: Ptr, d: Option<Ptr>): Fs
    requires Valid(fs) && Checked(fs, rec, sp, dp, s, d) && d != Some(s)
  {
    if d.None? then Moved(fs, s, dp, rec.me.name)
    else if HasFlag(rec.flags, RENAME_EXCHANGE) then Exchanged(fs, s, d.value)
    else
      RemovableEntry(fs, d.value);
      RemovedStays(fs, d.value, s);
      RemovedStays(fs, d.value, dp);
      RemovedStays(fs, d.value, sp);
      Moved(Removed(fs, d.value), s, dp, rec.me.name)
  }

  ghost function Rename(fs: Fs, rec: Record, sp: Option<Ptr>, dp: Option<Ptr>): (Code, Fs, Record)
    requires Valid(fs) && LiveParent(fs, sp) && LiveParent(fs, dp)
  {
    var (code, s, d) := RenameCheck(fs, rec, sp, dp);
    if code != Success then (code, fs, rec)
    else
      CheckedOf(fs, rec, sp, dp);
      if d == s then (Exists, fs, rec)
      else if Refused(fs, sp.value, dp.value, s.value, d) then (Loop, fs, rec)
      else (Success, Renamed(fs, rec, sp.value, dp.value, s.value, d), rec.(inode := fs.heap[s.value].inode))
  }

  lemma DirChain(fs: Fs, q: Ptr) returns (up: seq<Ptr>)
    requires Valid(fs) && q in fs.heap && IsDir(fs.heap[q])
    ensures IsChain(fs.heap, {}, up) && up[0] == q
  {
    assert HasChain(fs.heap, {}, q);
    up :| IsChain(fs.heap, {}, up) && up[0] == q;
  }

  /** The chain above the destination, clear of the source. */
  lemma ClearChain(fs: Fs, sp: Ptr, dp: Ptr, s: Ptr) returns (up: seq<Ptr>)
    requires Valid(fs) && InPlace(fs, s, sp) && dp in fs.heap && IsDir(fs.heap[dp])
    requires sp == dp || !IsAncestor(fs.heap, s, dp)
    ensures IsChain(fs.heap, {}, up) && up[0] == dp && s !in up
  {
    up := DirChain(fs, dp);
    if sp == dp {
      ChildNotAbove(fs.heap, s, up);
    }
  }

  lemma RemovedChain(fs: Fs, d: Ptr, up: seq<Ptr>)
    requires Valid(fs) && CanRemove(fs, d) && fs.heap[d].children == map[]
    requires IsChain(fs.heap, {}, up) && d != up[0] && IsDir(fs.heap[up[0]])
    ensures IsChain(Removed(fs, d).heap, {}, up)
  {
    ChainOfDirs(fs, {}, up);
    forall i | 0 <= i < |up|
      ensures up[i] in Removed(fs, d).heap && Removed(fs, d).heap[up[i]].parent == fs.heap[up[i]].parent
    {
      RemovedStays(fs, d, up[i]);
    }
  }

  lemma OverwriteReady(fs: Fs, sp: Ptr, dp: Ptr, s: Ptr, d: Ptr)
    requires Valid(fs) && InPlace(fs, s, sp) && Attached(fs, s) && InPlace(fs, d, dp) && s != d
    requires CanRemove(fs, d) && fs.heap[d].children == map[]
    ensures var fs' := Removed(fs, d);
      InPlace(fs', s, sp) && dp in fs'.heap && IsDir(fs'.heap[dp]) && fs.heap[d].name !in fs'.heap[dp].children
  {
    assert dp != d && sp != d;
    RemovedStays(fs, d, s);
    RemovedStays(fs, d, sp);
    RemovedStays(fs, d, dp);
  }

  lemma MoveOver(fs: Fs, sp: Ptr, dp: Ptr, s: Ptr, d: Ptr, up: seq<Ptr>)
    requires Valid(fs) && InPlace(fs, s, sp) && Attached(fs, s) && InPlace(fs, d, dp) && Attached(fs, d) && s != d
    requires CanRemove(fs, d) && fs.heap[d].children == map[]
    requires IsChain(fs.heap, {}, up) && up[0] == dp && s !in up
    ensures var fs' := Removed(fs, d); InPlace(fs', s, sp) && dp in fs'.heap && Valid(Moved(fs', s, dp, fs.heap[d].name))
  {
    OverwriteReady(fs, sp, dp, s, d);
    RemovedChain(fs, d, up);
    RemoveTree(fs, d);
    MoveTree(Removed(fs, d), s, sp, dp, fs.heap[d].name, up);
  }

  lemma RenamedKeepsValid(fs: Fs, rec: Record, sp: Ptr, dp: Ptr, s: Ptr, d: Option<Ptr>)
    requires Valid(fs) && Checked(fs, rec, sp, dp, s, d) && d != Some(s) && !Refused(fs, sp, dp, s, d)
    ensures Valid(Renamed(fs, rec, sp, dp, s, d))
  {
    var upD := ClearChain(fs, sp, dp, s);
    if d.None? {
      MoveTree(fs, s, sp, dp, rec.me.name, upD);
    } else if HasFlag(rec.flags, RENAME_EXCHANGE) {
      var upS := ClearChain(fs, dp, sp, d.value);
      ChildNotAbove(fs.heap, s, upS);
      ChildNotAbove(fs.heap, d.value, upD);
      ExchangeTree(fs, s, sp, d.value, dp, upS, upD);
    } else {
      RemovableEntry(fs, d.value);
      MoveOver(fs, sp, dp, s, d.value, upD);
    }
  }

  /** Renaming keeps the tree in order, or changes nothing. */
  lemma RenameKeepsValid(fs: Fs, rec: Record, sp: Option<Ptr>, dp: Option<Ptr>)
    requires Valid(fs) && LiveParent(fs, sp) && LiveParent(fs, dp)
    ensures var (code, fs', _) := Rename(fs, rec, sp, dp);
      Valid(fs') && (code != Success ==> fs' == fs)
  {
    var (code, s, d) := RenameCheck(fs, rec, sp, dp);
    if Rename(fs, rec, sp, dp).0 == Success {
      CheckedOf(fs, rec, sp, dp);
      RenamedKeepsValid(fs, rec, sp.value, dp.value, s.value, d);
    }
  }
}
