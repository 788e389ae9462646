/**
 What a rename does to the names of a tree: which entries change, when the
 refusal with Loop is justified, and what undoes an exchange or a move.
 */
module RenameLaws {
  import opened Wrappers
  import opened Record
  import opened Dentry
  import opened DentryAccounting
  import opened DentryOps

  /** What a directory holds under a name. */
  function Slot(fs: Fs, q: Ptr, name: string): Option<Ptr> {
    if q in fs.heap && name in fs.heap[q].children then Some(fs.heap[q].children[name]) else None
  }

  // --------------------------------------------------------------- the names after it

  lemma DetachSlot(fs: Fs, s: Ptr, sp: Ptr, q: Ptr, name: string)
    requires InPlace(fs, s, sp)
    ensures Slot(Detach(fs, s), q, name) == if q == sp && name == fs.heap[s].name then None else Slot(fs, q, name)
  {
  }

  lemma AttachSlot(fs: Fs, s: Ptr, dp: Ptr, dname: string, q: Ptr, name: string)
    requires s in fs.heap && dp in fs.heap
    ensures Slot(Attach(fs, s, Some(dp), dname), q, name) == if q == dp && name == dname then Some(s) else Slot(fs, q, name)
  {
  }

  lemma DropSlot(fs: Fs, p: Ptr, q: Ptr, name: string)
    requires p in fs.heap && fs.heap[p].children == map[]
    ensures Slot(Drop(fs, p), q, name) == Slot(fs, q, name)
  {
  }

  lemma ReleaseSlot(fs: Fs, p: Ptr, q: Ptr, name: string)
    requires p in fs.heap && fs.heap[p].children == map[]
    ensures Slot(Release(fs, p), q, name) == Slot(fs, q, name)
  {
  }

  lemma RemovedSlot(fs: Fs, d: Ptr, dp: Ptr, q: Ptr, name: string)
    requires Valid(fs) && CanRemove(fs, d) && InPlace(fs, d, dp) && fs.heap[d].children == map[]
    ensures Slot(Removed(fs, d), q, name) == if q == dp && name == fs.heap[d].name then None else Slot(fs, q, name)
  {
    DetachSlot(fs, d, dp, q, name);
    DetachStays(fs, d, d);
    var fs1 := Detach(fs, d);
    if IsLink(fs.heap[d]) {
      var x := fs.heap[d].src.value;
      assert LinkOk(fs.heap, d);
      OnlyDirsHaveChildren(fs, {}, x);
      DetachStays(fs, d, x);
      DropSlot(fs1, d, q, name);
      ReleaseSlot(Drop(fs1, d), x, q, name);
    } else {
      ReleaseSlot(fs1, d, q, name);
    }
  }

  lemma MovedSlot(fs: Fs, s: Ptr, sp: Ptr, dp: Ptr, dname: string, q: Ptr, name: string)
    requires InPlace(fs, s, sp) && dp in fs.heap
    ensures Slot(Moved(fs, s, dp, dname), q, name) ==
              if q == dp && name == dname then Some(s)
              else if q == sp && name == fs.heap[s].name then None
              else Slot(fs, q, name)
  {
    DetachSlot(fs, s, sp, q, name);
    AttachSlot(Detach(fs, s), s, dp, dname, q, name);
  }

  lemma ExchangedSlot(fs: Fs, s: Ptr, sp: Ptr, d: Ptr, dp: Ptr, q: Ptr, name: string)
    requires InPlace(fs, s, sp) && InPlace(fs, d, dp) && s != d
    ensures Slot(Exchanged(fs, s, d), q, name) ==
              if q == dp && name == fs.heap[d].name then Some(s)
              else if q == sp && name == fs.heap[s].name then Some(d)
              else Slot(fs, q, name)
  {
    var fs1 := Detach(fs, s);
    DetachStays(fs, s, d);
    DetachSlot(fs, s, sp, q, name);
    DetachSlot(fs, s, sp, dp, fs.heap[d].name);
    DetachSlot(fs1, d, dp, q, name);
    var fs2 := Detach(fs1, d);
    AttachSlot(fs2, s, dp, fs.heap[d].name, q, name);
    AttachSlot(Attach(fs2, s, Some(dp), fs.heap[d].name), d, sp, fs.heap[s].name, q, name);
  }

  /** After a rename the destination name holds what the source name held, the
      source name holds what was at the destination (an exchange) or nothing (a
      move), and every other name of every directory is as it was. */
  lemma RenameMeaning(fs: Fs, rec: Record, sp: Option<Ptr>, dp: Option<Ptr>, q: Ptr, name: string)
    requires Valid(fs) && LiveParent(fs, sp) && LiveParent(fs, dp) && Rename(fs, rec, sp, dp).0 == Success
    ensures sp.Some? && dp.Some?
    ensures Slot(Rename(fs, rec, sp, dp).1, q, name) ==
              if q == dp.value && name == rec.me.name then Slot(fs, sp.value, rec.src.name)
              else if q == sp.value && name == rec.src.name then
                (if HasFlag(rec.flags, RENAME_EXCHANGE) then Slot(fs, dp.value, rec.me.name) else None)
              else Slot(fs, q, name)
  {
    CheckedOf(fs, rec, sp, dp);
    var (_, s, d) := RenameCheck(fs, rec, sp, dp);
    if d.None? {
      MovedSlot(fs, s.value, sp.value, dp.value, rec.me.name, q, name);
    } else if HasFlag(rec.flags, RENAME_EXCHANGE) {
      ExchangedSlot(fs, s.value, sp.value, d.value, dp.value, q, name);
    } else {
      RemovableEntry(fs, d.value);
      OverwriteReady(fs, sp.value, dp.value, s.value, d.value);
      RemovedSlot(fs, d.value, dp.value, q, name);
      RemovedStays(fs, d.value, s.value);
      MovedSlot(Removed(fs, d.value), s.value, sp.value, dp.value, rec.me.name, q, name);
    }
  }

  // ------------------------------------------------------------- cycles and refusals

  lemma {:induction false} WalkAgrees(h: Heap, walk: seq<Ptr>, path: seq<Ptr>, k: nat)
    requires IsChain(h, {}, path) && walk != [] && path[0] == walk[0] && k < |walk|
    requires forall i :: 0 <= i < |walk| ==> walk[i] in h
    requires forall i :: 0 <= i < |walk| - 1 ==> h[walk[i]].parent == Some(walk[i + 1])
    ensures k < |path| && path[k] == walk[k]
  {
    if k > 0 {
      WalkAgrees(h, walk, path, k - 1);
      assert h[walk[k - 1]].parent == Some(walk[k - 1 + 1]);
    }
  }

  /** Parent pointers that come back to where they started reach no root. */
  lemma CycleHasNoChain(h: Heap, walk: seq<Ptr>)
    requires |walk| > 1 && walk[|walk| - 1] == walk[0]
    requires forall i :: 0 <= i < |walk| ==> walk[i] in h
    requires forall i :: 0 <= i < |walk| - 1 ==> h[walk[i]].parent == Some(walk[i + 1])
    ensures !HasChain(h, {}, walk[0])
  {
    if HasChain(h, {}, walk[0]) {
      var path :| IsChain(h, {}, path) && path[0] == walk[0];
      WalkAgrees(h, walk, path, |walk| - 1);
      SuffixChain(h, path, |walk| - 1);
      ChainUnique(h, {}, path, path[|walk| - 1..]);
    }
  }

  /** Hanging s below a directory that s is above closes a cycle. */
  lemma BelowItself(h: Heap, h': Heap, s: Ptr, up: seq<Ptr>)
    requires IsChain(h, {}, up) && s in up
    requires forall i :: 0 <= i < |up| ==> up[i] in h'
    requires forall i :: 0 <= i < |up| && up[i] != s ==> h'[up[i]].parent == h[up[i]].parent
    requires h'[s].parent == Some(up[0])
    ensures !HasChain(h', {}, up[0])
  {
    var k := FirstAt(up, s);
    var walk := up[..k + 1] + [up[0]];
    forall i | 0 <= i < |walk| - 1
      ensures walk[i] in h' && h'[walk[i]].parent == Some(walk[i + 1])
    {
      if i < k {
        assert h[up[i]].parent == Some(up[i + 1]);
      }
    }
    CycleHasNoChain(h', walk);
  }

  lemma FirstAt(up: seq<Ptr>, s: Ptr) returns (k: nat)
    requires s in up
    ensures k < |up| && up[k] == s && forall i :: 0 <= i < k ==> up[i] != s
  {
    var any :| 0 <= any < |up| && up[any] == s;
    k := 0;
    while up[k] != s
      invariant k <= any && forall i :: 0 <= i < k ==> up[i] != s
      decreases any - k
    {
      k := k + 1;
    }
  }

  lemma MovedParents(fs: Fs, s: Ptr, dp: Ptr, name: string, q: Ptr)
    requires s in fs.heap && dp in fs.heap && (fs.heap[s].parent.Some? ==> fs.heap[s].parent.value in fs.heap) && q in fs.heap
    ensures var e := Moved(fs, s, dp, name).heap[q];
      e.parent == (if q == s then Some(dp) else fs.heap[q].parent) && e.stat == fs.heap[q].stat
  {
  }

  lemma ExchangedParents(fs: Fs, s: Ptr, sp: Ptr, d: Ptr, dp: Ptr, q: Ptr)
    requires InPlace(fs, s, sp) && InPlace(fs, d, dp) && s != d && q in fs.heap
    ensures var e := Exchanged(fs, s, d).heap[q];
      e.parent == (if q == s then Some(dp) else if q == d then Some(sp) else fs.heap[q].parent) && e.stat == fs.heap[q].stat
  {
  }

  lemma NoChainNotValid(fs: Fs, q: Ptr)
    requires q in fs.heap && IsDir(fs.heap[q]) && !HasChain(fs.heap, {}, q)
    ensures !Valid(fs)
  {
  }

  /** Moving a directory below itself would close a cycle. */
  lemma MoveBelowItself(fs: Fs, s: Ptr, sp: Ptr, dp: Ptr, name: string, up: seq<Ptr>)
    requires InPlace(fs, s, sp) && dp in fs.heap && IsDir(fs.heap[dp])
    requires IsChain(fs.heap, {}, up) && up[0] == dp && s in up
    ensures !Valid(Moved(fs, s, dp, name))
  {
    var fs' := Moved(fs, s, dp, name);
    forall i | 0 <= i < |up|
      ensures up[i] in fs'.heap && (up[i] != s ==> fs'.heap[up[i]].parent == fs.heap[up[i]].parent)
    {
      MovedParents(fs, s, dp, name, up[i]);
    }
    MovedParents(fs, s, dp, name, s);
    MovedParents(fs, s, dp, name, dp);
    BelowItself(fs.heap, fs'.heap, s, up);
    NoChainNotValid(fs', dp);
  }

  /** So would exchanging it with something below it. */
  lemma ExchangeBelowItself(fs: Fs, s: Ptr, sp: Ptr, d: Ptr, dp: Ptr, up: seq<Ptr>)
    requires InPlace(fs, s, sp) && InPlace(fs, d, dp) && s != d
    requires IsChain(fs.heap, {}, up) && up[0] == dp && s in up
    ensures !Valid(Exchanged(fs, s, d))
  {
    var fs' := Exchanged(fs, s, d);
    ChildNotAbove(fs.heap, d, up);
    forall i | 0 <= i < |up|
      ensures up[i] in fs'.heap && (up[i] != s ==> fs'.heap[up[i]].parent == fs.heap[up[i]].parent)
    {
      ExchangedParents(fs, s, sp, d, dp, up[i]);
    }
    ExchangedParents(fs, s, sp, d, dp, s);
    ExchangedParents(fs, s, sp, d, dp, dp);
    BelowItself(fs.heap, fs'.heap, s, up);
    NoChainNotValid(fs', dp);
  }

  lemma ExchangeBelowOther(fs: Fs, s: Ptr, sp: Ptr, d: Ptr, dp: Ptr, up: seq<Ptr>)
    requires InPlace(fs, s, sp) && InPlace(fs, d, dp) && s != d
    requires IsChain(fs.heap, {}, up) && up[0] == sp && d in up
    ensures !Valid(Exchanged(fs, s, d))
  {
    var fs' := Exchanged(fs, s, d);
    ChildNotAbove(fs.heap, s, up);
    forall i | 0 <= i < |up|
      ensures up[i] in fs'.heap && (up[i] != d ==> fs'.heap[up[i]].parent == fs.heap[up[i]].parent)
    {
      ExchangedParents(fs, s, sp, d, dp, up[i]);
    }
    ExchangedParents(fs, s, sp, d, dp, d);
    ExchangedParents(fs, s, sp, d, dp, sp);
    BelowItself(fs.heap, fs'.heap, d, up);
    NoChainNotValid(fs', sp);
  }

  lemma LeafNotAbove(fs: Fs, d: Ptr, sp: Ptr, up: seq<Ptr>)
    requires Shape(fs, {}) && d in fs.heap && fs.heap[d].children == map[]
    requires sp in fs.heap && IsDir(fs.heap[sp]) && fs.heap[sp].children != map[]
    requires IsChain(fs.heap, {}, up) && up[0] == sp
    ensures d !in up
  {
    ChainOfDirs(fs, {}, up);
  }

  lemma RefusedMove(fs: Fs, rec: Record, sp: Ptr, dp: Ptr, s: Ptr, d: Option<Ptr>, up: seq<Ptr>)
    requires Valid(fs) && Checked(fs, rec, sp, dp, s, d) && d != Some(s)
    requires IsChain(fs.heap, {}, up) && up[0] == dp && s in up
    ensures !Valid(Renamed(fs, rec, sp, dp, s, d))
  {
    if d.None? {
      MoveBelowItself(fs, s, sp, dp, rec.me.name, up);
    } else if HasFlag(rec.flags, RENAME_EXCHANGE) {
      ExchangeBelowItself(fs, s, sp, d.value, dp, up);
    } else {
      RemovableEntry(fs, d.value);
      OverwriteReady(fs, sp, dp, s, d.value);
      RemovedChain(fs, d.value, up);
      MoveBelowItself(Removed(fs, d.value), s, sp, dp, rec.me.name, up);
    }
  }

  lemma LeafIsNoAncestor(fs: Fs, rec: Record, sp: Ptr, dp: Ptr, s: Ptr, d: Ptr)
    requires Valid(fs) && Checked(fs, rec, sp, dp, s, Some(d)) && !HasFlag(rec.flags, RENAME_EXCHANGE)
    ensures !IsAncestor(fs.heap, d, sp)
  {
    var up := DirChain(fs, sp);
    LeafNotAbove(fs, d, sp, up);
    forall path | IsChain(fs.heap, {}, path) && path[0] == sp
      ensures d !in path
    {
      ChainUnique(fs.heap, {}, path, up);
    }
  }

  /** A rename that the ancestor walk refuses would have closed a cycle, except
      when it moves an entry to a free name in a directory above its own: there
      the walk refuses a rename that would have kept the tree. */
  lemma RefusalExact(fs: Fs, rec: Record, sp: Ptr, dp: Ptr, s: Ptr, d: Option<Ptr>)
    requires Valid(fs) && Checked(fs, rec, sp, dp, s, d) && d != Some(s) && Refused(fs, sp, dp, s, d)
    ensures Valid(Renamed(fs, rec, sp, dp, s, d)) <==> d.None? && !IsAncestor(fs.heap, s, dp)
  {
    if d.Some? && !HasFlag(rec.flags, RENAME_EXCHANGE) {
      LeafIsNoAncestor(fs, rec, sp, dp, s, d.value);
    }
    if IsAncestor(fs.heap, s, dp) {
      var up :| IsChain(fs.heap, {}, up) && up[0] == dp && s in up;
      RefusedMove(fs, rec, sp, dp, s, d, up);
    } else if d.None? {
      var up := ClearChain(fs, sp, dp, s);
      MoveTree(fs, s, sp, dp, rec.me.name, up);
    } else {
      var up :| IsChain(fs.heap, {}, up) && up[0] == sp && d.value in up;
      ExchangeBelowOther(fs, s, sp, d.value, dp, up);
    }
  }

  function NewRecord(inode: int, name: string, kind: nat): Record {
    ZERO_RECORD.(inode := inode, me := PName(0, name), stat := ZERO_STAT.(mode := Mode(0, kind, false)))
  }

  /** The tree after a create of a new name in directory p. */
  function Made(fs: Fs, inode: int, name: string, kind: nat, p: Ptr): Fs
    requires p in fs.heap
  {
    Create(fs, NewRecord(inode, name, kind), Some(p), None, 1).1
  }

  lemma MadeIsValid(fs: Fs, inode: int, name: string, kind: nat, p: Ptr)
    requires Valid(fs) && p in fs.heap
    ensures Valid(Made(fs, inode, name, kind, p))
  {
    CreateKeepsValid(fs, NewRecord(inode, name, kind), Some(p), None, 1);
  }

  lemma MadeEntries(fs: Fs, inode: int, name: string, kind: nat, p: Ptr)
    requires p in fs.heap && p < fs.top && IsDir(fs.heap[p]) && name !in fs.heap[p].children
    requires inode != 0 && inode !in fs.index && kind != KIND_NONE
    ensures var fs' := Made(fs, inode, name, kind, p);
      && fs'.top == fs.top + 1 && fs'.index == fs.index[inode := fs.top]
      && fs'.heap == fs.heap[fs.top := fs'.heap[fs.top]][p := fs'.heap[p]]
      && fs'.heap[p] == fs.heap[p].(children := fs.heap[p].children[name := fs.top], nlink := fs.heap[p].nlink + 1)
      && fs'.heap[fs.top].parent == Some(p) && fs'.heap[fs.top].name == name && fs'.heap[fs.top].children == map[]
      && fs'.heap[fs.top].stat.mode.kind == kind && !IsLink(fs'.heap[fs.top])
  {
  }

  function MadeRoot(fs: Fs): Fs {
    Create(fs, NewRecord(1, "", KIND_DIR), None, None, 1).1
  }

  lemma MadeRootIsValid(fs: Fs)
    requires Valid(fs)
    ensures Valid(MadeRoot(fs))
  {
    CreateKeepsValid(fs, NewRecord(1, "", KIND_DIR), None, None, 1);
  }

  ghost predicate OnlyRoot(fs: Fs) {
    && fs.top == 1 && fs.index == map[1 := 0] && fs.heap.Keys == {0}
    && IsDir(fs.heap[0]) && fs.heap[0].parent == None && fs.heap[0].children == map[]
  }

  lemma RootEntries()
    ensures OnlyRoot(MadeRoot(EMPTY_FS))
  {
  }

  ghost predicate FileInDir(fs: Fs) {
    && 0 in fs.heap && 1 in fs.heap && 2 in fs.heap
    && IsDir(fs.heap[0]) && fs.heap[0].parent == None && fs.heap[0].children == map["a" := 1]
    && IsDir(fs.heap[1]) && fs.heap[1].parent == Some(0) && fs.heap[1].children == map["f" := 2]
    && !IsDir(fs.heap[2]) && !IsLink(fs.heap[2]) && fs.heap[2].parent == Some(1) && fs.heap[2].name == "f"
  }

  lemma TwoMade(fs: Fs)
    requires OnlyRoot(fs)
    ensures 1 in Made(fs, 2, "a", KIND_DIR, 0).heap && FileInDir(Made(Made(fs, 2, "a", KIND_DIR, 0), 3, "f", 8, 1))
  {
    MadeEntries(fs, 2, "a", KIND_DIR, 0);
    MadeEntries(Made(fs, 2, "a", KIND_DIR, 0), 3, "f", 8, 1);
  }

  lemma TwoMadeAreValid(fs: Fs)
    requires Valid(fs) && 0 in fs.heap && 1 in Made(fs, 2, "a", KIND_DIR, 0).heap
    ensures Valid(Made(Made(fs, 2, "a", KIND_DIR, 0), 3, "f", 8, 1))
  {
    MadeIsValid(fs, 2, "a", KIND_DIR, 0);
    MadeIsValid(Made(fs, 2, "a", KIND_DIR, 0), 3, "f", 8, 1);
  }

  lemma SmallTreeOf(root: Fs) returns (fs: Fs)
    requires Valid(root) && OnlyRoot(root)
    ensures Valid(fs) && FileInDir(fs)
  {
    TwoMade(root);
    TwoMadeAreValid(root);
    fs := Made(Made(root, 2, "a", KIND_DIR, 0), 3, "f", 8, 1);
  }

  /** A tree with a directory /a and a file /a/f. */
  lemma SmallTree() returns (fs: Fs)
    ensures Valid(fs) && FileInDir(fs)
  {
    EmptyIsValid();
    MadeRootIsValid(EMPTY_FS);
    RootEntries();
    fs := SmallTreeOf(MadeRoot(EMPTY_FS));
  }

  /** Moving /a/f to /g is refused as a loop, and would have been fine. */
  lemma UpwardMoveExample() returns (fs: Fs, rec: Record)
    ensures Valid(fs) && Checked(fs, rec, 1, 0, 2, None) && LiveParent(fs, Some(1)) && LiveParent(fs, Some(0))
    ensures Rename(fs, rec, Some(1), Some(0)).0 == Loop && Valid(Renamed(fs, rec, 1, 0, 2, None))
  {
    fs := SmallTree();
    rec := ZERO_RECORD.(src := PName(2, "f"), me := PName(1, "g"));
    assert RenameCheck(fs, rec, Some(1), Some(0)) == (Success, Some(2), None);
    CheckedOf(fs, rec, Some(1), Some(0));
    assert IsChain(fs.heap, {}, [1, 0]) && IsChain(fs.heap, {}, [0]);
    assert 0 in [1, 0];
    assert IsAncestor(fs.heap, 0, 1);
    StillClear(fs.heap, fs.heap, 2, [0]);
    RefusalExact(fs, rec, 1, 0, 2, None);
  }

  // ------------------------------------------------------------------- undoing

  lemma SameChildren(fs: Fs, fs': Fs, q: Ptr)
    requires q in fs.heap && q in fs'.heap && forall name :: Slot(fs, q, name) == Slot(fs', q, name)
    ensures fs.heap[q].children == fs'.heap[q].children
  {
    forall name
      ensures name in fs.heap[q].children <==> name in fs'.heap[q].children
      ensures name in fs.heap[q].children ==> fs.heap[q].children[name] == fs'.heap[q].children[name]
    {
      assert Slot(fs, q, name) == Slot(fs', q, name);
    }
  }

  /** All of a dentry but its place and its children. */
  ghost predicate SameBody(e: Entry, e': Entry) {
    e' == e.(parent := e'.parent, name := e'.name, children := e'.children)
  }

  lemma ExchangedBody(fs: Fs, s: Ptr, sp: Ptr, d: Ptr, dp: Ptr, q: Ptr)
    requires InPlace(fs, s, sp) && InPlace(fs, d, dp) && s != d && q in fs.heap
    ensures var e := Exchanged(fs, s, d).heap[q];
      && SameBody(fs.heap[q], e)
      && e.name == if q == s then fs.heap[d].name else if q == d then fs.heap[s].name else fs.heap[q].name
  {
  }

  lemma ExchangedInPlace(fs: Fs, s: Ptr, sp: Ptr, d: Ptr, dp: Ptr)
    requires Shape(fs, {}) && InPlace(fs, s, sp) && InPlace(fs, d, dp) && s != d
    ensures InPlace(Exchanged(fs, s, d), s, dp) && InPlace(Exchanged(fs, s, d), d, sp)
  {
    var fs' := Exchanged(fs, s, d);
    ExchangedBody(fs, s, sp, d, dp, s);
    ExchangedBody(fs, s, sp, d, dp, d);
    ExchangedBody(fs, s, sp, d, dp, sp);
    ExchangedBody(fs, s, sp, d, dp, dp);
    ExchangedParents(fs, s, sp, d, dp, s);
    ExchangedParents(fs, s, sp, d, dp, d);
    ExchangedSlot(fs, s, sp, d, dp, dp, fs.heap[d].name);
    ExchangedSlot(fs, s, sp, d, dp, sp, fs.heap[s].name);
    assert Slot(fs', dp, fs.heap[d].name) == Some(s);
    assert Slot(fs', sp, fs.heap[s].name) == Some(d);
  }

  lemma ExchangedKeys(fs: Fs, s: Ptr, sp: Ptr, d: Ptr, dp: Ptr)
    requires InPlace(fs, s, sp) && InPlace(fs, d, dp) && s != d
    ensures Exchanged(fs, s, d).heap.Keys == fs.heap.Keys
    ensures Exchanged(fs, s, d).(heap := fs.heap) == fs
  {
  }

  lemma TwiceAt(fs: Fs, s: Ptr, sp: Ptr, d: Ptr, dp: Ptr, q: Ptr)
    requires Shape(fs, {}) && InPlace(fs, s, sp) && InPlace(fs, d, dp) && s != d && q in fs.heap
    requires var fs1 := Exchanged(fs, s, d); q in fs1.heap && InPlace(fs1, s, dp) && InPlace(fs1, d, sp)
    ensures Exchanged(Exchanged(fs, s, d), d, s).heap[q] == fs.heap[q]
  {
    var fs1 := Exchanged(fs, s, d);
    var fs2 := Exchanged(fs1, d, s);
    ExchangedBody(fs, s, sp, d, dp, q);
    ExchangedBody(fs, s, sp, d, dp, s);
    ExchangedBody(fs, s, sp, d, dp, d);
    ExchangedBody(fs1, d, sp, s, dp, q);
    ExchangedParents(fs, s, sp, d, dp, q);
    ExchangedParents(fs1, d, sp, s, dp, q);
    forall name
      ensures Slot(fs, q, name) == Slot(fs2, q, name)
    {
      ExchangedSlot(fs, s, sp, d, dp, q, name);
      ExchangedSlot(fs1, d, sp, s, dp, q, name);
    }
    SameChildren(fs, fs2, q);
  }

  lemma SameHeap(fs: Fs, fs': Fs)
    requires fs'.heap.Keys == fs.heap.Keys && fs'.(heap := fs.heap) == fs
    requires forall q :: q in fs.heap ==> fs'.heap[q] == fs.heap[q]
    ensures fs' == fs
  {
    assert fs'.heap == fs.heap;
  }

  lemma ExchangeBack(fs: Fs, s: Ptr, sp: Ptr, d: Ptr, dp: Ptr)
    requires Shape(fs, {}) && InPlace(fs, s, sp) && InPlace(fs, d, dp) && s != d
    requires InPlace(Exchanged(fs, s, d), s, dp) && InPlace(Exchanged(fs, s, d), d, sp)
    ensures Exchanged(Exchanged(fs, s, d), d, s) == fs
  {
    var fs1 := Exchanged(fs, s, d);
    ExchangedKeys(fs, s, sp, d, dp);
    ExchangedKeys(fs1, d, sp, s, dp);
    forall q | q in fs.heap
      ensures Exchanged(fs1, d, s).heap[q] == fs.heap[q]
    {
      TwiceAt(fs, s, sp, d, dp, q);
    }
    SameHeap(fs, Exchanged(fs1, d, s));
  }

  lemma StillClear(h: Heap, h': Heap, x: Ptr, up: seq<Ptr>)
    requires IsChain(h, {}, up) && x !in up
    requires forall i :: 0 <= i < |up| ==> up[i] in h' && h'[up[i]].parent == h[up[i]].parent
    ensures !IsAncestor(h', x, up[0])
  {
    forall path | IsChain(h', {}, path) && path[0] == up[0]
      ensures x !in path
    {
      ChainUnique(h', {}, path, up);
    }
  }

  lemma ClearAfter(fs: Fs, s: Ptr, sp: Ptr, d: Ptr, dp: Ptr, x: Ptr, up: seq<Ptr>)
    requires InPlace(fs, s, sp) && InPlace(fs, d, dp) && s != d
    requires IsChain(fs.heap, {}, up) && s !in up && d !in up && x !in up
    ensures !IsAncestor(Exchanged(fs, s, d).heap, x, up[0])
  {
    forall i | 0 <= i < |up|
      ensures up[i] in Exchanged(fs, s, d).heap && Exchanged(fs, s, d).heap[up[i]].parent == fs.heap[up[i]].parent
    {
      ExchangedParents(fs, s, sp, d, dp, up[i]);
    }
    StillClear(fs.heap, Exchanged(fs, s, d).heap, x, up);
  }

  lemma NotRefusedBack(fs: Fs, s: Ptr, sp: Ptr, d: Ptr, dp: Ptr)
    requires Valid(fs) && InPlace(fs, s, sp) && InPlace(fs, d, dp) && s != d && !Refused(fs, sp, dp, s, Some(d))
    ensures !Refused(Exchanged(fs, s, d), sp, dp, d, Some(s))
  {
    if sp != dp {
      var upD := ClearChain(fs, sp, dp, s);
      var upS := ClearChain(fs, dp, sp, d);
      ChildNotAbove(fs.heap, s, upS);
      ChildNotAbove(fs.heap, d, upD);
      ClearAfter(fs, s, sp, d, dp, d, upD);
      ClearAfter(fs, s, sp, d, dp, s, upS);
    }
  }

  lemma CheckBack(fs: Fs, rec: Record, sp: Ptr, dp: Ptr, s: Ptr, d: Ptr)
    requires Shape(fs, {}) && InPlace(fs, d, sp) && InPlace(fs, s, dp)
    requires fs.heap[d].name == rec.src.name && fs.heap[s].name == rec.me.name
    requires HasFlag(rec.flags, RENAME_EXCHANGE) && !HasFlag(rec.flags, RENAME_NOREPLACE)
    ensures RenameCheck(fs, rec, Some(sp), Some(dp)) == (Success, Some(d), Some(s))
  {
  }

  /** An exchange is undone by asking for it again. */
  lemma ExchangeTwice(fs: Fs, rec: Record, sp: Option<Ptr>, dp: Option<Ptr>)
    requires Valid(fs) && LiveParent(fs, sp) && LiveParent(fs, dp)
    requires Rename(fs, rec, sp, dp).0 == Success && HasFlag(rec.flags, RENAME_EXCHANGE)
    ensures var fs' := Rename(fs, rec, sp, dp).1;
      && Valid(fs') && LiveParent(fs', sp) && LiveParent(fs', dp)
      && Rename(fs', rec, sp, dp).0 == Success && Rename(fs', rec, sp, dp).1 == fs
  {
    RenameKeepsValid(fs, rec, sp, dp);
    CheckedOf(fs, rec, sp, dp);
    var (_, s, d) := RenameCheck(fs, rec, sp, dp);
    var fs' := Exchanged(fs, s.value, d.value);
    ExchangedKeys(fs, s.value, sp.value, d.value, dp.value);
    ExchangedInPlace(fs, s.value, sp.value, d.value, dp.value);
    ExchangedBody(fs, s.value, sp.value, d.value, dp.value, s.value);
    ExchangedBody(fs, s.value, sp.value, d.value, dp.value, d.value);
    CheckBack(fs', rec, sp.value, dp.value, s.value, d.value);
    NotRefusedBack(fs, s.value, sp.value, d.value, dp.value);
    ExchangeBack(fs, s.value, sp.value, d.value, dp.value);
  }

  lemma MovedEntry(fs: Fs, s: Ptr, sp: Ptr, dp: Ptr, name: string, q: Ptr)
    requires InPlace(fs, s, sp) && dp in fs.heap && q in fs.heap
    ensures var e := Moved(fs, s, dp, name).heap[q];
      && e == fs.heap[q].(parent := e.parent, name := e.name, children := e.children, nlink := e.nlink)
      && e.name == (if q == s then name else fs.heap[q].name)
      && e.nlink == fs.heap[q].nlink + (if q == dp then 1 else 0) - (if q == sp then 1 else 0)
      && e.parent == (if q == s then Some(dp) else fs.heap[q].parent)
  {
  }

  lemma MovedKeys(fs: Fs, s: Ptr, sp: Ptr, dp: Ptr, name: string)
    requires InPlace(fs, s, sp) && dp in fs.heap
    ensures Moved(fs, s, dp, name).heap.Keys == fs.heap.Keys
    ensures Moved(fs, s, dp, name).(heap := fs.heap) == fs
  {
  }

  lemma MovedInPlace(fs: Fs, s: Ptr, sp: Ptr, dp: Ptr, name: string)
    requires InPlace(fs, s, sp) && dp in fs.heap && IsDir(fs.heap[dp])
    ensures InPlace(Moved(fs, s, dp, name), s, dp)
  {
    MovedEntry(fs, s, sp, dp, name, s);
    MovedEntry(fs, s, sp, dp, name, dp);
    MovedSlot(fs, s, sp, dp, name, dp, name);
    assert Slot(Moved(fs, s, dp, name), dp, name) == Some(s);
  }

  lemma MoveBackAt(fs: Fs, s: Ptr, sp: Ptr, dp: Ptr, name: string, q: Ptr)
    requires InPlace(fs, s, sp) && dp in fs.heap && IsDir(fs.heap[dp]) && name !in fs.heap[dp].children && q in fs.heap
    requires var fs1 := Moved(fs, s, dp, name); InPlace(fs1, s, dp) && sp in fs1.heap && q in fs1.heap
    ensures Moved(Moved(fs, s, dp, name), s, sp, fs.heap[s].name).heap[q] == fs.heap[q]
  {
    var fs1 := Moved(fs, s, dp, name);
    var fs2 := Moved(fs1, s, sp, fs.heap[s].name);
    MovedEntry(fs, s, sp, dp, name, q);
    MovedEntry(fs, s, sp, dp, name, s);
    MovedEntry(fs1, s, dp, sp, fs.heap[s].name, q);
    forall n
      ensures Slot(fs, q, n) == Slot(fs2, q, n)
    {
      MovedSlot(fs, s, sp, dp, name, q, n);
      MovedSlot(fs1, s, dp, sp, fs.heap[s].name, q, n);
    }
    SameChildren(fs, fs2, q);
  }

  /** Taking an entry to a free name and back gives the tree back, link counts
      included. */
  lemma MovedBack(fs: Fs, s: Ptr, sp: Ptr, dp: Ptr, name: string)
    requires InPlace(fs, s, sp) && dp in fs.heap && IsDir(fs.heap[dp]) && name !in fs.heap[dp].children
    ensures InPlace(Moved(fs, s, dp, name), s, dp) && sp in Moved(fs, s, dp, name).heap
    ensures Moved(Moved(fs, s, dp, name), s, sp, fs.heap[s].name) == fs
  {
    var fs1 := Moved(fs, s, dp, name);
    MovedInPlace(fs, s, sp, dp, name);
    MovedKeys(fs, s, sp, dp, name);
    MovedKeys(fs1, s, dp, sp, fs.heap[s].name);
    forall q | q in fs.heap
      ensures Moved(fs1, s, sp, fs.heap[s].name).heap[q] == fs.heap[q]
    {
      MoveBackAt(fs, s, sp, dp, name, q);
    }
    SameHeap(fs, Moved(fs1, s, sp, fs.heap[s].name));
  }

  /** The request that asks for the way back. */
  function Reversed(rec: Record): Record {
    rec.(src := rec.me, me := rec.src)
  }

  lemma CheckReversed(fs: Fs, rec: Record, sp: Ptr, dp: Ptr, s: Ptr)
    requires Shape(fs, {}) && Checked(fs, rec, sp, dp, s, None)
    requires var fs' := Moved(fs, s, dp, rec.me.name); Shape(fs', {}) && LiveParent(fs', Some(sp)) && LiveParent(fs', Some(dp))
    ensures RenameCheck(Moved(fs, s, dp, rec.me.name), Reversed(rec), Some(dp), Some(sp)) == (Success, Some(s), None)
  {
    var fs' := Moved(fs, s, dp, rec.me.name);
    MovedEntry(fs, s, sp, dp, rec.me.name, sp);
    MovedEntry(fs, s, sp, dp, rec.me.name, dp);
    MovedSlot(fs, s, sp, dp, rec.me.name, dp, rec.me.name);
    MovedSlot(fs, s, sp, dp, rec.me.name, sp, rec.src.name);
    assert Slot(fs', dp, rec.me.name) == Some(s) && Slot(fs', sp, rec.src.name) == None;
  }

  lemma MovedChain(fs: Fs, s: Ptr, sp: Ptr, dp: Ptr, name: string, up: seq<Ptr>)
    requires InPlace(fs, s, sp) && dp in fs.heap && IsChain(fs.heap, {}, up) && s !in up
    ensures var h := Moved(fs, s, dp, name).heap; forall i :: 0 <= i < |up| ==> up[i] in h && h[up[i]].parent == fs.heap[up[i]].parent
    ensures IsChain(Moved(fs, s, dp, name).heap, {}, up)
  {
    forall i | 0 <= i < |up|
      ensures up[i] in Moved(fs, s, dp, name).heap && Moved(fs, s, dp, name).heap[up[i]].parent == fs.heap[up[i]].parent
    {
      MovedEntry(fs, s, sp, dp, name, up[i]);
    }
  }

  /** Who is above whom does not change along a way that is clear of the move. */
  lemma SameAbove(fs: Fs, s: Ptr, sp: Ptr, dp: Ptr, name: string, x: Ptr, up: seq<Ptr>)
    requires InPlace(fs, s, sp) && dp in fs.heap && IsChain(fs.heap, {}, up) && s !in up
    ensures IsAncestor(Moved(fs, s, dp, name).heap, x, up[0]) <==> IsAncestor(fs.heap, x, up[0])
  {
    var h := Moved(fs, s, dp, name).heap;
    MovedChain(fs, s, sp, dp, name, up);
    if x in up {
      assert IsAncestor(fs.heap, x, up[0]) && IsAncestor(h, x, up[0]);
    } else {
      StillClear(fs.heap, h, x, up);
      StillClear(fs.heap, fs.heap, x, up);
    }
  }

  lemma RefusedBack(fs: Fs, sp: Ptr, dp: Ptr, s: Ptr, name: string)
    requires Valid(fs) && InPlace(fs, s, sp) && dp in fs.heap && IsDir(fs.heap[dp]) && !Refused(fs, sp, dp, s, None)
    ensures Refused(Moved(fs, s, dp, name), dp, sp, s, None) <==> sp != dp && IsAncestor(fs.heap, sp, dp)
  {
    if sp != dp {
      var upD := ClearChain(fs, sp, dp, s);
      var upS := DirChain(fs, sp);
      ChildNotAbove(fs.heap, s, upS);
      SameAbove(fs, s, sp, dp, name, s, upS);
      SameAbove(fs, s, sp, dp, name, sp, upD);
      StillClear(fs.heap, fs.heap, s, upS);
    }
  }

  /** After a move to a free name, asking for the way back gives the tree back if
      and only if the old directory is not above the new one; otherwise it is
      refused as a loop. */
  lemma MoveBackExact(fs: Fs, rec: Record, sp: Ptr, dp: Ptr)
    requires Valid(fs) && sp in fs.heap && dp in fs.heap && rec.me.name !in fs.heap[dp].children
    requires Rename(fs, rec, Some(sp), Some(dp)).0 == Success
    ensures var fs' := Rename(fs, rec, Some(sp), Some(dp)).1;
      && Valid(fs') && LiveParent(fs', Some(sp)) && LiveParent(fs', Some(dp))
      && var (code, fs2, _) := Rename(fs', Reversed(rec), Some(dp), Some(sp));
         if sp == dp || !IsAncestor(fs.heap, sp, dp) then code == Success && fs2 == fs else code == Loop
  {
    RenameKeepsValid(fs, rec, Some(sp), Some(dp));
    CheckedOf(fs, rec, Some(sp), Some(dp));
    var s := RenameCheck(fs, rec, Some(sp), Some(dp)).1.value;
    MovedKeys(fs, s, sp, dp, rec.me.name);
    CheckReversed(fs, rec, sp, dp, s);
    RefusedBack(fs, sp, dp, s, rec.me.name);
    MovedBack(fs, s, sp, dp, rec.me.name);
  }

  // ------------------------------------------------------------- a way back refused

  ghost predicate FileBesideDir(fs: Fs) {
    && 0 in fs.heap && 1 in fs.heap && 2 in fs.heap
    && IsDir(fs.heap[0]) && fs.heap[0].parent == None && fs.heap[0].children == map["a" := 1, "f" := 2]
    && IsDir(fs.heap[1]) && fs.heap[1].parent == Some(0) && fs.heap[1].children == map[]
    && !IsDir(fs.heap[2]) && !IsLink(fs.heap[2]) && fs.heap[2].parent == Some(0) && fs.heap[2].name == "f"
  }

  lemma TwoInRoot(fs: Fs)
    requires OnlyRoot(fs)
    ensures 0 in Made(fs, 2, "a", KIND_DIR, 0).heap && FileBesideDir(Made(Made(fs, 2, "a", KIND_DIR, 0), 3, "f", 8, 0))
  {
    MadeEntries(fs, 2, "a", KIND_DIR, 0);
    MadeEntries(Made(fs, 2, "a", KIND_DIR, 0), 3, "f", 8, 0);
  }

  lemma FlatTreeOf(root: Fs) returns (fs: Fs)
    requires Valid(root) && OnlyRoot(root)
    ensures Valid(fs) && FileBesideDir(fs)
  {
    TwoInRoot(root);
    MadeIsValid(root, 2, "a", KIND_DIR, 0);
    MadeIsValid(Made(root, 2, "a", KIND_DIR, 0), 3, "f", 8, 0);
    fs := Made(Made(root, 2, "a", KIND_DIR, 0), 3, "f", 8, 0);
  }

  /** A tree with a directory /a and a file /f. */
  lemma FlatTree() returns (fs: Fs)
    ensures Valid(fs) && FileBesideDir(fs)
  {
    EmptyIsValid();
    MadeRootIsValid(EMPTY_FS);
    RootEntries();
    fs := FlatTreeOf(MadeRoot(EMPTY_FS));
  }

  lemma MovesDown(fs: Fs, rec: Record)
    requires Valid(fs) && FileBesideDir(fs) && rec == ZERO_RECORD.(src := PName(1, "f"), me := PName(2, "f"))
    ensures Rename(fs, rec, Some(0), Some(1)).0 == Success && IsAncestor(fs.heap, 0, 1)
  {
    assert RenameCheck(fs, rec, Some(0), Some(1)) == (Success, Some(2), None);
    assert IsChain(fs.heap, {}, [1, 0]) && IsChain(fs.heap, {}, [0]);
    assert 0 in [1, 0];
    StillClear(fs.heap, fs.heap, 2, [1, 0]);
    StillClear(fs.heap, fs.heap, 1, [0]);
  }

  /** Moving /f to /a/f succeeds; the way back is refused as a loop. */
  lemma NoWayBack() returns (fs: Fs, rec: Record)
    ensures Valid(fs) && 0 in fs.heap && 1 in fs.heap && Rename(fs, rec, Some(0), Some(1)).0 == Success
    ensures var fs' := Rename(fs, rec, Some(0), Some(1)).1;
      && Valid(fs') && LiveParent(fs', Some(0)) && LiveParent(fs', Some(1))
      && Rename(fs', Reversed(rec), Some(1), Some(0)).0 == Loop
  {
    fs := FlatTree();
    rec := ZERO_RECORD.(src := PName(1, "f"), me := PName(2, "f"));
    MovesDown(fs, rec);
    MoveBackExact(fs, rec, 0, 1);
  }
}
