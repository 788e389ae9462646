/**
 What requests by path mean to someone who looks paths up: a created path is
 found, a removed one is not, and a renamed one leads to what the old path led
 to. Beside them, what create and remove do to every name of the tree.
 */
module PathMeaning {
  import opened Wrappers
  import opened Record
  import opened Dentry
  import opened DentryAccounting
  import opened DentryOps
  import opened RenameLaws
  import opened Paths
  import opened DataThread

  // ------------------------------------------------------------ the names of the tree

  lemma BornSlot(fs: Fs, e: Entry, q: Ptr, name: string)
    requires Shape(fs, {}) && Newborn(fs, e)
    ensures Slot(Born(fs, e), q, name) == Slot(fs, q, name)
  {
  }

  /** A create adds one name, which holds the new dentry with the attributes of
      the request, and changes no other name. */
  lemma CreateMeaning(fs: Fs, rec: Record, parent: Option<Ptr>, src: Option<Ptr>, next: int, q: Ptr, name: string)
    requires Shape(fs, {}) && 0 !in fs.index && CreateReady(fs, rec, parent, src) && next != 0
    requires Create(fs, rec, parent, src, next).0 == Success
    ensures var fs' := Create(fs, rec, parent, src, next).1;
      && fs.top !in fs.heap && fs.top in fs'.heap
      && Slot(fs', q, name) == (if parent == Some(q) && name == rec.me.name then Some(fs.top) else Slot(fs, q, name))
      && (parent.None? ==> fs.root.None? && fs'.root == Some(fs.top))
      && (parent.Some? ==> fs'.root == fs.root && Slot(fs, parent.value, rec.me.name) == None)
  {
    var inode := if rec.inode == 0 then next else rec.inode;
    var e := NewEntry(rec, parent, src, inode);
    NewEntryIsNewborn(fs, rec, parent, src, inode);
    BornSlot(fs, e, q, name);
    if parent.Some? {
      AttachSlot(Born(fs, e), fs.top, parent.value, rec.me.name, q, name);
    }
  }

  /** The attributes of a new dentry. A hard link is not indexed; it raises the
      link count of its file. */
  lemma CreateAttributes(fs: Fs, rec: Record, parent: Option<Ptr>, src: Option<Ptr>, next: int)
    requires Shape(fs, {}) && CreateReady(fs, rec, parent, src) && next != 0 && Create(fs, rec, parent, src, next).0 == Success
    ensures var (_, fs', rec') := Create(fs, rec, parent, src, next);
      && fs.top in fs'.heap
      && var e := fs'.heap[fs.top];
      && e.inode == rec'.inode && (rec.inode != 0 ==> e.inode == rec.inode) && (rec.inode == 0 ==> e.inode == next)
      && e.name == rec.me.name && e.parent == parent && e.children == map[] && e.xattrs == [] && e.nlink == 1
      && e.stat.mode == rec.stat.mode && e.stat.uid == rec.stat.uid && e.stat.gid == rec.stat.gid
      && e.stat.btime == rec.stat.btime && e.stat.atime == rec.stat.atime
      && e.stat.ctime == rec.stat.ctime && e.stat.mtime == rec.stat.mtime
      && e.stat.size == rec.stat.size && e.stat.alloc == 0 && e.stat.spaceEnd == 0
      && e.link == (if !IsLink(e) && e.stat.mode.kind == KIND_LINK then rec.link else "")
      && fs'.index == (if IsLink(e) then fs.index else fs.index[e.inode := fs.top])
      && (IsLink(e) ==> e.src == src && src.value in fs'.heap && fs'.heap[src.value].nlink == fs.heap[src.value].nlink + 1)
  {
    var inode := if rec.inode == 0 then next else rec.inode;
    NewEntryIsNewborn(fs, rec, parent, src, inode);
    BornKeeps(fs, NewEntry(rec, parent, src, inode));
  }

  lemma RootRemovedSlot(fs: Fs, p: Ptr, q: Ptr, name: string)
    requires Valid(fs) && CanRemove(fs, p) && fs.heap[p].parent.None? && fs.heap[p].children == map[]
    ensures Slot(Removed(fs, p), q, name) == Slot(fs, q, name)
  {
    var fs1 := Detach(fs, p);
    assert Slot(fs1, q, name) == Slot(fs, q, name);
    if IsLink(fs.heap[p]) {
      var x := fs.heap[p].src.value;
      assert LinkOk(fs.heap, p);
      OnlyDirsHaveChildren(fs, {}, x);
      DropSlot(fs1, p, q, name);
      ReleaseSlot(Drop(fs1, p), x, q, name);
    } else {
      ReleaseSlot(fs1, p, q, name);
    }
  }

  /** A remove takes one name away and changes no other. */
  lemma RemoveMeaning(fs: Fs, rec: Record, parent: Option<Ptr>, q: Ptr, name: string)
    requires Valid(fs) && LiveParent(fs, parent) && Remove(fs, rec, parent).0 == Success
    ensures Slot(Remove(fs, rec, parent).1, q, name) ==
              if parent == Some(q) && name == rec.me.name then None else Slot(fs, q, name)
    ensures parent.None? ==> Remove(fs, rec, parent).1.root == None
  {
    FoundIsAttached(fs, parent, rec.me.name);
    var p := FindMe(fs, parent, rec.me.name).1.value;
    LeafOrFile(fs, p);
    RemovableEntry(fs, p);
    if parent.Some? {
      RemovedSlot(fs, p, parent.value, q, name);
    } else {
      RootRemovedSlot(fs, p, q, name);
    }
  }

  /** A file without its name stays exactly as long as hard links remain. */
  lemma FileStaysIffLinked(fs: Fs, p: Ptr)
    requires Valid(fs) && p in fs.heap && Attached(fs, p) && !IsLink(fs.heap[p]) && !IsDir(fs.heap[p])
    ensures CanRemove(fs, p)
    ensures p in Removed(fs, p).heap <==> LinksTo(fs, p) > 0
    ensures fs.heap[p].inode in Removed(fs, p).index <==> LinksTo(fs, p) > 0
  {
    OnlyDirsHaveChildren(fs, {}, p);
    RemovableEntry(fs, p);
    assert NlinkOk(fs, {}, p) && HasKey(fs, p);
    LinksNonNegative(fs, p);
  }

  lemma LinkTargetGoes(fs: Fs, p: Ptr, x: Ptr)
    requires CanRemove(fs, p) && IsLink(fs.heap[p]) && fs.heap[p].src == Some(x) && Detach(fs, p).heap[p] == fs.heap[p]
    requires x in Detach(fs, p).heap && Detach(fs, p).heap[x] == fs.heap[x] && !IsLink(fs.heap[x])
    ensures x in Removed(fs, p).heap <==> fs.heap[x].nlink != 1
    ensures p !in Removed(fs, p).heap
  {
  }

  /** Removing a hard link keeps its file exactly while the file has its name or
      another hard link. */
  lemma TargetStaysIffReferenced(fs: Fs, p: Ptr)
    requires Valid(fs) && p in fs.heap && IsLink(fs.heap[p])
    ensures CanRemove(fs, p) && p !in Removed(fs, p).heap
    ensures var x := fs.heap[p].src.value;
      x in Removed(fs, p).heap <==> Attached(fs, x) || LinksTo(fs, x) > 1
  {
    assert LinkOk(fs.heap, p) && Attached(fs, p);
    OnlyDirsHaveChildren(fs, {}, p);
    RemovableEntry(fs, p);
    var x := fs.heap[p].src.value;
    NotADirsName(fs, p, x);
    DetachStays(fs, p, x);
    assert NlinkOk(fs, {}, x);
    LinkTargetGoes(fs, p, x);
    SumAtLeast(fs.top, LinkWeight(fs.heap, x), p);
  }

  // ------------------------------------------------------------------- looking paths up

  /** The dentries on the way keep their name and their parent. */
  ghost predicate WayKept(fs: Fs, fs': Fs, up: seq<Ptr>) {
    && (forall i :: 0 <= i < |up| ==> up[i] in fs.heap && up[i] in fs'.heap)
    && (forall i :: 0 <= i < |up| ==> fs'.heap[up[i]].parent == fs.heap[up[i]].parent && fs'.heap[up[i]].name == fs.heap[up[i]].name)
  }

  lemma {:induction false} SameParts(fs: Fs, fs': Fs, up: seq<Ptr>)
    requires WayKept(fs, fs', up)
    ensures Parts(fs'.heap, up) == Parts(fs.heap, up)
  {
    if |up| > 1 {
      SameParts(fs, fs', up[1..]);
    }
  }

  lemma SameWay(fs: Fs, fs': Fs, up: seq<Ptr>, parts: seq<string>)
    requires Valid(fs') && IsChain(fs.heap, {}, up) && Parts(fs.heap, up) == parts && WayKept(fs, fs', up)
    requires IsDir(fs'.heap[up[0]])
    ensures fs'.root.Some? && fs'.root.value in fs'.heap && Walk(fs'.heap, fs'.root.value, parts) == (Success, Some(up[0]))
  {
    SameParts(fs, fs', up);
    assert IsChain(fs'.heap, {}, up);
    assert Attached(fs', up[0]);
    WalkParts(fs', up);
  }

  lemma FindByParent(fs: Fs, path: string, dir: Ptr, name: string)
    requires Shape(fs, {}) && FindParent(fs, path) == (Success, Some(dir), name)
    ensures dir in fs.heap && IsDir(fs.heap[dir])
    ensures Find(fs, path) == match Slot(fs, dir, name) case Some(p) => (Success, Some(p)) case None => (NoEntry, None)
  {
    var parts := PathParts(path);
    var n := |parts| - 1;
    assert parts == parts[..n] + [parts[n]];
    WalkSnoc(fs.heap, fs.root.value, parts[..n], parts[n]);
    if name in fs.heap[dir].children {
      assert ChildOk(fs.heap, {}, dir, name);
    }
  }

  lemma ParentWay(fs: Fs, path: string, dir: Ptr, name: string) returns (up: seq<Ptr>)
    requires Shape(fs, {}) && FindParent(fs, path) == (Success, Some(dir), name)
    ensures IsChain(fs.heap, {}, up) && up[0] == dir && dir in fs.heap && IsDir(fs.heap[dir])
    ensures PathParts(path) != [] && Parts(fs.heap, up) == PathParts(path)[..|PathParts(path)| - 1] && name == PathParts(path)[|PathParts(path)| - 1]
  {
    var parts := PathParts(path);
    up := WalkFinds(fs, parts[..|parts| - 1]);
  }

  lemma ParentStays(fs: Fs, fs': Fs, path: string, dir: Ptr, name: string, up: seq<Ptr>)
    requires Shape(fs, {}) && Valid(fs') && FindParent(fs, path) == (Success, Some(dir), name)
    requires IsChain(fs.heap, {}, up) && up[0] == dir && WayKept(fs, fs', up) && IsDir(fs'.heap[dir])
    requires PathParts(path) != [] && Parts(fs.heap, up) == PathParts(path)[..|PathParts(path)| - 1] && name == PathParts(path)[|PathParts(path)| - 1]
    ensures FindParent(fs', path) == (Success, Some(dir), name)
  {
    SameWay(fs, fs', up, PathParts(path)[..|PathParts(path)| - 1]);
  }

  lemma CreateKeepsPlace(fs: Fs, rec: Record, parent: Option<Ptr>, src: Option<Ptr>, next: int, q: Ptr)
    requires Shape(fs, {}) && CreateReady(fs, rec, parent, src) && next != 0 && q in fs.heap
    requires Create(fs, rec, parent, src, next).0 == Success
    ensures var fs' := Create(fs, rec, parent, src, next).1;
      q in fs'.heap && fs'.heap[q].parent == fs.heap[q].parent && fs'.heap[q].name == fs.heap[q].name && fs'.heap[q].stat == fs.heap[q].stat
  {
  }

  lemma CreateKeepsWay(fs: Fs, rec: Record, parent: Option<Ptr>, src: Option<Ptr>, next: int, up: seq<Ptr>)
    requires Shape(fs, {}) && CreateReady(fs, rec, parent, src) && next != 0 && IsChain(fs.heap, {}, up)
    requires Create(fs, rec, parent, src, next).0 == Success
    ensures var fs' := Create(fs, rec, parent, src, next).1; WayKept(fs, fs', up) && fs'.heap[up[0]].stat == fs.heap[up[0]].stat
  {
    forall i | 0 <= i < |up|
      ensures var fs' := Create(fs, rec, parent, src, next).1;
        && up[i] in fs'.heap && fs'.heap[up[i]].parent == fs.heap[up[i]].parent
        && fs'.heap[up[i]].name == fs.heap[up[i]].name && fs'.heap[up[i]].stat == fs.heap[up[i]].stat
    {
      CreateKeepsPlace(fs, rec, parent, src, next, up[i]);
    }
  }

  lemma CreatedIsFound(fs: Fs, rec: Record, path: string, dir: Ptr, src: Option<Ptr>, next: int)
    requires Valid(fs) && CreateReady(fs, rec, Some(dir), src) && next != 0
    requires FindParent(fs, path) == (Success, Some(dir), rec.me.name) && Create(fs, rec, Some(dir), src, next).0 == Success
    ensures Valid(Create(fs, rec, Some(dir), src, next).1)
    ensures Find(Create(fs, rec, Some(dir), src, next).1, path) == (Success, Some(fs.top))
  {
    var fs' := Create(fs, rec, Some(dir), src, next).1;
    CreateKeepsValid(fs, rec, Some(dir), src, next);
    var up := ParentWay(fs, path, dir, rec.me.name);
    CreateKeepsWay(fs, rec, Some(dir), src, next, up);
    ParentStays(fs, fs', path, dir, rec.me.name, up);
    CreateMeaning(fs, rec, Some(dir), src, next, dir, rec.me.name);
    FindByParent(fs', path, dir, rec.me.name);
  }

  lemma RemoveKeepsWay(fs: Fs, p: Ptr, up: seq<Ptr>)
    requires Valid(fs) && CanRemove(fs, p) && fs.heap[p].children == map[]
    requires IsChain(fs.heap, {}, up) && IsDir(fs.heap[up[0]]) && p !in up
    ensures WayKept(fs, Removed(fs, p), up) && Removed(fs, p).heap[up[0]].stat == fs.heap[up[0]].stat
  {
    ChainOfDirs(fs, {}, up);
    forall i | 0 <= i < |up|
      ensures Stays(fs, Removed(fs, p), up[i])
    {
      RemovedStays(fs, p, up[i]);
    }
  }

  lemma RemovedIsGone(fs: Fs, rec: Record, path: string, dir: Ptr)
    requires Valid(fs) && dir in fs.heap && FindParent(fs, path) == (Success, Some(dir), rec.me.name)
    requires Remove(fs, rec, Some(dir)).0 == Success
    ensures Valid(Remove(fs, rec, Some(dir)).1)
    ensures Find(Remove(fs, rec, Some(dir)).1, path) == (NoEntry, None)
  {
    var fs' := Remove(fs, rec, Some(dir)).1;
    RemoveKeepsValid(fs, rec, Some(dir));
    FoundIsAttached(fs, Some(dir), rec.me.name);
    var p := FindMe(fs, Some(dir), rec.me.name).1.value;
    LeafOrFile(fs, p);
    RemovableEntry(fs, p);
    var up := ParentWay(fs, path, dir, rec.me.name);
    ChildNotAbove(fs.heap, p, up);
    RemoveKeepsWay(fs, p, up);
    ParentStays(fs, fs', path, dir, rec.me.name, up);
    RemoveMeaning(fs, rec, Some(dir), dir, rec.me.name);
    FindByParent(fs', path, dir, rec.me.name);
  }

  lemma MovedKeepsWay(fs: Fs, s: Ptr, sp: Ptr, dp: Ptr, name: string, up: seq<Ptr>)
    requires InPlace(fs, s, sp) && dp in fs.heap && IsChain(fs.heap, {}, up) && s !in up
    ensures WayKept(fs, Moved(fs, s, dp, name), up) && Moved(fs, s, dp, name).heap[up[0]].stat == fs.heap[up[0]].stat
  {
    forall i | 0 <= i < |up|
      ensures var e := Moved(fs, s, dp, name).heap[up[i]];
        e.parent == fs.heap[up[i]].parent && e.name == fs.heap[up[i]].name && e.stat == fs.heap[up[i]].stat
    {
      MovedEntry(fs, s, sp, dp, name, up[i]);
    }
  }

  lemma ExchangedKeepsWay(fs: Fs, s: Ptr, sp: Ptr, d: Ptr, dp: Ptr, up: seq<Ptr>)
    requires InPlace(fs, s, sp) && InPlace(fs, d, dp) && s != d && IsChain(fs.heap, {}, up) && s !in up && d !in up
    ensures WayKept(fs, Exchanged(fs, s, d), up) && Exchanged(fs, s, d).heap[up[0]].stat == fs.heap[up[0]].stat
  {
    forall i | 0 <= i < |up|
      ensures up[i] in Exchanged(fs, s, d).heap
      ensures var e := Exchanged(fs, s, d).heap[up[i]];
        e.parent == fs.heap[up[i]].parent && e.name == fs.heap[up[i]].name && e.stat == fs.heap[up[i]].stat
    {
      ExchangedBody(fs, s, sp, d, dp, up[i]);
      ExchangedParents(fs, s, sp, d, dp, up[i]);
    }
  }

  lemma WayKeptTwice(fs: Fs, fs1: Fs, fs2: Fs, up: seq<Ptr>)
    requires WayKept(fs, fs1, up) && WayKept(fs1, fs2, up)
    ensures WayKept(fs, fs2, up)
  {
  }

  lemma OverwriteKeepsWay(fs: Fs, sp: Ptr, dp: Ptr, s: Ptr, d: Ptr, name: string, up: seq<Ptr>)
    requires Valid(fs) && InPlace(fs, s, sp) && Attached(fs, s) && InPlace(fs, d, dp) && s != d
    requires CanRemove(fs, d) && fs.heap[d].children == map[]
    requires InPlace(Removed(fs, d), s, sp) && dp in Removed(fs, d).heap
    requires IsChain(fs.heap, {}, up) && IsDir(fs.heap[up[0]]) && s !in up && d !in up
    ensures var fs' := Moved(Removed(fs, d), s, dp, name); WayKept(fs, fs', up) && fs'.heap[up[0]].stat == fs.heap[up[0]].stat
  {
    RemoveKeepsWay(fs, d, up);
    RemovedChain(fs, d, up);
    MovedKeepsWay(Removed(fs, d), s, sp, dp, name, up);
    WayKeptTwice(fs, Removed(fs, d), Moved(Removed(fs, d), s, dp, name), up);
  }

  lemma RenamedKeepsWay(fs: Fs, rec: Record, sp: Ptr, dp: Ptr, s: Ptr, d: Option<Ptr>, up: seq<Ptr>)
    requires Valid(fs) && Checked(fs, rec, sp, dp, s, d) && d != Some(s)
    requires IsChain(fs.heap, {}, up) && IsDir(fs.heap[up[0]]) && s !in up && (d.Some? ==> d.value !in up)
    ensures var fs' := Renamed(fs, rec, sp, dp, s, d); WayKept(fs, fs', up) && fs'.heap[up[0]].stat == fs.heap[up[0]].stat
  {
    if d.None? {
      MovedKeepsWay(fs, s, sp, dp, rec.me.name, up);
    } else if HasFlag(rec.flags, RENAME_EXCHANGE) {
      ExchangedKeepsWay(fs, s, sp, d.value, dp, up);
    } else {
      RemovableEntry(fs, d.value);
      OverwriteReady(fs, sp, dp, s, d.value);
      OverwriteKeepsWay(fs, sp, dp, s, d.value, rec.me.name, up);
    }
  }

  /** Neither renamed entry is on the way to the two directories. */
  lemma WaysAreClear(fs: Fs, rec: Record, sp: Ptr, dp: Ptr, s: Ptr, d: Option<Ptr>, upS: seq<Ptr>, upD: seq<Ptr>)
    requires Valid(fs) && Checked(fs, rec, sp, dp, s, d) && d != Some(s) && !Refused(fs, sp, dp, s, d)
    requires IsChain(fs.heap, {}, upS) && upS[0] == sp && IsChain(fs.heap, {}, upD) && upD[0] == dp
    ensures s !in upS && s !in upD && (d.Some? ==> d.value !in upS && d.value !in upD)
  {
    ChildNotAbove(fs.heap, s, upS);
    if sp == dp {
      ChainUnique(fs.heap, {}, upS, upD);
    }
    if d.Some? {
      ChildNotAbove(fs.heap, d.value, upD);
      if !HasFlag(rec.flags, RENAME_EXCHANGE) {
        LeafNotAbove(fs, d.value, sp, upS);
      }
    }
  }

  lemma RenamedIsFound(fs: Fs, rec: Record, path: string, srcPath: string, sp: Ptr, dp: Ptr, s: Ptr, d: Option<Ptr>)
    requires Valid(fs) && Checked(fs, rec, sp, dp, s, d) && d != Some(s) && !Refused(fs, sp, dp, s, d)
    requires FindParent(fs, path) == (Success, Some(dp), rec.me.name) && FindParent(fs, srcPath) == (Success, Some(sp), rec.src.name)
    ensures Valid(Renamed(fs, rec, sp, dp, s, d))
    ensures FindParent(Renamed(fs, rec, sp, dp, s, d), path) == (Success, Some(dp), rec.me.name)
    ensures FindParent(Renamed(fs, rec, sp, dp, s, d), srcPath) == (Success, Some(sp), rec.src.name)
  {
    var fs' := Renamed(fs, rec, sp, dp, s, d);
    RenamedKeepsValid(fs, rec, sp, dp, s, d);
    var upD := ParentWay(fs, path, dp, rec.me.name);
    var upS := ParentWay(fs, srcPath, sp, rec.src.name);
    WaysAreClear(fs, rec, sp, dp, s, d, upS, upD);
    RenamedKeepsWay(fs, rec, sp, dp, s, d, upS);
    RenamedKeepsWay(fs, rec, sp, dp, s, d, upD);
    ParentStays(fs, fs', path, dp, rec.me.name, upD);
    ParentStays(fs, fs', srcPath, sp, rec.src.name, upS);
  }

  /** After a rename the new path leads to what the old path led to, and the old
      path to nothing, or after an exchange to what the new path led to. */
  lemma RenameByPathMeaning(fs: Fs, rec: Record, path: string, srcPath: string)
    requires Valid(fs) && RenameByPath(fs, rec, path, srcPath).code == Success
    ensures var fs' := RenameByPath(fs, rec, path, srcPath).fs;
      && Valid(fs') && Find(fs, srcPath).0 == Success && Find(fs', path) == Find(fs, srcPath)
      && Find(fs', srcPath) == if HasFlag(rec.flags, RENAME_EXCHANGE) then Find(fs, path) else (NoEntry, None)
  {
    var (_, sp, srcName) := FindParent(fs, srcPath);
    var (_, dp, name) := FindParent(fs, path);
    var rec1 := SetMe(fs, rec, dp, name).(src := PName(fs.heap[sp.value].inode, srcName));
    RenameAtMeaning(fs, rec1, path, srcPath, sp.value, dp.value);
  }

  lemma RenameAtMeaning(fs: Fs, rec: Record, path: string, srcPath: string, sp: Ptr, dp: Ptr)
    requires Valid(fs) && sp in fs.heap && dp in fs.heap && Rename(fs, rec, Some(sp), Some(dp)).0 == Success
    requires FindParent(fs, path) == (Success, Some(dp), rec.me.name) && FindParent(fs, srcPath) == (Success, Some(sp), rec.src.name)
    ensures var fs' := Rename(fs, rec, Some(sp), Some(dp)).1;
      && Valid(fs') && Find(fs, srcPath).0 == Success && Find(fs', path) == Find(fs, srcPath)
      && Find(fs', srcPath) == if HasFlag(rec.flags, RENAME_EXCHANGE) then Find(fs, path) else (NoEntry, None)
  {
    var fs' := Rename(fs, rec, Some(sp), Some(dp)).1;
    CheckedOf(fs, rec, Some(sp), Some(dp));
    var (_, s, d) := RenameCheck(fs, rec, Some(sp), Some(dp));
    RenamedIsFound(fs, rec, path, srcPath, sp, dp, s.value, d);
    RenameMeaning(fs, rec, Some(sp), Some(dp), dp, rec.me.name);
    RenameMeaning(fs, rec, Some(sp), Some(dp), sp, rec.src.name);
    FindByParent(fs, srcPath, sp, rec.src.name);
    FindByParent(fs, path, dp, rec.me.name);
    FindByParent(fs', srcPath, sp, rec.src.name);
    FindByParent(fs', path, dp, rec.me.name);
  }

  lemma NewRootIsFound(fs: Fs)
    requires RootLive(fs) && fs.root.Some?
    ensures Find(fs, "/") == (Success, fs.root)
  {
    assert "/"[1..] == "";
    assert Split("/") == [];
  }

  /** Creating at a place that a path led to. */
  lemma CreateAtMeaning(fs: Fs, rec: Record, path: string, parent: Option<Ptr>, src: Option<Ptr>, next: int)
    requires Valid(fs) && LiveParent(fs, parent) && LiveParent(fs, src) && (rec.stat.mode.hardLink ==> src.Some?) && next != 0
    requires parent.Some? ==> FindParent(fs, path) == (Success, parent, rec.me.name)
    requires parent.None? ==> path == "/"
    requires CreateAt(fs, rec, parent, src, next).code == Success
    ensures var fs' := CreateAt(fs, rec, parent, src, next).fs; Valid(fs') && Find(fs', path) == (Success, Some(fs.top))
  {
    var rec1 := if rec.stat.mode.hardLink then WithKind(rec, fs.heap[src.value].stat.mode.kind) else rec;
    var src1 := if rec.stat.mode.hardLink then src else None;
    if parent.Some? {
      CreatedIsFound(fs, rec1, path, parent.value, src1, next);
    } else {
      CreateKeepsValid(fs, rec1, parent, src1, next);
      CreateMeaning(fs, rec1, parent, src1, next, 0, "");
      NewRootIsFound(Create(fs, rec1, parent, src1, next).1);
    }
  }

  /** After a create by path the path leads to the new dentry. */
  lemma CreateByPathMeaning(fs: Fs, rec: Record, path: string, srcPath: string, next: int)
    requires Valid(fs) && next != 0 && CreateByPath(fs, rec, path, srcPath, next).code == Success
    ensures var fs' := CreateByPath(fs, rec, path, srcPath, next).fs; Valid(fs') && Find(fs', path) == (Success, Some(fs.top))
  {
    var (code, parent, name) := FindParent(fs, path);
    var rec1 := SetMe(fs, rec, parent, name);
    OnlyRootHasNoParent(fs, rec, path, srcPath, next);
    if rec.stat.mode.hardLink {
      var src := FindAndFollow(fs, srcPath).1;
      CreateAtMeaning(fs, rec1.(srcInode := fs.heap[src.value].inode), path, parent, src, next);
    } else {
      CreateAtMeaning(fs, rec1, path, parent, None, next);
    }
  }

  lemma OnlyRootHasNoParent(fs: Fs, rec: Record, path: string, srcPath: string, next: int)
    requires Valid(fs) && CreateByPath(fs, rec, path, srcPath, next).code == Success
    ensures FindParent(fs, path).1.None? ==> path == "/"
    ensures FindParent(fs, path).1.Some? ==> FindParent(fs, path).0 == Success
  {
  }

  /** After a remove by path the path leads nowhere. */
  lemma RemoveByPathMeaning(fs: Fs, rec: Record, path: string, srcPath: string, next: int)
    requires Valid(fs) && rec.op == RemoveDentry && DealByPath(fs, rec, path, srcPath, next).code == Success
    ensures var fs' := DealByPath(fs, rec, path, srcPath, next).fs; Valid(fs') && Find(fs', path) == (NoEntry, None)
  {
    var (code, parent, name) := FindParent(fs, path);
    var rec1 := SetMe(fs, rec, parent, name);
    if parent.Some? {
      RemovedIsGone(fs, rec1, path, parent.value);
    } else {
      RemoveKeepsValid(fs, rec1, parent);
      RemoveMeaning(fs, rec1, parent, 0, "");
    }
  }
}
