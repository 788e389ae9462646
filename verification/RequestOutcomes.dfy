/**
 When a request succeeds, told by what its paths lead to, and what can be read
 back from the tree afterwards.
 */
module RequestOutcomes {
  import opened Wrappers
  import opened Record
  import opened Dentry
  import opened DentryAccounting
  import opened DentryOps
  import opened RenameLaws
  import opened InodeUpdates
  import opened Paths
  import opened DataThread
  import opened Replication
  import PathMeaning

  // ------------------------------------------------------------- what a path leads to

  /** Down a list of names, from slot to slot. */
  function Leads(fs: Fs, p: Ptr, parts: seq<string>): Option<Ptr>
    decreases |parts|
  {
    if parts == [] then Some(p)
    else
      var next := Slot(fs, p, parts[0]);
      if next.None? then None else Leads(fs, next.value, parts[1..])
  }

  ghost predicate Absolute(path: string) {
    path != "" && path[0] == '/'
  }

  ghost predicate Resolves(fs: Fs, path: string, p: Ptr) {
    Absolute(path) && fs.root.Some? && Leads(fs, fs.root.value, PathParts(path)) == Some(p)
  }

  /** The path names a place in directory q. */
  ghost predicate PlaceIn(fs: Fs, path: string, q: Ptr, name: string) {
    && Absolute(path) && fs.root.Some? && q in fs.heap && IsDir(fs.heap[q])
    && var parts := PathParts(path);
       parts != [] && name == parts[|parts| - 1] && Leads(fs, fs.root.value, parts[..|parts| - 1]) == Some(q)
  }

  lemma {:induction false} WalkLeads(fs: Fs, p: Ptr, parts: seq<string>)
    requires Shape(fs, {}) && p in fs.heap
    ensures Walk(fs.heap, p, parts).0 == Success <==> Leads(fs, p, parts).Some?
    ensures Leads(fs, p, parts).Some? ==> Walk(fs.heap, p, parts).1 == Leads(fs, p, parts)
    decreases |parts|
  {
    if parts != [] {
      if parts[0] in fs.heap[p].children {
        assert ChildOk(fs.heap, {}, p, parts[0]);
        WalkLeads(fs, fs.heap[p].children[parts[0]], parts[1..]);
      }
    }
  }

  lemma FindIs(fs: Fs, path: string, p: Ptr)
    requires Shape(fs, {})
    ensures RootLive(fs) && (Find(fs, path) == (Success, Some(p)) <==> Resolves(fs, path, p))
  {
    if fs.root.Some? {
      WalkLeads(fs, fs.root.value, PathParts(path));
    }
  }

  lemma {:induction false} WalkStops(fs: Fs, p: Ptr, parts: seq<string>) returns (k: nat, q: Ptr)
    requires Shape(fs, {}) && p in fs.heap && Leads(fs, p, parts).None?
    ensures k < |parts| && Leads(fs, p, parts[..k]) == Some(q) && q in fs.heap && Slot(fs, q, parts[k]).None?
    ensures Walk(fs.heap, p, parts).0 == if IsDir(fs.heap[q]) then NoEntry else NotDir
    decreases |parts|
  {
    if parts[0] in fs.heap[p].children {
      assert ChildOk(fs.heap, {}, p, parts[0]);
      var i;
      i, q := WalkStops(fs, fs.heap[p].children[parts[0]], parts[1..]);
      k := i + 1;
      assert parts[..k][1..] == parts[1..][..i];
    } else {
      k, q := 0, p;
      if !IsDir(fs.heap[p]) {
        OnlyDirsHaveChildren(fs, {}, p);
      }
    }
  }

  /** Why a path is not found: it is not absolute, there is no root, or it leads to
      something that does not have the next name, a directory or not. */
  lemma FindCodes(fs: Fs, path: string) returns (k: nat, q: Ptr)
    requires Shape(fs, {})
    ensures RootLive(fs)
    ensures !Absolute(path) ==> Find(fs, path).0 == Invalid
    ensures Absolute(path) && fs.root.None? ==> Find(fs, path).0 == NoEntry
    ensures Absolute(path) && fs.root.Some? && (forall p :: !Resolves(fs, path, p)) ==>
              && k < |PathParts(path)| && Leads(fs, fs.root.value, PathParts(path)[..k]) == Some(q)
              && q in fs.heap && Slot(fs, q, PathParts(path)[k]).None?
              && Find(fs, path).0 == if IsDir(fs.heap[q]) then NoEntry else NotDir
  {
    k, q := 0, 0;
    if Absolute(path) && fs.root.Some? {
      var parts := PathParts(path);
      if Leads(fs, fs.root.value, parts).None? {
        k, q := WalkStops(fs, fs.root.value, parts);
      } else {
        assert Resolves(fs, path, Leads(fs, fs.root.value, parts).value);
      }
    }
  }

  lemma FindParentIs(fs: Fs, path: string, q: Ptr, name: string)
    requires Shape(fs, {})
    ensures RootLive(fs) && (FindParent(fs, path) == (Success, Some(q), name) <==> PlaceIn(fs, path, q, name))
  {
    var parts := PathParts(path);
    if fs.root.Some? && parts != [] {
      WalkLeads(fs, fs.root.value, parts[..|parts| - 1]);
    }
  }

  /** The path leads to this dentry, or to a hard link to it. */
  ghost predicate LeadsToFile(fs: Fs, path: string, f: Ptr) {
    exists p :: Resolves(fs, path, p) && p in fs.heap && f == if IsLink(fs.heap[p]) && fs.heap[p].src.Some? then fs.heap[p].src.value else p
  }

  lemma FollowIs(fs: Fs, path: string, f: Ptr)
    requires Valid(fs)
    ensures FindAndFollow(fs, path) == (Success, Some(f)) <==> LeadsToFile(fs, path, f)
  {
    var (code, p) := Find(fs, path);
    if code == Success {
      FindIs(fs, path, p.value);
      assert LinkOk(fs.heap, p.value);
    }
    if LeadsToFile(fs, path, f) {
      var q :| Resolves(fs, path, q) && q in fs.heap && f == if IsLink(fs.heap[q]) && fs.heap[q].src.Some? then fs.heap[q].src.value else q;
      FindIs(fs, path, q);
    }
  }

  // --------------------------------------------------------- when an operation succeeds

  /** Nothing is at this place, and something could be. */
  ghost predicate FreePlace(fs: Fs, parent: Option<Ptr>, name: string)
    requires LiveParent(fs, parent)
  {
    if parent.Some? then IsDir(fs.heap[parent.value]) && Slot(fs, parent.value, name).None? else name == "" && fs.root.None?
  }

  ghost predicate AtPlace(fs: Fs, parent: Option<Ptr>, name: string, p: Ptr)
    requires LiveParent(fs, parent)
  {
    if parent.Some? then IsDir(fs.heap[parent.value]) && Slot(fs, parent.value, name) == Some(p) else name == "" && fs.root == Some(p)
  }

  ghost predicate Typed(rec: Record) {
    rec.stat.mode.kind != KIND_NONE || rec.stat.mode.hardLink
  }

  /** The inode number that a new real dentry would get is taken. */
  ghost predicate InodeTaken(fs: Fs, rec: Record, next: int) {
    !rec.stat.mode.hardLink && (if rec.inode == 0 then next else rec.inode) in fs.index
  }

  /** A create succeeds if and only if it has a type, its place is free and its
      inode number is not taken; it answers that something exists if and only if
      one of the last two is the reason. */
  lemma CreateExact(fs: Fs, rec: Record, parent: Option<Ptr>, src: Option<Ptr>, next: int)
    requires Shape(fs, {}) && CreateReady(fs, rec, parent, src)
    ensures Create(fs, rec, parent, src, next).0 == Success <==>
              Typed(rec) && FreePlace(fs, parent, rec.me.name) && !InodeTaken(fs, rec, next)
    ensures Create(fs, rec, parent, src, next).0 == Exists <==>
              && Typed(rec)
              && ((exists p :: AtPlace(fs, parent, rec.me.name, p)) || (FreePlace(fs, parent, rec.me.name) && InodeTaken(fs, rec, next)))
    ensures Create(fs, rec, parent, src, next).0 == NotDir <==> Typed(rec) && parent.Some? && !IsDir(fs.heap[parent.value])
  {
    var (code, found) := FindMe(fs, parent, rec.me.name);
    assert code == Success ==> found.Some? && AtPlace(fs, parent, rec.me.name, found.value);
  }

  /** A remove succeeds if and only if something is at its place that is no
      directory with children; a directory with children is its own answer. */
  lemma RemoveExact(fs: Fs, rec: Record, parent: Option<Ptr>)
    requires Valid(fs) && LiveParent(fs, parent)
    ensures Remove(fs, rec, parent).0 == Success <==>
              exists p :: AtPlace(fs, parent, rec.me.name, p) && p in fs.heap && fs.heap[p].children == map[]
    ensures Remove(fs, rec, parent).0 == NotEmpty <==>
              exists p :: AtPlace(fs, parent, rec.me.name, p) && p in fs.heap && fs.heap[p].children != map[]
    ensures Remove(fs, rec, parent).0 == NoEntry <==> FreePlace(fs, parent, rec.me.name)
    ensures Remove(fs, rec, parent).0 == Success ==>
              forall p :: AtPlace(fs, parent, rec.me.name, p) ==> p in fs.heap && Remove(fs, rec, parent).2 == rec.(inode := fs.heap[p].inode)
  {
    var (code, found) := FindMe(fs, parent, rec.me.name);
    if code == Success {
      FoundIsAttached(fs, parent, rec.me.name);
      assert AtPlace(fs, parent, rec.me.name, found.value);
      if !IsDir(fs.heap[found.value]) {
        OnlyDirsHaveChildren(fs, {}, found.value);
      }
    }
  }

  /** The walk that refuses a rename: between two directories the source must not
      be the destination directory or above it, and what is at the destination, or
      else its directory, not the source directory or above it. */
  ghost predicate Crosses(fs: Fs, sp: Ptr, dp: Ptr, s: Ptr, d: Option<Ptr>) {
    sp != dp && (IsAncestor(fs.heap, s, dp) || IsAncestor(fs.heap, if d.Some? then d.value else dp, sp))
  }

  ghost predicate Replaceable(fs: Fs, s: Ptr, d: Ptr) {
    && s in fs.heap && d in fs.heap
    && fs.heap[s].stat.mode.kind == fs.heap[d].stat.mode.kind && fs.heap[d].children == map[]
  }

  /** Something at the destination can be exchanged or replaced, as the flags say. */
  ghost predicate DestAllows(fs: Fs, flags: int, s: Ptr, d: Option<Ptr>) {
    if d.None? then !HasFlag(flags, RENAME_EXCHANGE)
    else !HasFlag(flags, RENAME_NOREPLACE) && (HasFlag(flags, RENAME_EXCHANGE) || Replaceable(fs, s, d.value))
  }

  /** The name sname of directory sp may become the name dname of directory dp. */
  ghost predicate Renamable(fs: Fs, flags: int, sp: Ptr, sname: string, dp: Ptr, dname: string) {
    && sp in fs.heap && dp in fs.heap && IsDir(fs.heap[sp]) && IsDir(fs.heap[dp])
    && var (s, d) := (Slot(fs, sp, sname), Slot(fs, dp, dname));
       s.Some? && DestAllows(fs, flags, s.value, d) && d != s && !Crosses(fs, sp, dp, s.value, d)
  }

  lemma RenameCheckIs(fs: Fs, rec: Record, sp: Ptr, dp: Ptr)
    requires Valid(fs) && sp in fs.heap && dp in fs.heap && IsDir(fs.heap[sp]) && IsDir(fs.heap[dp])
    requires Slot(fs, sp, rec.src.name).Some?
    ensures var (s, d) := (Slot(fs, sp, rec.src.name), Slot(fs, dp, rec.me.name));
      && (RenameCheck(fs, rec, Some(sp), Some(dp)).0 == Success <==> DestAllows(fs, rec.flags, s.value, d))
      && (RenameCheck(fs, rec, Some(sp), Some(dp)).0 == Success ==> RenameCheck(fs, rec, Some(sp), Some(dp)) == (Success, s, d))
  {
    ChildInPlace(fs, sp, rec.src.name);
    var d := Slot(fs, dp, rec.me.name);
    if d.Some? {
      ChildInPlace(fs, dp, rec.me.name);
      if !IsDir(fs.heap[d.value]) {
        OnlyDirsHaveChildren(fs, {}, d.value);
      }
    }
  }

  /** A rename succeeds if and only if the source is there, the flags, the types
      and the children at the destination allow it, both are not the same dentry,
      and the walk does not refuse it. */
  lemma RenameExact(fs: Fs, rec: Record, sp: Option<Ptr>, dp: Option<Ptr>)
    requires Valid(fs) && LiveParent(fs, sp) && LiveParent(fs, dp)
    ensures Rename(fs, rec, sp, dp).0 == Success <==>
              sp.Some? && dp.Some? && Renamable(fs, rec.flags, sp.value, rec.src.name, dp.value, rec.me.name)
    ensures Rename(fs, rec, sp, dp).0 == Success ==>
              var s := Slot(fs, sp.value, rec.src.name).value;
              s in fs.heap && Rename(fs, rec, sp, dp).2 == rec.(inode := fs.heap[s].inode)
  {
    if sp.Some? && dp.Some? && IsDir(fs.heap[sp.value]) && IsDir(fs.heap[dp.value]) && Slot(fs, sp.value, rec.src.name).Some? {
      RenameCheckIs(fs, rec, sp.value, dp.value);
      ChildInPlace(fs, sp.value, rec.src.name);
    }
  }

  /** The entry at the destination would be replaced. */
  ghost predicate Replaces(flags: int, d: Option<Ptr>) {
    d.Some? && !HasFlag(flags, RENAME_NOREPLACE) && !HasFlag(flags, RENAME_EXCHANGE)
  }

  lemma CheckRefusals(fs: Fs, rec: Record, sp: Ptr, dp: Ptr, s: Ptr, d: Option<Ptr>, code: Code)
    requires Valid(fs) && sp in fs.heap && dp in fs.heap && IsDir(fs.heap[sp]) && IsDir(fs.heap[dp])
    requires Slot(fs, sp, rec.src.name) == Some(s) && Slot(fs, dp, rec.me.name) == d
    requires code == RenameCheck(fs, rec, Some(sp), Some(dp)).0
    ensures s in fs.heap && (d.Some? ==> d.value in fs.heap)
    ensures code == NoEntry <==> d.None? && HasFlag(rec.flags, RENAME_EXCHANGE)
    ensures code == Invalid <==> Replaces(rec.flags, d) && fs.heap[d.value].stat.mode.kind != fs.heap[s].stat.mode.kind
    ensures code == NotEmpty <==>
              Replaces(rec.flags, d) && fs.heap[d.value].stat.mode.kind == fs.heap[s].stat.mode.kind && fs.heap[d.value].children != map[]
    ensures code == Exists <==> d.Some? && HasFlag(rec.flags, RENAME_NOREPLACE)
    ensures code != Loop
  {
    ChildInPlace(fs, sp, rec.src.name);
    if d.Some? {
      ChildInPlace(fs, dp, rec.me.name);
      if !IsDir(fs.heap[d.value]) {
        OnlyDirsHaveChildren(fs, {}, d.value);
      }
    }
  }

  /** The answer to a refused rename whose source is there: that there is nothing
      to exchange with, that types differ, that a directory has children, that
      something exists, or that it would close a loop. */
  lemma RenameRefusals(fs: Fs, rec: Record, sp: Ptr, dp: Ptr, s: Ptr, d: Option<Ptr>, code: Code)
    requires Valid(fs) && sp in fs.heap && dp in fs.heap && IsDir(fs.heap[sp]) && IsDir(fs.heap[dp])
    requires Slot(fs, sp, rec.src.name) == Some(s) && Slot(fs, dp, rec.me.name) == d
    requires code == Rename(fs, rec, Some(sp), Some(dp)).0
    ensures s in fs.heap && (d.Some? ==> d.value in fs.heap)
    ensures code == NoEntry <==> d.None? && HasFlag(rec.flags, RENAME_EXCHANGE)
    ensures code == Invalid <==> Replaces(rec.flags, d) && fs.heap[d.value].stat.mode.kind != fs.heap[s].stat.mode.kind
    ensures code == NotEmpty <==>
              Replaces(rec.flags, d) && fs.heap[d.value].stat.mode.kind == fs.heap[s].stat.mode.kind && fs.heap[d.value].children != map[]
    ensures code == Exists <==> d.Some? && (HasFlag(rec.flags, RENAME_NOREPLACE) || (DestAllows(fs, rec.flags, s, d) && d == Some(s)))
    ensures code == Loop <==> DestAllows(fs, rec.flags, s, d) && d != Some(s) && Crosses(fs, sp, dp, s, d)
  {
    RenameCheckIs(fs, rec, sp, dp);
    CheckRefusals(fs, rec, sp, dp, s, d, RenameCheck(fs, rec, Some(sp), Some(dp)).0);
  }

  // ------------------------------------------------------------------ requests by path

  /** A place for something new: the root of an empty tree, or a free name in a
      directory. */
  ghost predicate FreePath(fs: Fs, path: string) {
    if fs.root.None? then path == "/"
    else exists q, name :: PlaceIn(fs, path, q, name) && Slot(fs, q, name).None?
  }

  lemma CreateAtExact(fs: Fs, rec: Record, parent: Option<Ptr>, src: Option<Ptr>, next: int)
    requires Valid(fs) && LiveParent(fs, parent) && LiveParent(fs, src) && (rec.stat.mode.hardLink ==> src.Some?)
    ensures CreateAt(fs, rec, parent, src, next).code == Success <==>
              && Typed(rec) && FreePlace(fs, parent, rec.me.name) && !InodeTaken(fs, rec, next)
              && (rec.stat.mode.hardLink ==> !IsDir(fs.heap[src.value]) && !IsLink(fs.heap[src.value]))
  {
    if !rec.stat.mode.hardLink {
      CreateExact(fs, rec, parent, None, next);
    } else if !IsDir(fs.heap[src.value]) && !IsLink(fs.heap[src.value]) {
      CreateExact(fs, WithKind(rec, fs.heap[src.value].stat.mode.kind), parent, src, next);
    }
  }

  lemma FreePathIs(fs: Fs, path: string)
    requires Valid(fs)
    ensures var (code, parent, name) := FindParent(fs, path);
      && LiveParent(fs, parent)
      && (FreePath(fs, path) <==>
            && (code == Success || (code == NoEntry && path == "/")) && !(code == Success && path == "/")
            && FreePlace(fs, parent, name))
  {
    var (code, parent, name) := FindParent(fs, path);
    if parent.Some? {
      FindParentIs(fs, path, parent.value, name);
    }
    if fs.root.Some? {
      if q, n :| PlaceIn(fs, path, q, n) && Slot(fs, q, n).None? {
        FindParentIs(fs, path, q, n);
      }
      if path == "/" {
        PathMeaning.NewRootIsFound(fs);
        assert "/"[1..] == "" && Split("/") == [];
      }
    }
  }

  /** A create by path succeeds if and only if it has a type, its path is free,
      its inode number is not taken and, for a hard link, the other path leads to a
      file. */
  lemma CreateByPathExact(fs: Fs, rec: Record, path: string, srcPath: string, next: int)
    requires Valid(fs) && rec.op == CreateDentry
    ensures DealByPath(fs, rec, path, srcPath, next).code == Success <==>
              && Typed(rec) && FreePath(fs, path) && !InodeTaken(fs, rec, next)
              && (rec.stat.mode.hardLink ==> exists f :: LeadsToFile(fs, srcPath, f) && f in fs.heap && !IsDir(fs.heap[f]))
  {
    var (code, parent, name) := FindParent(fs, path);
    FreePathIs(fs, path);
    if rec.stat.mode.hardLink {
      LinkByPathExact(fs, rec, path, srcPath, next);
    } else {
      CreateAtExact(fs, SetMe(fs, rec, parent, name), parent, None, next);
    }
  }

  /** A create by path that makes no hard link answers that something exists if
      and only if the path leads to something, or its inode number is taken. */
  lemma CreateByPathExists(fs: Fs, rec: Record, path: string, srcPath: string, next: int)
    requires Valid(fs) && rec.op == CreateDentry && !rec.stat.mode.hardLink
    ensures DealByPath(fs, rec, path, srcPath, next).code == Exists <==>
              || (path == "/" && fs.root.Some?)
              || (Typed(rec) && ((exists p :: Resolves(fs, path, p)) || (FreePath(fs, path) && InodeTaken(fs, rec, next))))
  {
    var (code, parent, name) := FindParent(fs, path);
    if path == "/" && fs.root.Some? {
      assert "/"[1..] == "" && Split("/") == [];
    } else {
      FreePathIs(fs, path);
      LookupCodes(fs, path);
      SomethingThere(fs, path);
      CreateExact(fs, SetMe(fs, rec, parent, name), parent, None, next);
    }
  }

  lemma SomethingThere(fs: Fs, path: string)
    requires Valid(fs)
    ensures var (code, parent, name) := FindParent(fs, path);
      && LiveParent(fs, parent)
      && ((exists p :: Resolves(fs, path, p)) <==> code == Success && exists p :: AtPlace(fs, parent, name, p))
  {
    var (code, parent, name) := FindParent(fs, path);
    PathIsPlace(fs, path, 0);
    if p :| Resolves(fs, path, p) {
      PathIsPlace(fs, path, p);
    }
    if p: Ptr :| AtPlace(fs, parent, name, p) {
      PathIsPlace(fs, path, p);
    }
  }

  lemma LinkByPathExact(fs: Fs, rec: Record, path: string, srcPath: string, next: int)
    requires Valid(fs) && rec.stat.mode.hardLink
    ensures CreateByPath(fs, rec, path, srcPath, next).code == Success <==>
              FreePath(fs, path) && exists f :: LeadsToFile(fs, srcPath, f) && f in fs.heap && !IsDir(fs.heap[f])
  {
    var (code, parent, name) := FindParent(fs, path);
    FreePathIs(fs, path);
    var (found, src) := FindAndFollow(fs, srcPath);
    if found == Success {
      FollowIs(fs, srcPath, src.value);
      CreateAtExact(fs, SetMe(fs, rec, parent, name).(srcInode := fs.heap[src.value].inode), parent, src, next);
    }
    if f :| LeadsToFile(fs, srcPath, f) && f in fs.heap && !IsDir(fs.heap[f]) {
      FollowIs(fs, srcPath, f);
    }
  }

  lemma PathIsPlace(fs: Fs, path: string, p: Ptr)
    requires Valid(fs)
    ensures var (code, parent, name) := FindParent(fs, path);
      LiveParent(fs, parent) && (Resolves(fs, path, p) <==> code == Success && AtPlace(fs, parent, name, p))
  {
    var (code, parent, name) := FindParent(fs, path);
    FindIs(fs, path, p);
    if code == Success && parent.Some? {
      PathMeaning.FindByParent(fs, path, parent.value, name);
    } else if Resolves(fs, path, p) && PathParts(path) != [] {
      ResolvedHasPlace(fs, path, p);
    }
  }

  lemma {:induction false} LeadsFront(fs: Fs, p: Ptr, parts: seq<string>, last: string, q: Ptr)
    requires Leads(fs, p, parts + [last]) == Some(q)
    ensures exists dir :: Leads(fs, p, parts) == Some(dir) && Slot(fs, dir, last) == Some(q)
    decreases |parts|
  {
    if parts == [] {
      assert Leads(fs, p, []) == Some(p);
      assert (parts + [last])[1..] == [];
    } else {
      assert (parts + [last])[1..] == parts[1..] + [last];
      LeadsFront(fs, Slot(fs, p, parts[0]).value, parts[1..], last, q);
    }
  }

  lemma ResolvedHasPlace(fs: Fs, path: string, p: Ptr)
    requires Valid(fs) && Resolves(fs, path, p) && PathParts(path) != []
    ensures FindParent(fs, path).0 == Success
  {
    var parts := PathParts(path);
    var n := |parts| - 1;
    assert parts == parts[..n] + [parts[n]];
    LeadsFront(fs, fs.root.value, parts[..n], parts[n], p);
    var dir :| Leads(fs, fs.root.value, parts[..n]) == Some(dir) && Slot(fs, dir, parts[n]) == Some(p);
    assert ChildOk(fs.heap, {}, dir, parts[n]);
    FindParentIs(fs, path, dir, parts[n]);
  }

  /** A remove by path succeeds if and only if the path leads to something that
      has no children. */
  lemma RemoveByPathExact(fs: Fs, rec: Record, path: string, srcPath: string, next: int)
    requires Valid(fs) && rec.op == RemoveDentry
    ensures DealByPath(fs, rec, path, srcPath, next).code == Success <==>
              exists p :: Resolves(fs, path, p) && p in fs.heap && fs.heap[p].children == map[]
    ensures DealByPath(fs, rec, path, srcPath, next).code == NotEmpty <==>
              exists p :: Resolves(fs, path, p) && p in fs.heap && fs.heap[p].children != map[]
  {
    var (code, parent, name) := FindParent(fs, path);
    forall p
      ensures LiveParent(fs, parent) && (Resolves(fs, path, p) <==> code == Success && AtPlace(fs, parent, name, p))
    {
      PathIsPlace(fs, path, p);
    }
    if code == Success {
      RemoveExact(fs, SetMe(fs, rec, parent, name), parent);
    } else {
      LookupCodes(fs, path);
    }
  }

  lemma {:induction false} WalkCodes(h: Heap, p: Ptr, parts: seq<string>)
    requires p in h
    ensures Walk(h, p, parts).0 in {Success, NoEntry, NotDir}
    decreases |parts|
  {
    if parts != [] && FindChild(h, p, parts[0]).0 == Success && h[p].children[parts[0]] in h {
      WalkCodes(h, h[p].children[parts[0]], parts[1..]);
    }
  }

  lemma LookupCodes(fs: Fs, path: string)
    requires RootLive(fs)
    ensures FindParent(fs, path).0 in {Success, Invalid, NoEntry, NotDir}
  {
    var parts := PathParts(path);
    if fs.root.Some? && parts != [] {
      WalkCodes(fs.heap, fs.root.value, parts[..|parts| - 1]);
    }
  }

  /** A rename by path succeeds if and only if both paths name places in
      directories and the one may become the other. */
  lemma RenameByPathExact(fs: Fs, rec: Record, path: string, srcPath: string, next: int)
    requires Valid(fs) && rec.op == RenameDentry
    ensures DealByPath(fs, rec, path, srcPath, next).code == Success <==>
              exists sp, sname, dp, dname ::
                PlaceIn(fs, srcPath, sp, sname) && PlaceIn(fs, path, dp, dname) && Renamable(fs, rec.flags, sp, sname, dp, dname)
  {
    var (code, parent, name) := FindParent(fs, path);
    var (srcCode, srcParent, srcName) := FindParent(fs, srcPath);
    if code == Success && parent.Some? && srcCode == Success && srcParent.Some? {
      FindParentIs(fs, path, parent.value, name);
      FindParentIs(fs, srcPath, srcParent.value, srcName);
      RenameExact(fs, SetMe(fs, rec, parent, name).(src := PName(fs.heap[srcParent.value].inode, srcName)), srcParent, parent);
    }
    if sp, sname, dp, dname :| PlaceIn(fs, srcPath, sp, sname) && PlaceIn(fs, path, dp, dname) && Renamable(fs, rec.flags, sp, sname, dp, dname) {
      FindParentIs(fs, srcPath, sp, sname);
      FindParentIs(fs, path, dp, dname);
    }
  }

  // ----------------------------------------------------------------- requests by inode

  /** The directory that an inode stands for; 0 stands for the place of the root. */
  ghost predicate DirOf(fs: Fs, inode: int, dir: Option<Ptr>) {
    if inode == 0 && inode !in fs.index then dir == None else inode in fs.index && dir == Some(fs.index[inode])
  }

  /** By inode, a create succeeds if and only if the inodes it names are known and
      the create does. */
  lemma CreateByInodeExact(fs: Fs, rec: Record, next: int)
    requires Valid(fs) && rec.op == CreateDentry
    ensures DealByInode(fs, rec, next).code == Success <==>
              exists dir :: DirOf(fs, rec.me.parentInode, dir) && LiveParent(fs, dir)
                && Typed(rec) && FreePlace(fs, dir, rec.me.name) && !InodeTaken(fs, rec, next)
                && (rec.stat.mode.hardLink ==>
                      rec.srcInode in fs.index && fs.index[rec.srcInode] in fs.heap && !IsDir(fs.heap[fs.index[rec.srcInode]]))
    ensures rec.me.parentInode != 0 && rec.me.parentInode !in fs.index ==> DealByInode(fs, rec, next).code == NoEntry
  {
    var parent, src := ByInode(fs, rec.me.parentInode), ByInode(fs, rec.srcInode);
    if parent.Some? || rec.me.parentInode == 0 {
      assert DirOf(fs, rec.me.parentInode, parent);
      if !(rec.stat.mode.hardLink && src.None?) {
        CreateAtExact(fs, rec, parent, src, next);
      }
    }
  }

  lemma RemoveByInodeExact(fs: Fs, rec: Record, next: int)
    requires Valid(fs) && rec.op == RemoveDentry
    ensures DealByInode(fs, rec, next).code == Success <==>
              exists dir, p :: DirOf(fs, rec.me.parentInode, dir) && LiveParent(fs, dir)
                && AtPlace(fs, dir, rec.me.name, p) && p in fs.heap && fs.heap[p].children == map[]
    ensures rec.me.parentInode != 0 && rec.me.parentInode !in fs.index ==> DealByInode(fs, rec, next).code == NoEntry
  {
    var parent := ByInode(fs, rec.me.parentInode);
    if parent.Some? || rec.me.parentInode == 0 {
      assert DirOf(fs, rec.me.parentInode, parent);
      RemoveExact(fs, rec, parent);
    }
  }

  lemma RenameByInodeExact(fs: Fs, rec: Record, next: int)
    requires Valid(fs) && rec.op == RenameDentry
    ensures DealByInode(fs, rec, next).code == Success <==>
              && rec.src.parentInode in fs.index && rec.me.parentInode in fs.index
              && Renamable(fs, rec.flags, fs.index[rec.src.parentInode], rec.src.name, fs.index[rec.me.parentInode], rec.me.name)
    ensures rec.src.parentInode !in fs.index || rec.me.parentInode !in fs.index ==> DealByInode(fs, rec, next).code == NoEntry
  {
    RenameExact(fs, rec, ByInode(fs, rec.src.parentInode), ByInode(fs, rec.me.parentInode));
  }

  // ------------------------------------------------ what can be read back afterwards

  /** All that a dentry carries apart from its place in the tree and its links. */
  ghost predicate SameContent(e: Entry, e': Entry) {
    e'.inode == e.inode && e'.stat == e.stat && e'.link == e.link && e'.src == e.src && e'.xattrs == e.xattrs
  }

  /** What is left is what was there. */
  ghost predicate KeepsContent(fs: Fs, fs': Fs) {
    forall q :: q in fs'.heap ==> q in fs.heap && SameContent(fs.heap[q], fs'.heap[q])
  }

  lemma KeepsTwice(fs: Fs, fs1: Fs, fs2: Fs)
    requires KeepsContent(fs, fs1) && KeepsContent(fs1, fs2)
    ensures KeepsContent(fs, fs2)
  {
  }

  lemma DetachContent(fs: Fs, p: Ptr)
    requires p in fs.heap && (fs.heap[p].parent.Some? ==> fs.heap[p].parent.value in fs.heap)
    ensures KeepsContent(fs, Detach(fs, p)) && Detach(fs, p).heap.Keys == fs.heap.Keys
  {
  }

  lemma AttachContent(fs: Fs, p: Ptr, parent: Option<Ptr>, name: string)
    requires p in fs.heap && (parent.Some? ==> parent.value in fs.heap)
    ensures KeepsContent(fs, Attach(fs, p, parent, name)) && Attach(fs, p, parent, name).heap.Keys == fs.heap.Keys
  {
  }

  lemma RemovedContent(fs: Fs, p: Ptr)
    requires CanRemove(fs, p) && Detach(fs, p).heap[p] == fs.heap[p]
    ensures KeepsContent(fs, Removed(fs, p))
  {
    var fs1 := Detach(fs, p);
    DetachContent(fs, p);
    var fs2 := DoRemove(fs1, p);
    assert KeepsContent(fs1, fs2);
    KeepsTwice(fs, fs1, fs2);
  }

  lemma MovedContent(fs: Fs, s: Ptr, dp: Ptr, name: string)
    requires s in fs.heap && dp in fs.heap && (fs.heap[s].parent.Some? ==> fs.heap[s].parent.value in fs.heap)
    ensures KeepsContent(fs, Moved(fs, s, dp, name)) && Moved(fs, s, dp, name).heap.Keys == fs.heap.Keys
  {
    var fs1 := Detach(fs, s);
    DetachContent(fs, s);
    AttachContent(fs1, s, Some(dp), name);
    KeepsTwice(fs, fs1, Moved(fs, s, dp, name));
  }

  lemma ExchangedContent(fs: Fs, s: Ptr, d: Ptr)
    requires s in fs.heap && fs.heap[s].parent.Some? && fs.heap[s].parent.value in fs.heap
    requires d in fs.heap && fs.heap[d].parent.Some? && fs.heap[d].parent.value in fs.heap
    ensures KeepsContent(fs, Exchanged(fs, s, d)) && Exchanged(fs, s, d).heap.Keys == fs.heap.Keys
  {
    var sp, dp, sn, dn := fs.heap[s].parent, fs.heap[d].parent, fs.heap[s].name, fs.heap[d].name;
    var fs1 := Detach(fs, s);
    DetachContent(fs, s);
    var fs2 := Detach(fs1, d);
    DetachContent(fs1, d);
    KeepsTwice(fs, fs1, fs2);
    var fs3 := Attach(fs2, s, dp, dn);
    AttachContent(fs2, s, dp, dn);
    KeepsTwice(fs, fs2, fs3);
    AttachContent(fs3, d, sp, sn);
    KeepsTwice(fs, fs3, Exchanged(fs, s, d));
  }

  /** A remove leaves the content of everything that stays alone. */
  lemma RemoveContent(fs: Fs, rec: Record, parent: Option<Ptr>)
    requires Valid(fs) && LiveParent(fs, parent)
    ensures KeepsContent(fs, Remove(fs, rec, parent).1)
  {
    var (code, found) := FindMe(fs, parent, rec.me.name);
    if code == Success {
      FoundIsAttached(fs, parent, rec.me.name);
      var p := found.value;
      if !(IsDir(fs.heap[p]) && fs.heap[p].children != map[]) {
        LeafOrFile(fs, p);
        RemovableEntry(fs, p);
        RemovedContent(fs, p);
      }
    }
  }

  lemma RenamedContent(fs: Fs, rec: Record, sp: Ptr, dp: Ptr, s: Ptr, d: Option<Ptr>)
    requires Valid(fs) && Checked(fs, rec, sp, dp, s, d) && d != Some(s)
    ensures KeepsContent(fs, Renamed(fs, rec, sp, dp, s, d))
    ensures d.None? || HasFlag(rec.flags, RENAME_EXCHANGE) ==> Renamed(fs, rec, sp, dp, s, d).heap.Keys == fs.heap.Keys
  {
    if d.None? {
      MovedContent(fs, s, dp, rec.me.name);
    } else if HasFlag(rec.flags, RENAME_EXCHANGE) {
      ExchangedContent(fs, s, d.value);
    } else {
      RemovableEntry(fs, d.value);
      RemovedStays(fs, d.value, s);
      RemovedStays(fs, d.value, dp);
      RemovedStays(fs, d.value, sp);
      RemovedContent(fs, d.value);
      MovedContent(Removed(fs, d.value), s, dp, rec.me.name);
      KeepsTwice(fs, Removed(fs, d.value), Renamed(fs, rec, sp, dp, s, d));
    }
  }

  /** A rename leaves the content of every dentry alone. */
  lemma RenameContent(fs: Fs, rec: Record, sp: Option<Ptr>, dp: Option<Ptr>, fs': Fs)
    requires Valid(fs) && LiveParent(fs, sp) && LiveParent(fs, dp) && fs' == Rename(fs, rec, sp, dp).1
    ensures KeepsContent(fs, fs')
  {
    var (code, s, d) := RenameCheck(fs, rec, sp, dp);
    if fs' != fs {
      CheckedOf(fs, rec, sp, dp);
      RenamedContent(fs, rec, sp.value, dp.value, s.value, d);
    }
  }

  /** Only a rename that replaces something makes any dentry go. */
  lemma RenameKeepsAll(fs: Fs, rec: Record, sp: Ptr, dp: Ptr, fs': Fs)
    requires Valid(fs) && sp in fs.heap && dp in fs.heap && fs' == Rename(fs, rec, Some(sp), Some(dp)).1
    requires Slot(fs, dp, rec.me.name).None? || HasFlag(rec.flags, RENAME_EXCHANGE)
    ensures fs'.heap.Keys == fs.heap.Keys
  {
    var (code, s, d) := RenameCheck(fs, rec, Some(sp), Some(dp));
    if fs' != fs {
      CheckedOf(fs, rec, Some(sp), Some(dp));
      RenamedContent(fs, rec, sp, dp, s.value, d);
    }
  }

  /** One more dentry, and the content of all others as before. */
  ghost predicate OneMore(fs: Fs, fs': Fs) {
    fs'.heap.Keys == fs.heap.Keys + {fs.top} && forall q :: q in fs.heap ==> SameContent(fs.heap[q], fs'.heap[q])
  }

  lemma BornContent(fs: Fs, e: Entry)
    requires IsLink(e) ==> e.src.Some? && e.src.value in fs.heap
    requires fs.top !in fs.heap
    ensures OneMore(fs, Born(fs, e))
  {
  }

  lemma OneMoreAttached(fs: Fs, fs1: Fs, fs': Fs)
    requires OneMore(fs, fs1) && KeepsContent(fs1, fs') && fs'.heap.Keys == fs1.heap.Keys
    ensures OneMore(fs, fs')
  {
    forall q | q in fs.heap
      ensures q in fs'.heap && SameContent(fs.heap[q], fs'.heap[q])
    {
      assert q in fs1.heap && q in fs'.heap.Keys;
    }
  }

  /** A create adds one dentry and leaves the content of all others alone. */
  lemma CreateContent(fs: Fs, rec: Record, parent: Option<Ptr>, src: Option<Ptr>, next: int)
    requires Shape(fs, {}) && CreateReady(fs, rec, parent, src) && Create(fs, rec, parent, src, next).0 == Success
    ensures fs.top !in fs.heap && OneMore(fs, Create(fs, rec, parent, src, next).1)
  {
    var e := NewEntry(rec, parent, src, if rec.inode == 0 then next else rec.inode);
    var fs1 := Born(fs, e);
    BornContent(fs, e);
    AttachContent(fs1, fs.top, parent, rec.me.name);
    OneMoreAttached(fs, fs1, Attach(fs1, fs.top, parent, rec.me.name));
  }

  /** The dentry of this inode has these attributes where the record selects
      them and its old ones elsewhere, its space and the used bytes moved by the
      selected amount, and nothing else in the tree changed. */
  ghost predicate UpdateReads(fs: Fs, fs': Fs, rec: Record, p: Ptr)
    requires p in fs.heap
  {
    && fs'.heap.Keys == fs.heap.Keys
    && var (o, n, s, s') := (rec.options, rec.stat, fs.heap[p].stat, fs'.heap[p].stat);
    && s'.mode == (if o.mode then n.mode else s.mode)
    && s'.uid == (if o.uid then n.uid else s.uid) && s'.gid == (if o.gid then n.gid else s.gid)
    && s'.atime == (if o.atime then n.atime else s.atime) && s'.ctime == (if o.ctime then n.ctime else s.ctime)
    && s'.mtime == (if o.mtime then n.mtime else s.mtime) && s'.btime == s.btime
    && s'.size == (if o.size then n.size else s.size) && s'.spaceEnd == (if o.spaceEnd then n.spaceEnd else s.spaceEnd)
    && s'.alloc == s.alloc + (if o.incAlloc then n.alloc else 0)
    && fs'.usedBytes == fs.usedBytes + (if o.incAlloc then n.alloc else 0)
    && fs'.heap[p].(stat := s) == fs.heap[p] && (forall q :: q in fs.heap && q != p ==> fs'.heap[q] == fs.heap[q])
    && fs'.index == fs.index && fs'.root == fs.root && fs'.top == fs.top && fs'.dirs == fs.dirs && fs'.files == fs.files
  }

  /** An update by inode succeeds if and only if the inode is known. Then the
      selected attributes can be read back, and so they can on a replica that
      applies the logged record to the same tree. */
  lemma UpdateReadsBack(fs: Fs, rec: Record, next: int, version: int, next': int)
    requires Valid(fs) && rec.op == UpdateDentry
    ensures var out := DealByInode(fs, rec, next);
      && out.code == (if rec.inode in fs.index then Success else NoEntry)
      && (out.code == Success ==>
            && var p := fs.index[rec.inode];
            && p in fs.heap && fs.heap[p].inode == rec.inode && UpdateReads(fs, out.fs, rec, p)
            && UpdateReads(fs, DealByInode(fs, Logged(rec.(version := version)), next').fs, rec, p))
  {
    if rec.inode in fs.index {
      UpdateRedone(fs, rec, version, next');
      IndexIsInode(fs, rec.inode);
    }
  }

  /** A size request succeeds if and only if the inode is known. Then size, space
      end, modification time and space read as its flags say, the used bytes moved
      with the space, and nothing else changed. */
  lemma SizeReadsBack(fs: Fs, rec: Record, flags: int, now: int)
    requires Valid(fs)
    ensures var out := Deal(fs, SizeOfFile(rec, flags, now));
      && out.code == (if rec.inode in fs.index then Success else NoEntry)
      && (out.code != Success ==> out.fs == fs)
      && (out.code == Success ==>
            && var p := fs.index[rec.inode];
            && p in fs.heap && out.fs.heap.Keys == fs.heap.Keys
            && var (s, s') := (fs.heap[p].stat, out.fs.heap[p].stat);
            && s'.size == (if !HasFlag(flags, FLAG_FILE_SIZE) then s.size
                           else if HasFlag(flags, FLAG_FORCE) then rec.stat.size else Max(s.size, rec.stat.size))
            && s'.spaceEnd == (if !HasFlag(flags, FLAG_SPACE_END) then s.spaceEnd
                               else if HasFlag(flags, FLAG_FORCE) then rec.stat.size else Max(s.spaceEnd, rec.stat.size))
            && s'.mtime == (if HasFlag(flags, FLAG_FILE_SIZE) || HasFlag(flags, FLAG_MTIME) then now else s.mtime)
            && s'.alloc == s.alloc + (if HasFlag(flags, FLAG_INC_ALLOC) then rec.stat.alloc else 0)
            && out.fs == fs.(heap := fs.heap[p := fs.heap[p].(stat := s.(size := s'.size, spaceEnd := s'.spaceEnd, mtime := s'.mtime, alloc := s'.alloc))],
                             usedBytes := fs.usedBytes + s'.alloc - s.alloc))
  {
    if rec.inode in fs.index {
      IndexIsInode(fs, rec.inode);
      SizeMeaning(fs.heap[fs.index[rec.inode]].stat, rec, flags, now);
    }
  }

  lemma IndexIsInode(fs: Fs, inode: int)
    requires Valid(fs) && inode in fs.index
    ensures fs.index[inode] in fs.heap && fs.heap[fs.index[inode]].inode == inode
  {
  }

  // ------------------------------------------------------------- extended attributes

  /** The attributes of a dentry as the lists of the server keep them. */
  ghost predicate XattrsOk(fs: Fs) {
    forall q :: q in fs.heap ==> DistinctKeys(fs.heap[q].xattrs) && |fs.heap[q].xattrs| <= MAX_XATTRS
  }

  /** A request may set this attribute, or remove it. */
  ghost predicate XattrAllowed(xs: Xattrs, rec: Record) {
    if rec.op == SetXattr then
      if GetXattr(xs, rec.xattrKey).Some? then rec.flags != XATTR_CREATE else rec.flags != XATTR_REPLACE && |xs| < MAX_XATTRS
    else GetXattr(xs, rec.xattrKey).Some?
  }

  /** The answer to a refused change: the attribute is there, is not there, or does
      not fit. */
  ghost predicate XattrRefusal(xs: Xattrs, rec: Record, code: Code) {
    var there := GetXattr(xs, rec.xattrKey).Some?;
    code == if there then Exists else if rec.op == RemoveXattr || rec.flags == XATTR_REPLACE then NoData else Overflow
  }

  /** The attribute that the request names reads as it says, all others and the
      rest of the tree as before. */
  ghost predicate XattrReads(fs: Fs, fs': Fs, rec: Record, p: Ptr)
    requires p in fs.heap
  {
    && p in fs'.heap && fs' == fs.(heap := fs.heap[p := fs.heap[p].(xattrs := fs'.heap[p].xattrs)])
    && GetXattr(fs'.heap[p].xattrs, rec.xattrKey) == (if rec.op == SetXattr then Some(rec.xattrValue) else None)
    && forall key :: key != rec.xattrKey ==> GetXattr(fs'.heap[p].xattrs, key) == GetXattr(fs.heap[p].xattrs, key)
  }

  lemma XattrListMeaning(xs: Xattrs, rec: Record, code: Code, xs': Xattrs)
    requires DistinctKeys(xs) && |xs| <= MAX_XATTRS
    requires (code, xs') == if rec.op == SetXattr then PutXattr(xs, rec.xattrKey, rec.xattrValue, rec.flags) else DropXattr(xs, rec.xattrKey)
    requires rec.op == SetXattr || rec.op == RemoveXattr
    ensures DistinctKeys(xs') && |xs'| <= MAX_XATTRS
    ensures if XattrAllowed(xs, rec) then code == Success else XattrRefusal(xs, rec, code)
    ensures code == Success ==> GetXattr(xs', rec.xattrKey) == if rec.op == SetXattr then Some(rec.xattrValue) else None
    ensures code == Success ==> forall key :: key != rec.xattrKey ==> GetXattr(xs', key) == GetXattr(xs, key)
  {
    if rec.op == SetXattr {
      SetXattrMeaning(xs, rec.xattrKey, rec.xattrValue, rec.flags, rec.xattrKey);
    } else {
      RemoveXattrMeaning(xs, rec.xattrKey, rec.xattrKey);
    }
    forall key | key != rec.xattrKey
      ensures GetXattr(xs', key) == GetXattr(xs, key)
    {
      if rec.op == SetXattr {
        SetXattrMeaning(xs, rec.xattrKey, rec.xattrValue, rec.flags, key);
      } else {
        RemoveXattrMeaning(xs, rec.xattrKey, key);
      }
    }
  }

  lemma XattrAtMeaning(fs: Fs, rec: Record, p: Ptr)
    requires XattrsOk(fs) && p in fs.heap && (rec.op == SetXattr || rec.op == RemoveXattr)
    ensures var xs := fs.heap[p].xattrs;
      if XattrAllowed(xs, rec) then XattrAt(fs, rec, p).code == Success else XattrRefusal(xs, rec, XattrAt(fs, rec, p).code)
    ensures if XattrAt(fs, rec, p).code == Success then XattrReads(fs, XattrAt(fs, rec, p).fs, rec, p) else XattrAt(fs, rec, p).fs == fs
    ensures XattrsOk(XattrAt(fs, rec, p).fs)
  {
    var xs := fs.heap[p].xattrs;
    var (code, xs') :=
      if rec.op == SetXattr then PutXattr(xs, rec.xattrKey, rec.xattrValue, rec.flags) else DropXattr(xs, rec.xattrKey);
    XattrListMeaning(xs, rec, code, xs');
  }

  /** By inode, an attribute change succeeds if and only if the inode is known
      and the flags, the limit and the attributes there allow it; then the
      attribute reads as asked. A refusal says why and changes nothing. */
  lemma XattrByInodeReadsBack(fs: Fs, rec: Record, next: int)
    requires Valid(fs) && XattrsOk(fs) && (rec.op == SetXattr || rec.op == RemoveXattr)
    ensures var out := DealByInode(fs, rec, next);
      if rec.inode !in fs.index then out.code == NoEntry && out.fs == fs
      else
        && var p := fs.index[rec.inode];
        && p in fs.heap
        && if XattrAllowed(fs.heap[p].xattrs, rec) then out.code == Success && XattrReads(fs, out.fs, rec, p)
           else XattrRefusal(fs.heap[p].xattrs, rec, out.code) && out.fs == fs
  {
    if rec.inode in fs.index {
      IndexIsInode(fs, rec.inode);
      XattrAtMeaning(fs, rec, fs.index[rec.inode]);
    }
  }

  /** By path, the same of the file that the path leads to, through a hard link
      or not. */
  lemma XattrByPathReadsBack(fs: Fs, rec: Record, path: string, srcPath: string, next: int)
    requires Valid(fs) && XattrsOk(fs) && (rec.op == SetXattr || rec.op == RemoveXattr)
    ensures var out := DealByPath(fs, rec, path, srcPath, next);
      && (out.code == Success <==>
            exists f :: LeadsToFile(fs, path, f) && f in fs.heap && XattrAllowed(fs.heap[f].xattrs, rec))
      && (out.code == Success ==> forall f :: LeadsToFile(fs, path, f) ==> f in fs.heap && XattrReads(fs, out.fs, rec, f))
  {
    var (found, p) := FindAndFollow(fs, path);
    forall f: Ptr
      ensures FindAndFollow(fs, path) == (Success, Some(f)) <==> LeadsToFile(fs, path, f)
    {
      FollowIs(fs, path, f);
    }
    if found == Success {
      XattrAtMeaning(fs, rec.(inode := fs.heap[p.value].inode), p.value);
    }
  }

  // ------------------------------------------------------------------- the whole run

  lemma ContentKeepsXattrs(fs: Fs, fs': Fs)
    requires XattrsOk(fs) && KeepsContent(fs, fs')
    ensures XattrsOk(fs')
  {
  }

  lemma CreateKeepsXattrs(fs: Fs, rec: Record, parent: Option<Ptr>, src: Option<Ptr>, next: int)
    requires Shape(fs, {}) && CreateReady(fs, rec, parent, src) && next != 0 && XattrsOk(fs)
    ensures XattrsOk(Create(fs, rec, parent, src, next).1)
  {
    if Create(fs, rec, parent, src, next).0 == Success {
      CreateContent(fs, rec, parent, src, next);
      PathMeaning.CreateAttributes(fs, rec, parent, src, next);
      var fs' := Create(fs, rec, parent, src, next).1;
      forall q | q in fs'.heap
        ensures DistinctKeys(fs'.heap[q].xattrs) && |fs'.heap[q].xattrs| <= MAX_XATTRS
      {
        assert q in fs'.heap.Keys;
        assert q != fs.top ==> q in fs.heap && SameContent(fs.heap[q], fs'.heap[q]);
      }
    }
  }

  lemma CreateAtKeepsXattrs(fs: Fs, rec: Record, parent: Option<Ptr>, src: Option<Ptr>, next: int)
    requires Valid(fs) && LiveParent(fs, parent) && LiveParent(fs, src) && (rec.stat.mode.hardLink ==> src.Some?) && next != 0 && XattrsOk(fs)
    ensures XattrsOk(CreateAt(fs, rec, parent, src, next).fs)
  {
    if !rec.stat.mode.hardLink {
      CreateKeepsXattrs(fs, rec, parent, None, next);
    } else if !IsDir(fs.heap[src.value]) && !IsLink(fs.heap[src.value]) {
      CreateKeepsXattrs(fs, WithKind(rec, fs.heap[src.value].stat.mode.kind), parent, src, next);
    }
  }

  lemma StatKeepsXattrs(fs: Fs, p: Ptr, stat: Stat)
    requires p in fs.heap && XattrsOk(fs)
    ensures XattrsOk(SetStat(fs, p, stat))
  {
  }

  lemma InodeKeepsXattrs(fs: Fs, rec: Record, next: int)
    requires Valid(fs) && next != 0 && XattrsOk(fs)
    ensures XattrsOk(DealByInode(fs, rec, next).fs)
  {
    match rec.op
    case CreateDentry =>
      var parent, src := ByInode(fs, rec.me.parentInode), ByInode(fs, rec.srcInode);
      if !(rec.stat.mode.hardLink && src.None?) {
        CreateAtKeepsXattrs(fs, rec, parent, src, next);
      }
    case RemoveDentry =>
      var parent := ByInode(fs, rec.me.parentInode);
      RemoveContent(fs, rec, parent);
      ContentKeepsXattrs(fs, Remove(fs, rec, parent).1);
    case RenameDentry =>
      var sp, dp := ByInode(fs, rec.src.parentInode), ByInode(fs, rec.me.parentInode);
      RenameContent(fs, rec, sp, dp, Rename(fs, rec, sp, dp).1);
      ContentKeepsXattrs(fs, Rename(fs, rec, sp, dp).1);
    case UpdateDentry =>
      if rec.inode in fs.index {
        var p := fs.index[rec.inode];
        StatKeepsXattrs(fs, p, UpdatedStat(fs.heap[p].stat, rec));
      }
    case NoOp =>
    case _ =>
      if rec.inode in fs.index {
        XattrAtMeaning(fs, rec, fs.index[rec.inode]);
      }
  }

  /** The record that a successful request by path turns into, dealt with by
      inode, leaves the same tree. So what holds after requests by inode holds
      after requests by path. */
  lemma DealKeepsXattrs(fs: Fs, req: Request)
    requires Valid(fs) && Prepared(fs, req) && XattrsOk(fs)
    ensures XattrsOk(Deal(fs, req).fs)
  {
    if Deal(fs, req).code == Success {
      DealReplays(fs, req, 0, 1);
      InodeKeepsXattrs(fs, Logged(Deal(fs, req).rec.(version := 0)), 1);
    } else {
      DealSound(fs, req);
    }
  }

  /** In every tree that requests lead to, a dentry has at most 64 attributes and
      no attribute twice. */
  lemma {:induction false} XattrsAlwaysOk(reqs: seq<Request>)
    ensures XattrsOk(RunMaster(reqs).fs)
  {
    if reqs != [] {
      var m := RunMaster(reqs[..|reqs| - 1]);
      var req := reqs[|reqs| - 1];
      XattrsAlwaysOk(reqs[..|reqs| - 1]);
      if Prepared(m.fs, req) {
        DealKeepsXattrs(m.fs, req);
      }
    }
  }

  /** The master takes a request as it is dealt with: the tree is the outcome's,
      and exactly the successful requests, but no size request that changed
      nothing, are numbered and logged. */
  lemma StepExact(m: Master, req: Request)
    requires Valid(m.fs) && Prepared(m.fs, req)
    ensures var (out, m') := (Deal(m.fs, req), Step(m, req));
      && m'.fs == out.fs
      && (m' == m <==> out.code != Success || (req.SizeOfFile? && out.rec.options == NO_OPTIONS))
      && (m' != m ==> m'.version == m.version + 1 && m'.log == m.log + [out.rec.(version := m.version + 1)])
  {
    var out := Deal(m.fs, req);
    if !IsLogged(req, out) {
      QuietStep(m.fs, req);
    }
  }
}
