/**
 A replica that applies what the master logged holds the master's tree.
 */
module Replication {
  import opened Wrappers
  import opened Record
  import opened Dentry
  import opened DentryAccounting
  import opened DentryOps
  import opened DentrySpace
  import opened InodeUpdates
  import opened Paths
  import opened DataThread

  // -------------------------------------------------- what the service layer prepares

  /** The fields a create request carries: all times the same, no size, the
      link target of a symlink and the file of a hard link selected. */
  ghost predicate CreateFields(rec: Record) {
    var o, s := rec.options, rec.stat;
    && o.mode && o.atime && o.btime && o.ctime && o.mtime && o.uid && o.gid && !o.size
    && s.size == 0 && s.btime == s.atime
    && (s.mode.hardLink ==> o.srcInode)
    && (!s.mode.hardLink && s.mode.kind == KIND_LINK ==> o.link)
  }

  /** The type of a file is not the business of an attribute update. */
  ghost predicate KeepsType(fs: Fs, rec: Record) {
    rec.options.mode && rec.inode in fs.index && fs.index[rec.inode] in fs.heap ==>
      && !rec.stat.mode.hardLink
      && (rec.stat.mode.kind == KIND_DIR <==> IsDir(fs.heap[fs.index[rec.inode]]))
  }

  ghost predicate PreparedRecord(fs: Fs, rec: Record) {
    match rec.op
    case CreateDentry => CreateFields(rec)
    case UpdateDentry => KeepsType(fs, rec)
    case _ => true
  }

  ghost predicate Prepared(fs: Fs, req: Request) {
    match req
    case PathRequest(rec, _, _, next) => PreparedRecord(fs, rec) && next != 0 && rec.op != NoOp
    case InodeRequest(rec, next) =>
      PreparedRecord(fs, rec) && next != 0 && rec.op != NoOp && (rec.op in {CreateDentry, RemoveDentry, RenameDentry} ==> rec.options.path)
    case SizeOfFile(_, _, _) => true
  }

  // -------------------------------------------------------------- resolving by inode

  lemma RealByInode(fs: Fs, p: Ptr)
    requires Indexed(fs) && p in fs.heap && !IsLink(fs.heap[p])
    ensures ByInode(fs, fs.heap[p].inode) == Some(p) && fs.heap[p].inode != 0
  {
    assert HasKey(fs, p);
  }

  lemma DirByInode(fs: Fs, parent: Option<Ptr>)
    requires Books(fs) && LiveParent(fs, parent) && (parent.Some? ==> IsDir(fs.heap[parent.value]))
    ensures ByInode(fs, InodeOf(fs, parent)) == parent
    ensures InodeOf(fs, parent) != 0 <==> parent.Some?
  {
    if parent.Some? {
      assert LinkOk(fs.heap, parent.value);
      RealByInode(fs, parent.value);
    }
  }

  // ------------------------------------------------------------ one logged operation

  /** Applying the logged record succeeds and gives the same tree. */
  ghost predicate Redone(fs: Fs, out: Outcome, version: int, next: int)
    requires Valid(fs)
  {
    var again := DealByInode(fs, Logged(out.rec.(version := version)), next);
    again.code == Success && again.fs == out.fs
  }

  lemma SameNewEntry(rec: Record, parent: Option<Ptr>, src: Option<Ptr>, inode: int, version: int)
    requires CreateFields(rec) && rec.options.path
    ensures NewEntry(Logged(rec.(version := version, inode := inode)), parent, src, inode) == NewEntry(rec, parent, src, inode)
  {
  }

  lemma CreateAgain(fs: Fs, rec: Record, parent: Option<Ptr>, src: Option<Ptr>, next: int, version: int, next': int)
    requires CreateReady(fs, rec, parent, src) && CreateFields(rec) && rec.options.path && next != 0
    requires Create(fs, rec, parent, src, next).0 == Success
    ensures var rec' := Logged(Create(fs, rec, parent, src, next).2.(version := version));
      && CreateReady(fs, rec', parent, src)
      && Create(fs, rec', parent, src, next').0 == Success
      && Create(fs, rec', parent, src, next').1 == Create(fs, rec, parent, src, next).1
  {
    var inode := if rec.inode == 0 then next else rec.inode;
    SameNewEntry(rec, parent, src, inode, version);
  }

  lemma CreateParentIsDir(fs: Fs, rec: Record, parent: Option<Ptr>, src: Option<Ptr>, next: int)
    requires CreateReady(fs, rec, parent, src) && Create(fs, rec, parent, src, next).0 == Success
    ensures parent.Some? ==> IsDir(fs.heap[parent.value])
  {
  }

  lemma DealCreate(fs: Fs, rec: Record, parent: Option<Ptr>, next: int)
    requires Valid(fs) && rec.op == CreateDentry && !rec.stat.mode.hardLink && LiveParent(fs, parent)
    requires ByInode(fs, rec.me.parentInode) == parent && (rec.me.parentInode != 0 <==> parent.Some?)
    ensures DealByInode(fs, rec, next) == CreateAt(fs, rec, parent, None, next)
  {
  }

  lemma CreateFileRedone(fs: Fs, rec: Record, parent: Option<Ptr>, next: int, version: int, next': int)
    requires Valid(fs) && LiveParent(fs, parent) && !rec.stat.mode.hardLink
    requires rec.op == CreateDentry && CreateFields(rec) && rec.options.path && next != 0
    requires Create(fs, rec, parent, None, next).0 == Success && rec.me.parentInode == InodeOf(fs, parent)
    ensures Redone(fs, CreateAt(fs, rec, parent, None, next), version, next')
  {
    CreateParentIsDir(fs, rec, parent, None, next);
    DirByInode(fs, parent);
    CreateAgain(fs, rec, parent, None, next, version, next');
    DealCreate(fs, Logged(Create(fs, rec, parent, None, next).2.(version := version)), parent, next');
  }

  lemma CreateLinkRedone(fs: Fs, rec: Record, parent: Option<Ptr>, src: Ptr, next: int, version: int, next': int)
    requires Valid(fs) && LiveParent(fs, parent) && src in fs.heap && !IsLink(fs.heap[src]) && !IsDir(fs.heap[src])
    requires rec.stat.mode.hardLink && rec.srcInode == fs.heap[src].inode
    requires rec.op == CreateDentry && CreateFields(rec) && rec.options.path && next != 0
    requires Create(fs, WithKind(rec, fs.heap[src].stat.mode.kind), parent, Some(src), next).0 == Success
    requires rec.me.parentInode == InodeOf(fs, parent)
    ensures Redone(fs, CreateAt(fs, rec, parent, Some(src), next), version, next')
  {
    var rec1 := WithKind(rec, fs.heap[src].stat.mode.kind);
    CreateParentIsDir(fs, rec1, parent, Some(src), next);
    CreateAgain(fs, rec1, parent, Some(src), next, version, next');
    DirByInode(fs, parent);
    RealByInode(fs, src);
    var again := Logged(Create(fs, rec1, parent, Some(src), next).2.(version := version));
    assert WithKind(again, fs.heap[src].stat.mode.kind) == again;
  }

  lemma CreateRedone(fs: Fs, rec: Record, parent: Option<Ptr>, src: Option<Ptr>, next: int, version: int, next': int)
    requires Valid(fs) && LiveParent(fs, parent) && LiveParent(fs, src) && (rec.stat.mode.hardLink ==> src.Some?)
    requires rec.op == CreateDentry && CreateFields(rec) && rec.options.path && next != 0
    requires CreateAt(fs, rec, parent, src, next).code == Success
    requires rec.me.parentInode == InodeOf(fs, parent)
    requires rec.stat.mode.hardLink ==> rec.srcInode == fs.heap[src.value].inode
    ensures Redone(fs, CreateAt(fs, rec, parent, src, next), version, next')
  {
    if rec.stat.mode.hardLink {
      CreateLinkRedone(fs, rec, parent, src.value, next, version, next');
    } else {
      CreateFileRedone(fs, rec, parent, next, version, next');
    }
  }

  lemma RemoveRedone(fs: Fs, rec: Record, parent: Option<Ptr>, version: int, next: int)
    requires Valid(fs) && LiveParent(fs, parent) && rec.op == RemoveDentry && rec.options.path
    requires RemoveAt(fs, rec, parent).code == Success && rec.me.parentInode == InodeOf(fs, parent)
    ensures Redone(fs, RemoveAt(fs, rec, parent), version, next)
  {
    DirByInode(fs, parent);
  }

  lemma RenameRedone(fs: Fs, rec: Record, sp: Option<Ptr>, dp: Option<Ptr>, version: int, next: int)
    requires Valid(fs) && LiveParent(fs, sp) && LiveParent(fs, dp) && rec.op == RenameDentry && rec.options.path
    requires RenameAt(fs, rec, sp, dp).code == Success
    requires rec.src.parentInode == InodeOf(fs, sp) && rec.me.parentInode == InodeOf(fs, dp)
    ensures Redone(fs, RenameAt(fs, rec, sp, dp), version, next)
  {
    CheckedOf(fs, rec, sp, dp);
    DirByInode(fs, sp);
    DirByInode(fs, dp);
    SameRename(fs, rec, Logged(RenameAt(fs, rec, sp, dp).rec.(version := version)), sp, dp);
  }

  lemma SameCheck(fs: Fs, rec: Record, rec': Record, sp: Option<Ptr>, dp: Option<Ptr>)
    requires Shape(fs, {}) && LiveParent(fs, sp) && LiveParent(fs, dp)
    requires rec'.me == rec.me && rec'.src == rec.src && rec'.flags == rec.flags
    ensures RenameCheck(fs, rec', sp, dp) == RenameCheck(fs, rec, sp, dp)
  {
  }

  lemma SameRenamed(fs: Fs, rec: Record, rec': Record, sp: Ptr, dp: Ptr, s: Ptr, d: Option<Ptr>)
    requires Valid(fs) && Checked(fs, rec, sp, dp, s, d) && d != Some(s) && !Refused(fs, sp, dp, s, d)
    requires rec'.me == rec.me && rec'.src == rec.src && rec'.flags == rec.flags
    ensures Checked(fs, rec', sp, dp, s, d) && Renamed(fs, rec', sp, dp, s, d) == Renamed(fs, rec, sp, dp, s, d)
  {
  }

  lemma SameRename(fs: Fs, rec: Record, rec': Record, sp: Option<Ptr>, dp: Option<Ptr>)
    requires Valid(fs) && LiveParent(fs, sp) && LiveParent(fs, dp)
    requires rec'.me == rec.me && rec'.src == rec.src && rec'.flags == rec.flags
    ensures Rename(fs, rec', sp, dp).0 == Rename(fs, rec, sp, dp).0
    ensures Rename(fs, rec', sp, dp).1 == Rename(fs, rec, sp, dp).1
  {
    SameCheck(fs, rec, rec', sp, dp);
    var (code, s, d) := RenameCheck(fs, rec, sp, dp);
    if code == Success {
      CheckedOf(fs, rec, sp, dp);
      if d != s && !Refused(fs, sp.value, dp.value, s.value, d) {
        SameRenamed(fs, rec, rec', sp.value, dp.value, s.value, d);
      }
    }
  }

  lemma UpdateRedone(fs: Fs, rec: Record, version: int, next: int)
    requires Valid(fs) && rec.op == UpdateDentry && Update(fs, rec).0 == Success
    ensures Redone(fs, Outcome(Success, Update(fs, rec).1, rec), version, next)
  {
    var p := fs.index[rec.inode];
    var again := Logged(rec.(version := version));
    assert UpdatedStat(fs.heap[p].stat, again) == UpdatedStat(fs.heap[p].stat, rec);
  }

  lemma XattrRedone(fs: Fs, rec: Record, p: Ptr, version: int, next: int)
    requires Valid(fs) && (rec.op == SetXattr || rec.op == RemoveXattr)
    requires p in fs.heap && !IsLink(fs.heap[p]) && rec.inode == fs.heap[p].inode
    requires XattrAt(fs, rec, p).code == Success
    ensures Redone(fs, XattrAt(fs, rec, p), version, next)
  {
    RealByInode(fs, p);
    if rec.op == SetXattr {
      SetXattrReplays(fs.heap[p].xattrs, rec.xattrKey, rec.xattrValue, rec.flags);
    }
  }

  lemma SizeRedone(fs: Fs, rec: Record, flags: int, now: int, version: int, next: int)
    requires Valid(fs) && SetSize(fs, rec, flags, now).0 == Success
    ensures var (_, fs', rec') := SetSize(fs, rec, flags, now); Redone(fs, Outcome(Success, fs', rec'), version, next)
  {
    SizeReplays(fs, rec, flags, now);
    UpdateRedone(fs, SetSize(fs, rec, flags, now).2, version, next);
  }

  lemma InodeRedone(fs: Fs, rec: Record, next: int, version: int, next': int)
    requires Valid(fs) && PreparedRecord(fs, rec) && next != 0
    requires rec.op in {CreateDentry, RemoveDentry, RenameDentry} ==> rec.options.path
    requires DealByInode(fs, rec, next).code == Success
    ensures Redone(fs, DealByInode(fs, rec, next), version, next')
  {
    match rec.op
    case CreateDentry =>
      CreateRedone(fs, rec, ByInode(fs, rec.me.parentInode), ByInode(fs, rec.srcInode), next, version, next');
    case RemoveDentry =>
      RemoveRedone(fs, rec, ByInode(fs, rec.me.parentInode), version, next');
    case RenameDentry =>
      RenameRedone(fs, rec, ByInode(fs, rec.src.parentInode), ByInode(fs, rec.me.parentInode), version, next');
    case UpdateDentry => UpdateRedone(fs, rec, version, next');
    case NoOp =>
    case _ => XattrRedone(fs, rec, fs.index[rec.inode], version, next');
  }

  lemma PathCreateRedone(fs: Fs, rec: Record, path: string, srcPath: string, next: int, version: int, next': int)
    requires Valid(fs) && rec.op == CreateDentry && CreateFields(rec) && next != 0
    requires CreateByPath(fs, rec, path, srcPath, next).code == Success
    ensures Redone(fs, CreateByPath(fs, rec, path, srcPath, next), version, next')
  {
    var (code, parent, name) := FindParent(fs, path);
    if rec.stat.mode.hardLink {
      var src := FindAndFollow(fs, srcPath).1;
      CreateRedone(fs, SetMe(fs, rec, parent, name).(srcInode := fs.heap[src.value].inode), parent, src, next, version, next');
    } else {
      CreateRedone(fs, SetMe(fs, rec, parent, name), parent, None, next, version, next');
    }
  }

  lemma PathXattrRedone(fs: Fs, rec: Record, path: string, srcPath: string, next: int, version: int, next': int)
    requires Valid(fs) && (rec.op == SetXattr || rec.op == RemoveXattr)
    requires DealByPath(fs, rec, path, srcPath, next).code == Success
    ensures Redone(fs, DealByPath(fs, rec, path, srcPath, next), version, next')
  {
    var p := FindAndFollow(fs, path).1.value;
    XattrRedone(fs, rec.(inode := fs.heap[p].inode), p, version, next');
  }

  lemma PathRedone(fs: Fs, rec: Record, path: string, srcPath: string, next: int, version: int, next': int)
    requires Valid(fs) && PreparedRecord(fs, rec) && next != 0
    requires DealByPath(fs, rec, path, srcPath, next).code == Success
    ensures Redone(fs, DealByPath(fs, rec, path, srcPath, next), version, next')
  {
    var (code, parent, name) := FindParent(fs, path);
    match rec.op
    case CreateDentry => PathCreateRedone(fs, rec, path, srcPath, next, version, next');
    case RemoveDentry => RemoveRedone(fs, SetMe(fs, rec, parent, name), parent, version, next');
    case RenameDentry =>
      var (_, srcParent, srcName) := FindParent(fs, srcPath);
      RenameRedone(fs, SetMe(fs, rec, parent, name).(src := PName(fs.heap[srcParent.value].inode, srcName)), srcParent, parent, version, next');
    case UpdateDentry => UpdateRedone(fs, rec, version, next');
    case NoOp =>
    case _ => PathXattrRedone(fs, rec, path, srcPath, next, version, next');
  }

  /** Whatever a master did successfully, the record it logs does again, by
      inode, on the same tree. */
  lemma DealReplays(fs: Fs, req: Request, version: int, next: int)
    requires Valid(fs) && Prepared(fs, req) && Deal(fs, req).code == Success
    ensures Redone(fs, Deal(fs, req), version, next)
  {
    match req
    case PathRequest(rec, path, srcPath, n) => PathRedone(fs, rec, path, srcPath, n, version, next);
    case InodeRequest(rec, n) => InodeRedone(fs, rec, n, version, next);
    case SizeOfFile(rec, flags, now) => SizeRedone(fs, rec, flags, now, version, next);
  }

  // --------------------------------------------------------------- what updates keep

  lemma XattrsShape(fs: Fs, p: Ptr, xs: Xattrs)
    requires Shape(fs, {}) && p in fs.heap
    ensures Shape(WithXattrs(fs, p, xs), {})
  {
    var fs' := WithXattrs(fs, p, xs);
    forall q, name | q in fs'.heap && name in fs'.heap[q].children
      ensures ChildOk(fs'.heap, {}, q, name)
    {
      assert ChildOk(fs.heap, {}, q, name);
    }
    forall c | c in fs.heap
      ensures Attached(fs', c) <==> Attached(fs, c)
    {
    }
  }

  lemma XattrsNlink(fs: Fs, p: Ptr, xs: Xattrs, c: Ptr)
    requires p in fs.heap && c in fs.heap && NlinkOk(fs, {}, c)
    ensures NlinkOk(WithXattrs(fs, p, xs), {}, c)
  {
    LinksSame(fs, WithXattrs(fs, p, xs), c);
    assert Attached(WithXattrs(fs, p, xs), c) <==> Attached(fs, c);
  }

  lemma XattrsKeepValid(fs: Fs, p: Ptr, xs: Xattrs)
    requires Valid(fs) && p in fs.heap
    ensures Valid(WithXattrs(fs, p, xs))
  {
    var fs' := WithXattrs(fs, p, xs);
    XattrsShape(fs, p, xs);
    SameParentsAcyclic(fs, fs', {});
    SameEntriesBooks(fs, fs');
    forall c | c in fs'.heap
      ensures NlinkOk(fs', {}, c)
    {
      assert NlinkOk(fs, {}, c);
      XattrsNlink(fs, p, xs, c);
    }
  }

  /** The outcome is a tree in order, and the old tree after a failure. */
  ghost predicate Sound(fs: Fs, out: Outcome) {
    Valid(out.fs) && (out.code != Success ==> out.fs == fs)
  }

  lemma CreateAtSound(fs: Fs, rec: Record, parent: Option<Ptr>, src: Option<Ptr>, next: int)
    requires Valid(fs) && LiveParent(fs, parent) && LiveParent(fs, src) && (rec.stat.mode.hardLink ==> src.Some?) && next != 0
    ensures Sound(fs, CreateAt(fs, rec, parent, src, next))
  {
    if !rec.stat.mode.hardLink {
      CreateKeepsValid(fs, rec, parent, None, next);
    } else if !IsDir(fs.heap[src.value]) && !IsLink(fs.heap[src.value]) {
      CreateKeepsValid(fs, WithKind(rec, fs.heap[src.value].stat.mode.kind), parent, src, next);
    }
  }

  lemma XattrAtSound(fs: Fs, rec: Record, p: Ptr)
    requires Valid(fs) && p in fs.heap
    ensures Sound(fs, XattrAt(fs, rec, p))
  {
    forall xs
      ensures Valid(WithXattrs(fs, p, xs))
    {
      XattrsKeepValid(fs, p, xs);
    }
  }

  lemma UpdateSound(fs: Fs, rec: Record)
    requires Valid(fs) && KeepsType(fs, rec)
    ensures Sound(fs, Outcome(Update(fs, rec).0, Update(fs, rec).1, rec))
  {
    if rec.inode in fs.index {
      UpdateValidExact(fs, rec);
    }
  }

  lemma InodeSound(fs: Fs, rec: Record, next: int)
    requires Valid(fs) && PreparedRecord(fs, rec) && next != 0
    ensures Sound(fs, DealByInode(fs, rec, next))
  {
    match rec.op
    case CreateDentry =>
      var parent, src := ByInode(fs, rec.me.parentInode), ByInode(fs, rec.srcInode);
      if !(rec.stat.mode.hardLink && src.None?) {
        CreateAtSound(fs, rec, parent, src, next);
      }
    case RemoveDentry => RemoveKeepsValid(fs, rec, ByInode(fs, rec.me.parentInode));
    case RenameDentry => RenameKeepsValid(fs, rec, ByInode(fs, rec.src.parentInode), ByInode(fs, rec.me.parentInode));
    case UpdateDentry => UpdateSound(fs, rec);
    case NoOp =>
    case _ =>
      if rec.inode in fs.index {
        XattrAtSound(fs, rec, fs.index[rec.inode]);
      }
  }

  lemma PathCreateSound(fs: Fs, rec: Record, path: string, srcPath: string, next: int)
    requires Valid(fs) && next != 0
    ensures Sound(fs, CreateByPath(fs, rec, path, srcPath, next))
  {
    var (code, parent, name) := FindParent(fs, path);
    if rec.stat.mode.hardLink {
      var (found, src) := FindAndFollow(fs, srcPath);
      if found == Success {
        CreateAtSound(fs, SetMe(fs, rec, parent, name).(srcInode := fs.heap[src.value].inode), parent, src, next);
      }
    } else {
      CreateAtSound(fs, SetMe(fs, rec, parent, name), parent, None, next);
    }
  }

  lemma PathRenameSound(fs: Fs, rec: Record, path: string, srcPath: string)
    requires Valid(fs)
    ensures Sound(fs, RenameByPath(fs, rec, path, srcPath))
  {
    var (_, parent, name) := FindParent(fs, path);
    var (_, srcParent, srcName) := FindParent(fs, srcPath);
    if srcParent.Some? {
      RenameKeepsValid(fs, SetMe(fs, rec, parent, name).(src := PName(fs.heap[srcParent.value].inode, srcName)), srcParent, parent);
    }
  }

  lemma PathSound(fs: Fs, rec: Record, path: string, srcPath: string, next: int)
    requires Valid(fs) && PreparedRecord(fs, rec) && next != 0
    ensures Sound(fs, DealByPath(fs, rec, path, srcPath, next))
  {
    var (code, parent, name) := FindParent(fs, path);
    match rec.op
    case CreateDentry => PathCreateSound(fs, rec, path, srcPath, next);
    case RemoveDentry => RemoveKeepsValid(fs, SetMe(fs, rec, parent, name), parent);
    case RenameDentry => PathRenameSound(fs, rec, path, srcPath);
    case UpdateDentry => UpdateSound(fs, rec);
    case NoOp =>
    case _ =>
      var (found, p) := FindAndFollow(fs, path);
      if found == Success {
        XattrAtSound(fs, rec.(inode := fs.heap[p.value].inode), p.value);
      }
  }

  /** Every request leaves the tree in order, and a failed one leaves it alone. */
  lemma DealSound(fs: Fs, req: Request)
    requires Valid(fs) && Prepared(fs, req)
    ensures Sound(fs, Deal(fs, req))
  {
    match req
    case PathRequest(rec, path, srcPath, next) => PathSound(fs, rec, path, srcPath, next);
    case InodeRequest(rec, next) => InodeSound(fs, rec, next);
    case SizeOfFile(rec, flags, now) => SetSizeKeepsValid(fs, rec, flags, now);
  }

  // --------------------------------------------------------------------------- runs

  datatype Master = Master(fs: Fs, version: nat, log: seq<Record>)

  /** A size request that changed nothing is not numbered and not logged. */
  predicate IsLogged(req: Request, out: Outcome) {
    out.code == Success && !(req.SizeOfFile? && out.rec.options == NO_OPTIONS)
  }

  function Commit(m: Master, req: Request, out: Outcome): Master {
    if IsLogged(req, out) then Master(out.fs, m.version + 1, m.log + [out.rec.(version := m.version + 1)])
    else m.(fs := out.fs)
  }

  ghost function Step(m: Master, req: Request): (m': Master)
    requires Valid(m.fs)
    ensures Valid(m'.fs)
  {
    if !Prepared(m.fs, req) then m
    else
      DealSound(m.fs, req);
      Commit(m, req, Deal(m.fs, req))
  }

  /** The master after a sequence of requests; a request that the service layer
      would not have formed is dropped before it gets here. */
  ghost function RunMaster(reqs: seq<Request>): (m: Master)
    ensures Valid(m.fs)
  {
    if reqs == [] then
      EmptyIsValid();
      Master(EMPTY_FS, 0, [])
    else Step(RunMaster(reqs[..|reqs| - 1]), reqs[|reqs| - 1])
  }

  /** A replica after the records it was sent; None once one of them failed. */
  ghost function Replay(log: seq<Record>): Option<Fs> {
    if log == [] then Some(EMPTY_FS)
    else
      var before := Replay(log[..|log| - 1]);
      if before.None? || !Valid(before.value) then None
      else
        var out := DealByInode(before.value, log[|log| - 1], 0);
        if out.code == Success then Some(out.fs) else None
  }

  /** The records as a replica reads them. */
  function ReadBack(log: seq<Record>): seq<Record> {
    seq(|log|, i requires 0 <= i < |log| => Logged(log[i]))
  }

  /** fs' is what the logged record makes of fs. */
  ghost predicate Applied(fs: Fs, rec: Record, fs': Fs) {
    Valid(fs) && DealByInode(fs, Logged(rec), 0).code == Success && DealByInode(fs, Logged(rec), 0).fs == fs'
  }

  /** The trees a replica goes through. */
  ghost predicate Follows(log: seq<Record>, trees: seq<Fs>) {
    && |trees| == |log| + 1 && trees[0] == EMPTY_FS
    && forall i {:trigger Applied(trees[i], log[i], trees[i + 1])} :: 0 <= i < |log| ==> Applied(trees[i], log[i], trees[i + 1])
  }

  lemma FollowsMore(log: seq<Record>, trees: seq<Fs>, rec: Record, fs: Fs)
    requires Follows(log, trees) && Applied(trees[|log|], rec, fs)
    ensures Follows(log + [rec], trees + [fs])
  {
    var log', trees' := log + [rec], trees + [fs];
    forall i | 0 <= i < |log'|
      ensures Applied(trees'[i], log'[i], trees'[i + 1])
    {
      if i < |log| {
        assert Applied(trees[i], log[i], trees[i + 1]);
      }
    }
  }

  lemma ReplayMore(log: seq<Record>, rec: Record, before: Fs, fs: Fs)
    requires Replay(log) == Some(before) && Applied(before, rec, fs)
    ensures Replay(log + [Logged(rec)]) == Some(fs)
  {
    assert (log + [Logged(rec)])[..|log|] == log;
  }

  lemma FollowsLess(log: seq<Record>, trees: seq<Fs>, n: nat)
    requires Follows(log, trees) && n <= |log|
    ensures Follows(log[..n], trees[..n + 1])
  {
    forall i | 0 <= i < n
      ensures Applied(trees[..n + 1][i], log[..n][i], trees[..n + 1][i + 1])
    {
      assert Applied(trees[i], log[i], trees[i + 1]);
    }
  }

  lemma LastApplied(log: seq<Record>, trees: seq<Fs>, before: Fs, rec: Record, after: Fs)
    requires Follows(log, trees) && log != []
    requires before == trees[|log| - 1] && rec == log[|log| - 1] && after == trees[|log|]
    ensures Applied(before, rec, after)
  {
    var i := |log| - 1;
    assert Applied(trees[i], log[i], trees[i + 1]);
  }

  lemma ReadBackLast(log: seq<Record>)
    requires log != []
    ensures ReadBack(log) == ReadBack(log[..|log| - 1]) + [Logged(log[|log| - 1])]
  {
  }

  lemma {:induction false} FollowsReplays(log: seq<Record>, trees: seq<Fs>)
    requires Follows(log, trees)
    ensures Replay(ReadBack(log)) == Some(trees[|log|])
  {
    if log == [] {
      assert ReadBack(log) == [];
    } else {
      var n := |log| - 1;
      var before, rec, after := trees[n], log[n], trees[n + 1];
      LastApplied(log, trees, before, rec, after);
      FollowsLess(log, trees, n);
      FollowsReplays(log[..n], trees[..n + 1]);
      ReplayMore(ReadBack(log[..n]), rec, before, after);
      ReadBackLast(log);
    }
  }

  lemma QuietStep(fs: Fs, req: Request)
    requires Valid(fs) && Prepared(fs, req) && !IsLogged(req, Deal(fs, req))
    ensures Deal(fs, req).fs == fs
  {
    if Deal(fs, req).code == Success {
      QuietSize(fs, req.rec, req.flags, req.now);
    } else {
      DealSound(fs, req);
    }
  }

  lemma RedoneIsApplied(fs: Fs, out: Outcome, version: int)
    requires Valid(fs) && Redone(fs, out, version, 0)
    ensures Applied(fs, out.rec.(version := version), out.fs)
  {
  }

  lemma LoggedIsApplied(m: Master, req: Request, out: Outcome)
    requires Valid(m.fs) && Prepared(m.fs, req) && out == Deal(m.fs, req) && IsLogged(req, out)
    ensures Applied(m.fs, out.rec.(version := m.version + 1), out.fs)
  {
    DealReplays(m.fs, req, m.version + 1, 0);
    RedoneIsApplied(m.fs, out, m.version + 1);
  }

  lemma StepIsCommit(m: Master, req: Request, out: Outcome)
    requires Valid(m.fs) && Prepared(m.fs, req) && out == Deal(m.fs, req)
    ensures Step(m, req) == Commit(m, req, out)
  {
  }

  lemma CommitLogged(m: Master, req: Request, out: Outcome)
    requires IsLogged(req, out)
    ensures Commit(m, req, out) == Master(out.fs, m.version + 1, m.log + [out.rec.(version := m.version + 1)])
  {
  }

  lemma CommitQuiet(m: Master, req: Request, out: Outcome)
    requires !IsLogged(req, out) && out.fs == m.fs
    ensures Commit(m, req, out) == m
  {
  }

  /** What a request does to the master: nothing, or one more record in the log
      and the tree that the logged record makes. */
  lemma StepGrows(m: Master, req: Request) returns (rec: Option<Record>, fs': Fs)
    requires Valid(m.fs)
    ensures Step(m, req) == if rec.None? then m else Master(fs', m.version + 1, m.log + [rec.value])
    ensures rec.Some? ==> Applied(m.fs, rec.value, fs')
  {
    rec, fs' := None, m.fs;
    if Prepared(m.fs, req) {
      var out := Deal(m.fs, req);
      if IsLogged(req, out) {
        rec, fs' := Some(out.rec.(version := m.version + 1)), out.fs;
        LoggedIsApplied(m, req, out);
        CommitLogged(m, req, out);
      } else {
        QuietStep(m.fs, req);
        CommitQuiet(m, req, out);
      }
      StepIsCommit(m, req, out);
    }
  }

  lemma {:induction false} RunFollows(reqs: seq<Request>) returns (trees: seq<Fs>)
    ensures Follows(RunMaster(reqs).log, trees) && trees[|RunMaster(reqs).log|] == RunMaster(reqs).fs
  {
    if reqs == [] {
      trees := [EMPTY_FS];
    } else {
      var m := RunMaster(reqs[..|reqs| - 1]);
      trees := RunFollows(reqs[..|reqs| - 1]);
      var rec, fs' := StepGrows(m, reqs[|reqs| - 1]);
      if rec.Some? {
        FollowsMore(m.log, trees, rec.value, fs');
        trees := trees + [fs'];
      }
    }
  }

  /** Whatever was asked of the master, a replica that applies its log up to now
      holds the master's tree: the same dentries, links, counters, index, used
      bytes and attributes. */
  lemma ReplicaAgrees(reqs: seq<Request>)
    ensures Replay(ReadBack(RunMaster(reqs).log)) == Some(RunMaster(reqs).fs)
  {
    var trees := RunFollows(reqs);
    FollowsReplays(RunMaster(reqs).log, trees);
  }

  ghost predicate Numbered(m: Master) {
    |m.log| == m.version && forall i :: 0 <= i < |m.log| ==> m.log[i].version == i + 1
  }

  lemma CommitNumbered(m: Master, req: Request, out: Outcome)
    requires Numbered(m)
    ensures Numbered(Commit(m, req, out))
  {
  }

  lemma StepNumbered(m: Master, req: Request)
    requires Valid(m.fs) && Numbered(m)
    ensures Numbered(Step(m, req))
  {
    if Prepared(m.fs, req) {
      CommitNumbered(m, req, Deal(m.fs, req));
    }
  }

  /** Logged versions have no gaps: they are 1, 2, 3 and so on. */
  lemma {:induction false} VersionsConsecutive(reqs: seq<Request>)
    ensures Numbered(RunMaster(reqs))
  {
    if reqs != [] {
      VersionsConsecutive(reqs[..|reqs| - 1]);
      StepNumbered(RunMaster(reqs[..|reqs| - 1]), reqs[|reqs| - 1]);
    }
  }

  // ---------------------------------------------------------------------- used bytes

  lemma StatSettles(fs: Fs, p: Ptr, stat: Stat)
    requires p in fs.heap && p < fs.top && !IsLink(fs.heap[p]) && !stat.mode.hardLink
    ensures Settles(fs, SetStat(fs, p, stat))
  {
    StatDrift(fs, p, stat);
    GrowsSettles(fs, SetStat(fs, p, stat));
  }

  lemma CreateAtSettles(fs: Fs, rec: Record, parent: Option<Ptr>, src: Option<Ptr>, next: int)
    requires Valid(fs)
    requires LiveParent(fs, parent) && LiveParent(fs, src) && (rec.stat.mode.hardLink ==> src.Some?) && next != 0
    ensures Settles(fs, CreateAt(fs, rec, parent, src, next).fs)
  {
    if !rec.stat.mode.hardLink {
      CreateSettles(fs, rec, parent, None, next);
    } else if !IsDir(fs.heap[src.value]) && !IsLink(fs.heap[src.value]) {
      CreateSettles(fs, WithKind(rec, fs.heap[src.value].stat.mode.kind), parent, src, next);
    }
  }

  lemma XattrAtSettles(fs: Fs, rec: Record, p: Ptr)
    requires p in fs.heap
    ensures Settles(fs, XattrAt(fs, rec, p).fs)
  {
    SameCloses(fs, XattrAt(fs, rec, p).fs);
  }

  lemma UpdateSettles(fs: Fs, rec: Record)
    requires Valid(fs) && KeepsType(fs, rec)
    ensures Settles(fs, Update(fs, rec).1)
  {
    if rec.inode in fs.index {
      var p := fs.index[rec.inode];
      StatSettles(fs, p, UpdatedStat(fs.heap[p].stat, rec));
    }
  }

  lemma InodeSettles(fs: Fs, rec: Record, next: int)
    requires Valid(fs) && PreparedRecord(fs, rec) && next != 0
    ensures Settles(fs, DealByInode(fs, rec, next).fs)
  {
    match rec.op
    case CreateDentry =>
      var parent, src := ByInode(fs, rec.me.parentInode), ByInode(fs, rec.srcInode);
      if !(rec.stat.mode.hardLink && src.None?) {
        CreateAtSettles(fs, rec, parent, src, next);
      }
    case RemoveDentry => RemoveSettles(fs, rec, ByInode(fs, rec.me.parentInode));
    case RenameDentry => RenameSettles(fs, rec, ByInode(fs, rec.src.parentInode), ByInode(fs, rec.me.parentInode));
    case UpdateDentry => UpdateSettles(fs, rec);
    case NoOp =>
    case _ =>
      if rec.inode in fs.index {
        XattrAtSettles(fs, rec, fs.index[rec.inode]);
      }
  }

  lemma PlainCreateSettles(fs: Fs, rec: Record, path: string, srcPath: string, next: int)
    requires Valid(fs) && next != 0 && !rec.stat.mode.hardLink
    ensures Settles(fs, CreateByPath(fs, rec, path, srcPath, next).fs)
  {
    var (code, parent, name) := FindParent(fs, path);
    CreateAtSettles(fs, SetMe(fs, rec, parent, name), parent, None, next);
  }

  lemma LinkAsked(fs: Fs, rec: Record, path: string, srcPath: string, next: int, fs': Fs)
      returns (asked: Record, parent: Option<Ptr>, src: Option<Ptr>)
    requires Valid(fs) && rec.stat.mode.hardLink && fs' == CreateByPath(fs, rec, path, srcPath, next).fs && fs' != fs
    ensures asked.stat.mode.hardLink && LiveParent(fs, parent) && LiveParent(fs, src) && src.Some?
    ensures fs' == CreateAt(fs, asked, parent, src, next).fs
  {
    var found := FindAndFollow(fs, srcPath);
    assert found.0 == Success;
    var dir := FindParent(fs, path);
    parent, src := dir.1, found.1;
    asked := SetMe(fs, rec, parent, dir.2).(srcInode := fs.heap[src.value].inode);
  }

  lemma LinkCreateSettles(fs: Fs, rec: Record, path: string, srcPath: string, next: int, fs': Fs)
    requires Valid(fs) && next != 0 && rec.stat.mode.hardLink && fs' == CreateByPath(fs, rec, path, srcPath, next).fs
    ensures Settles(fs, fs')
  {
    if fs' != fs {
      var asked, parent, src := LinkAsked(fs, rec, path, srcPath, next, fs');
      CreateAtSettles(fs, asked, parent, src, next);
    }
  }

  lemma PathCreateSettles(fs: Fs, rec: Record, path: string, srcPath: string, next: int)
    requires Valid(fs) && next != 0
    ensures Settles(fs, CreateByPath(fs, rec, path, srcPath, next).fs)
  {
    if rec.stat.mode.hardLink {
      LinkCreateSettles(fs, rec, path, srcPath, next, CreateByPath(fs, rec, path, srcPath, next).fs);
    } else {
      PlainCreateSettles(fs, rec, path, srcPath, next);
    }
  }

  lemma PathRenameSettles(fs: Fs, rec: Record, path: string, srcPath: string)
    requires Valid(fs)
    ensures Settles(fs, RenameByPath(fs, rec, path, srcPath).fs)
  {
    var (_, parent, name) := FindParent(fs, path);
    var (_, srcParent, srcName) := FindParent(fs, srcPath);
    if srcParent.Some? {
      RenameSettles(fs, SetMe(fs, rec, parent, name).(src := PName(fs.heap[srcParent.value].inode, srcName)), srcParent, parent);
    }
  }

  lemma PathRemoveSettles(fs: Fs, rec: Record, path: string, srcPath: string, next: int)
    requires Valid(fs) && rec.op == RemoveDentry
    ensures Settles(fs, DealByPath(fs, rec, path, srcPath, next).fs)
  {
    var (_, parent, name) := FindParent(fs, path);
    RemoveSettles(fs, SetMe(fs, rec, parent, name), parent);
  }

  lemma PathXattrSettles(fs: Fs, rec: Record, path: string, srcPath: string, next: int)
    requires Valid(fs) && (rec.op == SetXattr || rec.op == RemoveXattr)
    ensures Settles(fs, DealByPath(fs, rec, path, srcPath, next).fs)
  {
    var (found, p) := FindAndFollow(fs, path);
    if found == Success {
      XattrAtSettles(fs, rec.(inode := fs.heap[p.value].inode), p.value);
    }
  }

  lemma PathSettles(fs: Fs, rec: Record, path: string, srcPath: string, next: int)
    requires Valid(fs) && PreparedRecord(fs, rec) && next != 0
    ensures Settles(fs, DealByPath(fs, rec, path, srcPath, next).fs)
  {
    match rec.op
    case CreateDentry => PathCreateSettles(fs, rec, path, srcPath, next);
    case RemoveDentry => PathRemoveSettles(fs, rec, path, srcPath, next);
    case RenameDentry => PathRenameSettles(fs, rec, path, srcPath);
    case UpdateDentry => UpdateSettles(fs, rec);
    case NoOp =>
    case _ => PathXattrSettles(fs, rec, path, srcPath, next);
  }

  lemma SizeSettles(fs: Fs, rec: Record, flags: int, now: int)
    requires Valid(fs)
    ensures Settles(fs, SetSize(fs, rec, flags, now).1)
  {
    if rec.inode in fs.index {
      var p := fs.index[rec.inode];
      StatSettles(fs, p, SizeRequest(fs.heap[p].stat, rec, flags, now).0);
    }
  }

  lemma DealSettles(fs: Fs, req: Request)
    requires Valid(fs) && Prepared(fs, req)
    ensures Settles(fs, Deal(fs, req).fs)
  {
    match req
    case PathRequest(rec, path, srcPath, next) => PathSettles(fs, rec, path, srcPath, next);
    case InodeRequest(rec, next) => InodeSettles(fs, rec, next);
    case SizeOfFile(rec, flags, now) => SizeSettles(fs, rec, flags, now);
  }

  lemma StepSettles(m: Master, req: Request)
    requires Valid(m.fs)
    ensures Settles(m.fs, Step(m, req).fs)
  {
    if Prepared(m.fs, req) {
      DealSettles(m.fs, req);
    }
  }

  /** No request of the run deletes a file that holds less than nothing. */
  ghost predicate NeverLeaks(reqs: seq<Request>) {
    reqs == [] ||
    (NeverLeaks(reqs[..|reqs| - 1]) && !DropsOverdrawn(RunMaster(reqs[..|reqs| - 1]).fs, RunMaster(reqs).fs))
  }

  lemma EmptyDrift()
    ensures Drift(EMPTY_FS) == 0
  {
  }

  lemma DriftMore(fs: Fs, fs': Fs, settled: bool)
    requires Drift(fs) <= 0 && (Drift(fs) == 0 <==> settled) && Settles(fs, fs')
    ensures Drift(fs') <= 0 && (Drift(fs') == 0 <==> settled && !DropsOverdrawn(fs, fs'))
  {
  }

  lemma LastSettles(reqs: seq<Request>, front: seq<Request>, fs: Fs, fs': Fs)
    requires reqs != [] && front == reqs[..|reqs| - 1] && fs == RunMaster(front).fs && fs' == RunMaster(reqs).fs
    ensures Settles(fs, fs')
  {
    StepSettles(RunMaster(front), reqs[|reqs| - 1]);
  }

  lemma LeaksLast(reqs: seq<Request>, front: seq<Request>, fs: Fs, fs': Fs)
    requires reqs != [] && front == reqs[..|reqs| - 1] && fs == RunMaster(front).fs && fs' == RunMaster(reqs).fs
    ensures NeverLeaks(reqs) <==> NeverLeaks(front) && !DropsOverdrawn(fs, fs')
  {
  }

  /** After any requests, the used bytes of the namespace are the bytes its files
      hold if and only if no request deleted a file that held less than nothing;
      otherwise they are less. */
  lemma {:induction false} UsedBytesExact(reqs: seq<Request>, fs: Fs)
    requires fs == RunMaster(reqs).fs
    ensures Drift(fs) <= 0 && (Drift(fs) == 0 <==> NeverLeaks(reqs))
    decreases |reqs|
  {
    if reqs == [] {
      EmptyDrift();
    } else {
      var front := reqs[..|reqs| - 1];
      var before := RunMaster(front).fs;
      UsedBytesExact(front, before);
      LastSettles(reqs, front, before, fs);
      DriftMore(before, fs, NeverLeaks(front));
      LeaksLast(reqs, front, before, fs);
    }
  }
}
