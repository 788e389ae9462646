/**
 Dispatch of update records, on the master (which resolves paths, numbers the
 successful updates and logs them) and on a replica (which resolves the logged
 inodes), and why a replica that applies the log holds the master's tree.
 */
module DataThread {
  import opened Wrappers
  import opened Record
  import opened Dentry
  import opened DentryAccounting
  import opened DentryOps
  import opened InodeUpdates
  import opened Paths

  // ------------------------------------------------------------- what the log keeps

  /** A record as it comes back from the log: fields that its options do not
      select are zero, the birth time is read from the access time, and the
      flags are kept for a rename only. */
  function Logged(rec: Record): Record {
    var o, s := rec.options, rec.stat;
    rec.(ns := if o.path then rec.ns else "",
         me := if o.path then rec.me else PName(0, ""),
         link := if o.link then rec.link else "",
         stat := Stat(if o.mode then s.mode else ZERO_MODE,
                      if o.uid then s.uid else 0,
                      if o.gid then s.gid else 0,
                      if o.btime then s.atime else 0,
                      if o.atime then s.atime else 0,
                      if o.ctime then s.ctime else 0,
                      if o.mtime then s.mtime else 0,
                      if o.size then s.size else 0,
                      if o.incAlloc then s.alloc else 0,
                      if o.spaceEnd then s.spaceEnd else 0),
         srcInode := if o.srcInode then rec.srcInode else 0,
         src := if rec.op == RenameDentry then rec.src else PName(0, ""),
         flags := if rec.op == RenameDentry then rec.flags else 0,
         xattrKey := if rec.op == SetXattr || rec.op == RemoveXattr then rec.xattrKey else "",
         xattrValue := if rec.op == SetXattr then rec.xattrValue else "")
  }

  // --------------------------------------------------------------------- resolving

  function ByInode(fs: Fs, inode: int): Option<Ptr> {
    if inode in fs.index then Some(fs.index[inode]) else None
  }

  function InodeOf(fs: Fs, p: Option<Ptr>): int
    requires LiveParent(fs, p)
  {
    if p.Some? then fs.heap[p.value].inode else 0
  }

  /** What a dispatch comes to: the tree, and the record as it goes to the log. */
  datatype Outcome = Outcome(code: Code, fs: Fs, rec: Record)

  // ----------------------------------------------------- operations on resolved dentries

  function WithKind(rec: Record, kind: nat): Record {
    rec.(stat := rec.stat.(mode := rec.stat.mode.(kind := kind)))
  }

  ghost function CreateAt(fs: Fs, rec: Record, parent: Option<Ptr>, src: Option<Ptr>, next: int): Outcome
    requires LiveParent(fs, parent) && LiveParent(fs, src) && (rec.stat.mode.hardLink ==> src.Some?)
  {
    if rec.stat.mode.hardLink then
      var e := fs.heap[src.value];
      if IsDir(e) || IsLink(e) then Outcome(NotPermitted, fs, rec)
      else
        var (code, fs', rec') := Create(fs, WithKind(rec, e.stat.mode.kind), parent, src, next);
        Outcome(code, fs', rec')
    else
      var (code, fs', rec') := Create(fs, rec, parent, None, next);
      Outcome(code, fs', rec')
  }

  ghost function RemoveAt(fs: Fs, rec: Record, parent: Option<Ptr>): Outcome
    requires Valid(fs) && LiveParent(fs, parent)
  {
    var (code, fs', rec') := Remove(fs, rec, parent);
    Outcome(code, fs', rec')
  }

  ghost function RenameAt(fs: Fs, rec: Record, srcParent: Option<Ptr>, destParent: Option<Ptr>): Outcome
    requires Valid(fs) && LiveParent(fs, srcParent) && LiveParent(fs, destParent)
  {
    var (code, fs', rec') := Rename(fs, rec, srcParent, destParent);
    Outcome(code, fs', rec')
  }

  function WithXattrs(fs: Fs, p: Ptr, xs: Xattrs): Fs
    requires p in fs.heap
  {
    fs.(heap := fs.heap[p := fs.heap[p].(xattrs := xs)])
  }

  function XattrAt(fs: Fs, rec: Record, p: Ptr): Outcome
    requires p in fs.heap
  {
    var xs := fs.heap[p].xattrs;
    var (code, xs') :=
      if rec.op == SetXattr then PutXattr(xs, rec.xattrKey, rec.xattrValue, rec.flags)
      else DropXattr(xs, rec.xattrKey);
    Outcome(code, if code == Success then WithXattrs(fs, p, xs') else fs, rec)
  }

  // ---------------------------------------------------------------------- dispatch

  /** A record whose dentries are given by inode: all records of a replica, and
      the requests by inode of a master. */
  ghost function DealByInode(fs: Fs, rec: Record, next: int): Outcome
    requires Valid(fs)
  {
    match rec.op
    case CreateDentry =>
      var parent, src := ByInode(fs, rec.me.parentInode), ByInode(fs, rec.srcInode);
      if rec.me.parentInode != 0 && parent.None? then Outcome(NoEntry, fs, rec)
      else if rec.stat.mode.hardLink && src.None? then Outcome(NoEntry, fs, rec)
      else CreateAt(fs, rec, parent, src, next)
    case RemoveDentry =>
      var parent := ByInode(fs, rec.me.parentInode);
      if rec.me.parentInode != 0 && parent.None? then Outcome(NoEntry, fs, rec)
      else RemoveAt(fs, rec, parent)
    case RenameDentry =>
      var srcParent, destParent := ByInode(fs, rec.src.parentInode), ByInode(fs, rec.me.parentInode);
      if srcParent.None? || destParent.None? then Outcome(NoEntry, fs, rec)
      else RenameAt(fs, rec, srcParent, destParent)
    case UpdateDentry =>
      var (code, fs') := Update(fs, rec);
      Outcome(code, fs', rec)
    case NoOp => Outcome(Success, fs, rec)
    case _ =>
      var p := ByInode(fs, rec.inode);
      if p.None? then Outcome(NoEntry, fs, rec) else XattrAt(fs, rec, p.value)
  }

  function SetMe(fs: Fs, rec: Record, parent: Option<Ptr>, name: string): Record
    requires LiveParent(fs, parent)
  {
    rec.(me := PName(InodeOf(fs, parent), name), options := rec.options.(path := true))
  }

  function FindAndFollow(fs: Fs, path: string): (r: (Code, Option<Ptr>))
    requires Valid(fs)
    ensures r.0 == Success ==> r.1.Some? && r.1.value in fs.heap && !IsLink(fs.heap[r.1.value])
  {
    var (code, p) := Find(fs, path);
    if code != Success then (code, None)
    else
      assert LinkOk(fs.heap, p.value);
      (Success, Follow(fs.heap, p.value))
  }

  ghost function CreateByPath(fs: Fs, rec: Record, path: string, srcPath: string, next: int): Outcome
    requires Valid(fs)
  {
    var (code, parent, name) := FindParent(fs, path);
    if code != Success && !(code == NoEntry && path == "/") then Outcome(code, fs, rec)
    else if code == Success && path == "/" then Outcome(Exists, fs, rec)
    else if rec.stat.mode.hardLink then
      var (found, src) := FindAndFollow(fs, srcPath);
      if found != Success then Outcome(found, fs, rec)
      else CreateAt(fs, SetMe(fs, rec, parent, name).(srcInode := fs.heap[src.value].inode), parent, src, next)
    else CreateAt(fs, SetMe(fs, rec, parent, name), parent, None, next)
  }

  ghost function RenameByPath(fs: Fs, rec: Record, path: string, srcPath: string): Outcome
    requires Valid(fs)
  {
    var (srcCode, srcParent, srcName) := FindParent(fs, srcPath);
    var (code, parent, name) := FindParent(fs, path);
    if srcCode != Success then Outcome(srcCode, fs, rec)
    else if srcParent.None? then Outcome(Invalid, fs, rec)
    else if code != Success then Outcome(code, fs, rec)
    else if parent.None? then Outcome(Invalid, fs, rec)
    else
      RenameAt(fs, SetMe(fs, rec, parent, name).(src := PName(fs.heap[srcParent.value].inode, srcName)), srcParent, parent)
  }

  /** A request of a master whose dentries are given by path. */
  ghost function DealByPath(fs: Fs, rec: Record, path: string, srcPath: string, next: int): Outcome
    requires Valid(fs)
  {
    match rec.op
    case CreateDentry => CreateByPath(fs, rec, path, srcPath, next)
    case RemoveDentry =>
      var (code, parent, name) := FindParent(fs, path);
      if code != Success then Outcome(code, fs, rec)
      else RemoveAt(fs, SetMe(fs, rec, parent, name), parent)
    case RenameDentry => RenameByPath(fs, rec, path, srcPath)
    case UpdateDentry => DealByInode(fs, rec, next)
    case NoOp => Outcome(Success, fs, rec)
    case _ =>
      var (found, p) := FindAndFollow(fs, path);
      if found != Success then Outcome(found, fs, rec)
      else XattrAt(fs, rec.(inode := fs.heap[p.value].inode), p.value)
  }

  datatype Request =
    | PathRequest(rec: Record, path: string, srcPath: string, next: int)
    | InodeRequest(rec: Record, next: int)
    | SizeOfFile(rec: Record, flags: int, now: int)

  ghost function Deal(fs: Fs, req: Request): Outcome
    requires Valid(fs)
  {
    match req
    case PathRequest(rec, path, srcPath, next) => DealByPath(fs, rec, path, srcPath, next)
    case InodeRequest(rec, next) => DealByInode(fs, rec, next)
    case SizeOfFile(rec, flags, now) =>
      var (code, fs', rec') := SetSize(fs, rec, flags, now);
      Outcome(code, fs', rec')
  }
}
