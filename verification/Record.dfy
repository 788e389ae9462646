/** The binlog record: what an update asks for, and what the log keeps of it. */
module Record {

  // kind is the file type (the four bits of S_IFMT), perm the bits below it
  datatype Mode = Mode(perm: nat, kind: nat, hardLink: bool)

  const KIND_NONE: nat := 0
  const KIND_DIR: nat := 4
  const KIND_LINK: nat := 10

  datatype Stat = Stat(mode: Mode, uid: int, gid: int, btime: int, atime: int, ctime: int, mtime: int,
                       size: int, alloc: int, spaceEnd: int)

  datatype Op = NoOp | CreateDentry | RemoveDentry | RenameDentry | UpdateDentry | SetXattr | RemoveXattr

  /** Which fields of the record are meaningful and go to the log. */
  datatype Options = Options(path: bool, link: bool, mode: bool, atime: bool, btime: bool, ctime: bool, mtime: bool,
                             gid: bool, uid: bool, size: bool, incAlloc: bool, spaceEnd: bool, srcInode: bool)

  datatype PName = PName(parentInode: int, name: string)

  datatype Record = Record(
    version: int,
    inode: int,
    ns: string,
    hashCode: int,
    op: Op,
    timestamp: int,
    flags: int,          // rename flags, or xattr flags
    options: Options,
    me: PName,           // also the destination of a rename
    src: PName,          // the source of a rename
    srcInode: int,       // the file a hard link points at
    stat: Stat,
    link: string,
    xattrKey: string,
    xattrValue: string)

  const NO_OPTIONS := Options(false, false, false, false, false, false, false, false, false, false, false, false, false)
  const ZERO_MODE := Mode(0, 0, false)
  const ZERO_STAT := Stat(ZERO_MODE, 0, 0, 0, 0, 0, 0, 0, 0, 0)
  const ZERO_RECORD := Record(0, 0, "", 0, NoOp, 0, 0, NO_OPTIONS, PName(0, ""), PName(0, ""), 0, ZERO_STAT, "", "", "")
}
