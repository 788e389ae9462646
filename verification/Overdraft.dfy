/**
 A run after which the used bytes are less than what the files hold: a file is
 created, gives away more space than it has, and is removed.
 */
module Overdraft {
  import opened Wrappers
  import opened Record
  import opened Dentry
  import opened DentryAccounting
  import opened DentryOps
  import opened DentrySpace
  import opened InodeUpdates
  import opened DataThread
  import opened Replication

  const CREATE_OPTIONS := NO_OPTIONS.(path := true, mode := true, atime := true, btime := true, ctime := true, mtime := true,
                                      uid := true, gid := true)

  const MAKE_ROOT := ZERO_RECORD.(op := CreateDentry, inode := 1, options := CREATE_OPTIONS,
                                  stat := ZERO_STAT.(mode := Mode(0, KIND_DIR, false)))

  const MAKE_FILE := ZERO_RECORD.(op := CreateDentry, inode := 2, options := CREATE_OPTIONS, me := PName(1, "f"),
                                  stat := ZERO_STAT.(mode := Mode(0, 8, false)))

  const TAKE_FIVE := ZERO_RECORD.(op := UpdateDentry, inode := 2, options := NO_OPTIONS.(incAlloc := true),
                                  stat := ZERO_STAT.(alloc := -5))

  const REMOVE_FILE := ZERO_RECORD.(op := RemoveDentry, options := NO_OPTIONS.(path := true), me := PName(1, "f"))

  ghost predicate Bare(fs: Fs) {
    fs.top == 0 && fs.index == map[] && fs.heap == map[] && fs.root == None
  }

  ghost predicate OnlyRoot(fs: Fs) {
    fs.top == 1 && fs.index == map[1 := 0] && fs.heap.Keys == {0} && IsDir(fs.heap[0]) && fs.heap[0].children == map[]
  }

  ghost predicate OneFile(fs: Fs, alloc: int) {
    && fs.index == map[1 := 0, 2 := 1] && 0 in fs.heap && 1 in fs.heap
    && IsDir(fs.heap[0]) && fs.heap[0].children == map["f" := 1]
    && !IsDir(fs.heap[1]) && !IsLink(fs.heap[1]) && fs.heap[1].children == map[] && fs.heap[1].nlink == 1
    && fs.heap[1].parent == Some(0) && fs.heap[1].name == "f" && fs.heap[1].stat.alloc == alloc
  }

  lemma RootCreated(fs: Fs)
    requires Bare(fs)
    ensures OnlyRoot(Create(fs, MAKE_ROOT, None, None, 1).1)
  {
  }

  lemma RootDealt(fs: Fs)
    requires Bare(fs) && Valid(fs)
    ensures DealByInode(fs, MAKE_ROOT, 1).fs == Create(fs, MAKE_ROOT, None, None, 1).1
  {
    assert ByInode(fs, 0) == None;
  }

  lemma FileCreated(fs: Fs)
    requires OnlyRoot(fs)
    ensures OneFile(Create(fs, MAKE_FILE, Some(0), None, 1).1, 0)
  {
    var fs' := Create(fs, MAKE_FILE, Some(0), None, 1).1;
    assert fs'.index == map[1 := 0, 2 := 1];
    assert fs'.heap[0].children == map["f" := 1];
  }

  lemma FileDealt(fs: Fs)
    requires Valid(fs) && OnlyRoot(fs)
    ensures DealByInode(fs, MAKE_FILE, 1).fs == Create(fs, MAKE_FILE, Some(0), None, 1).1 && Prepared(fs, InodeRequest(MAKE_FILE, 1))
  {
    assert ByInode(fs, 1) == Some(0);
  }

  lemma FiveDealt(fs: Fs)
    requires Valid(fs) && OneFile(fs, 0)
    ensures OneFile(DealByInode(fs, TAKE_FIVE, 1).fs, -5) && Prepared(fs, InodeRequest(TAKE_FIVE, 1))
  {
    assert fs.index[2] == 1;
    assert DealByInode(fs, TAKE_FIVE, 1).fs == SetStat(fs, 1, UpdatedStat(fs.heap[1].stat, TAKE_FIVE));
  }

  lemma Gone(fs: Fs)
    requires OneFile(fs, -5) && CanRemove(fs, 1)
    ensures WentOverdrawn(fs, Removed(fs, 1), 1)
  {
  }

  lemma RemoveDealt(fs: Fs)
    requires Valid(fs) && OneFile(fs, -5)
    ensures CanRemove(fs, 1) && DealByInode(fs, REMOVE_FILE, 1).fs == Removed(fs, 1) && Prepared(fs, InodeRequest(REMOVE_FILE, 1))
  {
    assert ByInode(fs, 1) == Some(0);
    assert FindMe(fs, Some(0), "f") == (Success, Some(1));
    RemovableEntry(fs, 1);
  }

  /** One more request that is dealt with by inode. */
  lemma NextIs(reqs: seq<Request>, next: seq<Request>, rec: Record, fs: Fs)
    requires next == reqs + [InodeRequest(rec, 1)] && fs == RunMaster(reqs).fs && Prepared(fs, InodeRequest(rec, 1))
    ensures Valid(fs) && RunMaster(next).fs == DealByInode(fs, rec, 1).fs
  {
    assert next[..|next| - 1] == reqs;
  }

  lemma AfterRoot(reqs: seq<Request>, next: seq<Request>, fs: Fs)
    requires next == reqs + [InodeRequest(MAKE_ROOT, 1)] && fs == RunMaster(reqs).fs && Bare(fs)
    ensures OnlyRoot(RunMaster(next).fs)
  {
    RootDealt(fs);
    NextIs(reqs, next, MAKE_ROOT, fs);
    RootCreated(fs);
  }

  lemma AfterFile(reqs: seq<Request>, next: seq<Request>, fs: Fs)
    requires next == reqs + [InodeRequest(MAKE_FILE, 1)] && fs == RunMaster(reqs).fs && OnlyRoot(fs)
    ensures OneFile(RunMaster(next).fs, 0)
  {
    FileDealt(fs);
    NextIs(reqs, next, MAKE_FILE, fs);
    FileCreated(fs);
  }

  lemma AfterFive(reqs: seq<Request>, next: seq<Request>, fs: Fs)
    requires next == reqs + [InodeRequest(TAKE_FIVE, 1)] && fs == RunMaster(reqs).fs && OneFile(fs, 0)
    ensures OneFile(RunMaster(next).fs, -5)
  {
    FiveDealt(fs);
    NextIs(reqs, next, TAKE_FIVE, fs);
  }

  lemma AfterRemove(reqs: seq<Request>, next: seq<Request>, fs: Fs)
    requires next == reqs + [InodeRequest(REMOVE_FILE, 1)] && fs == RunMaster(reqs).fs && OneFile(fs, -5)
    ensures WentOverdrawn(fs, RunMaster(next).fs, 1)
  {
    RemoveDealt(fs);
    NextIs(reqs, next, REMOVE_FILE, fs);
    Gone(fs);
  }

  lemma LastLeaks(reqs: seq<Request>, next: seq<Request>, fs: Fs, fs': Fs)
    requires next == reqs + [InodeRequest(REMOVE_FILE, 1)] && fs == RunMaster(reqs).fs && fs' == RunMaster(next).fs && OneFile(fs, -5)
    ensures !NeverLeaks(next)
  {
    AfterRemove(reqs, next, fs);
    assert next[..|next| - 1] == reqs;
    LeaksLast(next, reqs, fs, fs');
  }

  lemma BareAtStart(none: seq<Request>)
    requires none == []
    ensures Bare(RunMaster(none).fs)
  {
  }

  lemma FileAfterTwo(none: seq<Request>, one: seq<Request>, two: seq<Request>)
    requires Bare(RunMaster(none).fs) && one == none + [InodeRequest(MAKE_ROOT, 1)] && two == one + [InodeRequest(MAKE_FILE, 1)]
    ensures OneFile(RunMaster(two).fs, 0)
  {
    AfterRoot(none, one, RunMaster(none).fs);
    AfterFile(one, two, RunMaster(one).fs);
  }

  lemma LeakAfter(two: seq<Request>, three: seq<Request>, four: seq<Request>)
    requires OneFile(RunMaster(two).fs, 0)
    requires three == two + [InodeRequest(TAKE_FIVE, 1)] && four == three + [InodeRequest(REMOVE_FILE, 1)]
    ensures !NeverLeaks(four)
  {
    AfterFive(two, three, RunMaster(two).fs);
    LastLeaks(three, four, RunMaster(three).fs, RunMaster(four).fs);
  }

  lemma LeakShows(reqs: seq<Request>)
    requires !NeverLeaks(reqs)
    ensures Drift(RunMaster(reqs).fs) < 0
  {
    UsedBytesExact(reqs, RunMaster(reqs).fs);
  }

  /** After these four requests the used bytes are below what the files hold. */
  lemma UsedBytesWrong(none: seq<Request>, one: seq<Request>, two: seq<Request>, three: seq<Request>, four: seq<Request>)
    requires none == [] && one == none + [InodeRequest(MAKE_ROOT, 1)] && two == one + [InodeRequest(MAKE_FILE, 1)]
    requires three == two + [InodeRequest(TAKE_FIVE, 1)] && four == three + [InodeRequest(REMOVE_FILE, 1)]
    ensures Drift(RunMaster(four).fs) < 0
  {
    BareAtStart(none);
    FileAfterTwo(none, one, two);
    LeakAfter(two, three, four);
    LeakShows(four);
  }
}
