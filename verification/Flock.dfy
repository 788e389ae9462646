/**
 The byte-range lock manager of one file.

 A file has a list of regions ordered by (offset, length). Each region holds
 the tasks that own a lock on exactly that range and a queue of tasks waiting
 for it; tasks blocked by more than their own region wait in one global queue.
 A region never leaves the list, so a range names its region.
 */
module Flock {
  import opened Wrappers

  datatype Kind = Shared | Exclusive

  // length 0 means "until end of file"
  datatype Range = Range(offset: int, length: int)

  // conn is the connection that asked; id tells two requests apart
  datatype Task = Task(id: int, conn: int, kind: Kind, range: Range)

  datatype Region = Region(readers: int, writers: int, locked: seq<Task>, waiting: seq<Task>, refCount: int)

  // order lists the keys of regions the way the source links them
  datatype Entry = Entry(order: seq<Range>, regions: map<Range, Region>, waiting: seq<Task>)

  datatype Status = Granted | WouldBlock | Deadlock | InProgress

  datatype Queue = Locked | RegionWaiting | GlobalWaiting | NotInQueue

  const EMPTY_ENTRY := Entry([], map[], [])
  const NEW_REGION := Region(0, 0, [], [], 0)

  // ---------------------------------------------------------------- ranges

  predicate Overlap(r1: Range, r2: Range) {
    if r1.offset < r2.offset then r1.length == 0 || r1.offset + r1.length > r2.offset
    else if r1.offset == r2.offset then true
    else r2.length == 0 || r2.offset + r2.length > r1.offset
  }

  ghost predicate Covers(r: Range, b: int) {
    r.offset <= b && (r.length == 0 || b < r.offset + r.length)
  }

  /** The three-way comparison means exactly "some byte lies in both ranges". */
  lemma OverlapMeansCommonByte(r1: Range, r2: Range)
    requires r1.length >= 0 && r2.length >= 0
    ensures Overlap(r1, r2) <==> exists b :: Covers(r1, b) && Covers(r2, b)
  {
    var b := if r1.offset < r2.offset then r2.offset else r1.offset;
    if Overlap(r1, r2) {
      assert Covers(r1, b) && Covers(r2, b);
    }
  }

  predicate Before(r1: Range, r2: Range) {
    r1.offset < r2.offset || (r1.offset == r2.offset && r1.length < r2.length)
  }

  ghost predicate Sorted(order: seq<Range>) {
    forall i, j {:trigger Before(order[i], order[j])} :: 0 <= i < j < |order| ==> Before(order[i], order[j])
  }

  ghost predicate ListsRegions(e: Entry) {
    && Sorted(e.order)
    && (forall k :: k in e.order <==> k in e.regions)
  }

  // ------------------------------------------------------------- conflicts

  function CountKind(tasks: seq<Task>, kind: Kind): int {
    if tasks == [] then 0
    else (if tasks[0].kind == kind then 1 else 0) + CountKind(tasks[1..], kind)
  }

  predicate LockConflict(r: Region, kind: Kind) {
    r.writers > 0 || (kind == Exclusive && r.readers > 0)
  }

  predicate RegionConflict(r: Region, kind: Kind, checkWaiting: bool) {
    (checkWaiting && r.waiting != []) || LockConflict(r, kind)
  }

  function First(tasks: seq<Task>): Option<Task> {
    if tasks == [] then None else Some(tasks[0])
  }

  function Holder(r: Region, checkWaiting: bool): Option<Task> {
    if checkWaiting && r.waiting != [] then Some(r.waiting[0]) else First(r.locked)
  }

  /** The scan without its early exit: every conflicting region, in list order. */
  function FullScan(order: seq<Range>, regions: map<Range, Region>, t: Task, checkWaiting: bool): seq<Range>
    requires forall k :: k in order ==> k in regions
  {
    if order == [] then []
    else
      var rest := FullScan(order[1..], regions, t, checkWaiting);
      if Overlap(t.range, order[0]) && RegionConflict(regions[order[0]], t.kind, checkWaiting) then [order[0]] + rest
      else rest
  }

  ghost predicate Conflicts(e: Entry, t: Task, checkWaiting: bool, k: Range) {
    k in e.regions && Overlap(t.range, k) && RegionConflict(e.regions[k], t.kind, checkWaiting)
  }

  ghost predicate Blocked(e: Entry, t: Task, checkWaiting: bool) {
    exists k :: Conflicts(e, t, checkWaiting, k)
  }

  lemma {:induction false} FullScanMembers(order: seq<Range>, regions: map<Range, Region>, t: Task, checkWaiting: bool)
    requires forall k :: k in order ==> k in regions
    ensures forall k :: k in FullScan(order, regions, t, checkWaiting) <==>
      k in order && Overlap(t.range, k) && RegionConflict(regions[k], t.kind, checkWaiting)
  {
    if order != [] {
      FullScanMembers(order[1..], regions, t, checkWaiting);
      assert forall k :: k in order <==> k == order[0] || k in order[1..];
    }
  }

  lemma {:induction false} FullScanSnoc(order: seq<Range>, k: Range, regions: map<Range, Region>, t: Task, checkWaiting: bool)
    requires k in regions && forall o :: o in order ==> o in regions
    ensures FullScan(order + [k], regions, t, checkWaiting) ==
      FullScan(order, regions, t, checkWaiting) +
      (if Overlap(t.range, k) && RegionConflict(regions[k], t.kind, checkWaiting) then [k] else [])
  {
    if order == [] {
      assert order + [k] == [k];
    } else {
      FullScanSnoc(order[1..], k, regions, t, checkWaiting);
      assert (order + [k])[1..] == order[1..] + [k];
    }
  }

  lemma {:induction false} FullScanSkips(done: seq<Range>, rest: seq<Range>, regions: map<Range, Region>, t: Task, checkWaiting: bool)
    requires forall k :: k in done + rest ==> k in regions
    requires forall k :: k in rest ==> !Overlap(t.range, k)
    ensures forall k :: k in done ==> k in done + rest
    ensures FullScan(done + rest, regions, t, checkWaiting) == FullScan(done, regions, t, checkWaiting)
    decreases |rest|
  {
    if rest == [] {
      assert done + rest == done;
    } else {
      assert (done + [rest[0]]) + rest[1..] == done + rest;
      FullScanSkips(done + [rest[0]], rest[1..], regions, t, checkWaiting);
      assert rest[0] in rest && rest[0] in done + rest;
      FullScanSnoc(done, rest[0], regions, t, checkWaiting);
    }
  }

  datatype Scan = Scan(found: Option<Task>, conflictRegions: int)

  function ScanOf(e: Entry, t: Task, checkWaiting: bool): Scan
    requires forall k :: k in e.order ==> k in e.regions
  {
    var hits := FullScan(e.order, e.regions, t, checkWaiting);
    FullScanMembers(e.order, e.regions, t, checkWaiting);
    Scan(if hits == [] then None else Holder(e.regions[hits[0]], checkWaiting), |hits|)
  }

  function FirstOverlapping(tasks: seq<Task>, r: Range): Option<Task> {
    if tasks == [] then None
    else if Overlap(r, tasks[0].range) then Some(tasks[0])
    else FirstOverlapping(tasks[1..], r)
  }

  datatype Verdict = Verdict(holder: Option<Task>, global: bool)

  function VerdictOf(e: Entry, t: Task): Verdict
    requires forall k :: k in e.order ==> k in e.regions
  {
    var scan := ScanOf(e, t, true);
    if scan.found.None? && t.kind == Exclusive then Verdict(None, false)
    else if scan.found.Some? && scan.conflictRegions > 1 then Verdict(scan.found, true)
    else
      var wait := FirstOverlapping(e.waiting, t.range);
      if wait.Some? then Verdict(wait, true)
      else if scan.found.None? then Verdict(None, false)
      else Verdict(scan.found, scan.found.value.range != t.range)
  }

  // ----------------------------------------------------------------- steps

  function Place(order: seq<Range>, k: Range): seq<Range> {
    if order == [] then [k]
    else if order[0] == k then order
    else if Before(k, order[0]) then [k] + order
    else [order[0]] + Place(order[1..], k)
  }

  function GetRegionSpec(e: Entry, k: Range): Entry {
    var r := if k in e.regions then e.regions[k] else NEW_REGION;
    Entry(Place(e.order, k), e.regions[k := r.(refCount := r.refCount + 1)], e.waiting)
  }

  function AddLocked(r: Region, t: Task): Region {
    r.(readers := if t.kind == Shared then r.readers + 1 else r.readers,
       writers := if t.kind == Shared then r.writers else r.writers + 1,
       locked := r.locked + [t])
  }

  function Without(tasks: seq<Task>, t: Task): seq<Task> {
    if tasks == [] then []
    else if tasks[0] == t then tasks[1..]
    else [tasks[0]] + Without(tasks[1..], t)
  }

  function RemoveLocked(r: Region, t: Task): Region {
    r.(readers := if t.kind == Shared then r.readers - 1 else r.readers,
       writers := if t.kind == Shared then r.writers else r.writers - 1,
       locked := Without(r.locked, t))
  }

  function Grant(e: Entry, t: Task): Entry
    requires t.range in e.regions
  {
    e.(regions := e.regions[t.range := AddLocked(e.regions[t.range], t)])
  }

  /** What happens to a request once its region exists. */
  function Decide(e: Entry, t: Task, block: bool): (Status, Entry)
    requires t.range in e.regions && forall k :: k in e.order ==> k in e.regions
  {
    var v := VerdictOf(e, t);
    if v.holder.None? then (Granted, Grant(e, t))
    else if !block then (WouldBlock, e)
    else if t.conn == v.holder.value.conn then (Deadlock, e)
    else if v.global then (InProgress, e.(waiting := e.waiting + [t]))
    else
      var r := e.regions[t.range];
      (InProgress, e.(regions := e.regions[t.range := r.(waiting := r.waiting + [t])]))
  }

  function ApplySpec(e: Entry, t: Task, block: bool): (Status, Entry)
    requires ListsRegions(e)
  {
    PlaceMembers(e.order, t.range);
    Decide(GetRegionSpec(e, t.range), t, block)
  }

  /** The wake-up loop over one region's queue, which looks at held locks only. */
  function WakeRegion(e: Entry, k: Range): (e': Entry)
    requires k in e.regions && (forall o :: o in e.order ==> o in e.regions)
    ensures e'.order == e.order && e'.waiting == e.waiting && e'.regions.Keys == e.regions.Keys
    decreases |e.regions[k].waiting|
  {
    var r := e.regions[k];
    if r.waiting == [] || FullScan(e.order, e.regions, r.waiting[0], false) != [] then e
    else WakeRegion(e.(regions := e.regions[k := AddLocked(r.(waiting := r.waiting[1..]), r.waiting[0])]), k)
  }

  /** The wake-up loop over the global queue, which also respects region waiters. */
  function WakeGlobal(e: Entry): (e': Entry)
    requires forall o :: o in e.order ==> o in e.regions
    requires forall t :: t in e.waiting ==> t.range in e.regions
    ensures e'.order == e.order && e'.regions.Keys == e.regions.Keys
    decreases |e.waiting|
  {
    if e.waiting == [] || FullScan(e.order, e.regions, e.waiting[0], true) != [] then e
    else WakeGlobal(Grant(e.(waiting := e.waiting[1..]), e.waiting[0]))
  }

  function WhichQueue(e: Entry, t: Task): Queue {
    if t.range in e.regions && t in e.regions[t.range].locked then Locked
    else if t.range in e.regions && t in e.regions[t.range].waiting then RegionWaiting
    else if t in e.waiting then GlobalWaiting
    else NotInQueue
  }

  function DropRef(e: Entry, k: Range): Entry
    requires k in e.regions
  {
    e.(regions := e.regions[k := e.regions[k].(refCount := e.regions[k].refCount - 1)])
  }

  function Unlocked(e: Entry, t: Task): Entry
    requires t.range in e.regions
  {
    e.(regions := e.regions[t.range := RemoveLocked(e.regions[t.range], t)])
  }

  function Cancelled(e: Entry, t: Task): Entry
    requires t.range in e.regions
  {
    var r := e.regions[t.range];
    DropRef(if t in r.waiting then e.(regions := e.regions[t.range := r.(waiting := Without(r.waiting, t))])
            else e.(waiting := Without(e.waiting, t)), t.range)
  }

  // -------------------------------------------------------------- invariant

  ghost predicate Filed(e: Entry) {
    && (forall k, t :: k in e.regions && t in e.regions[k].locked ==> t.range == k)
    && (forall k, t :: k in e.regions && t in e.regions[k].waiting ==> t.range == k)
    && (forall t :: t in e.waiting ==> t.range in e.regions)
  }

  ghost predicate Counted(r: Region) {
    r.readers == CountKind(r.locked, Shared) && r.writers == CountKind(r.locked, Exclusive)
  }

  ghost predicate SelfExclusive(r: Region) {
    r.writers > 0 ==> r.writers == 1 && r.readers == 0
  }

  ghost predicate Quiet(r: Region, kind: Kind) {
    r.waiting == [] && !LockConflict(r, kind)
  }

  /** Overlapping regions never hold conflicting locks, and while one has
      waiters the other has none and holds nothing those waiters object to. */
  ghost predicate PairOk(r1: Region, r2: Region) {
    && (r1.writers > 0 ==> r2.writers == 0 && r2.readers == 0)
    && (forall t :: t in r1.waiting ==> Quiet(r2, t.kind))
  }

  /** What every step keeps, even in the middle of a release. */
  ghost predicate Core(e: Entry) {
    && ListsRegions(e)
    && Filed(e)
    && (forall k :: k in e.regions ==> Counted(e.regions[k]) && SelfExclusive(e.regions[k]))
    && (forall k1, k2 :: k1 in e.regions && k2 in e.regions && k1 != k2 && Overlap(k1, k2) ==>
          PairOk(e.regions[k1], e.regions[k2]))
  }

  ghost predicate RegionWaitersHaveLock(e: Entry) {
    forall k :: k in e.regions && e.regions[k].waiting != [] ==> e.regions[k].locked != []
  }

  ghost predicate SomeLockHeld(e: Entry) {
    exists k :: k in e.regions && e.regions[k].locked != []
  }

  ghost predicate Inv(e: Entry) {
    && Core(e)
    && RegionWaitersHaveLock(e)
    && (e.waiting != [] ==> SomeLockHeld(e))
  }

  /** The head of every queue is really blocked: a region's by a lock of its
      own region, the global one by some overlapping region. */
  ghost predicate HeadsBlocked(e: Entry) {
    && RegionHeadsBlocked(e)
    && (e.waiting != [] ==> Blocked(e, e.waiting[0], true))
  }

  function ReleaseSpec(e: Entry, t: Task): Entry
    requires Core(e)
  {
    match WhichQueue(e, t)
    case Locked =>
      var e1 := WakeRegion(Unlocked(e, t), t.range);
      DropRef(WakeGlobal(e1), t.range)
    case RegionWaiting => Cancelled(e, t)
    case GlobalWaiting => Cancelled(e, t)
    case NotInQueue => e
  }

  // ------------------------------------------------- bookkeeping of the lists

  lemma {:induction false} PlaceMembers(order: seq<Range>, k: Range)
    ensures forall o :: o in Place(order, k) <==> o == k || o in order
  {
    if order != [] && order[0] != k && !Before(k, order[0]) {
      PlaceMembers(order[1..], k);
      assert forall o :: o in order <==> o == order[0] || o in order[1..];
    }
  }

  /** Insertion with its early break keeps the list sorted and free of duplicates. */
  lemma {:induction false} PlaceSorted(order: seq<Range>, k: Range)
    requires Sorted(order)
    ensures Sorted(Place(order, k))
  {
    if order != [] && order[0] != k {
      if Before(k, order[0]) {
        forall j | 0 <= j < |order|
          ensures Before(k, order[j])
        {
          assert j > 0 ==> Before(order[0], order[j]);
        }
      } else {
        PlaceSorted(order[1..], k);
        PlaceMembers(order[1..], k);
        var rest := Place(order[1..], k);
        forall j | 0 <= j < |rest|
          ensures Before(order[0], rest[j])
        {
          assert rest[j] in rest;
          if rest[j] != k {
            var i :| 0 <= i < |order[1..]| && order[1..][i] == rest[j];
            assert order[1 + i] == rest[j];
          }
        }
      }
    }
  }

  lemma {:induction false} CountSnoc(tasks: seq<Task>, t: Task, kind: Kind)
    ensures CountKind(tasks + [t], kind) == CountKind(tasks, kind) + (if t.kind == kind then 1 else 0)
  {
    if tasks == [] {
      assert tasks + [t] == [t];
    } else {
      CountSnoc(tasks[1..], t, kind);
      assert (tasks + [t])[1..] == tasks[1..] + [t];
    }
  }

  lemma {:induction false} CountWithout(tasks: seq<Task>, t: Task, kind: Kind)
    requires t in tasks
    ensures CountKind(Without(tasks, t), kind) == CountKind(tasks, kind) - (if t.kind == kind then 1 else 0)
  {
    if tasks[0] != t {
      CountWithout(tasks[1..], t, kind);
    }
  }

  lemma {:induction false} WithoutMembers(tasks: seq<Task>, t: Task)
    ensures forall x :: x in Without(tasks, t) ==> x in tasks
    ensures tasks != [] && tasks[0] != t ==> Without(tasks, t) != [] && Without(tasks, t)[0] == tasks[0]
  {
    if tasks != [] && tasks[0] != t {
      WithoutMembers(tasks[1..], t);
    }
  }

  lemma {:induction false} CountBounds(tasks: seq<Task>)
    ensures CountKind(tasks, Shared) >= 0 && CountKind(tasks, Exclusive) >= 0
    ensures CountKind(tasks, Shared) + CountKind(tasks, Exclusive) == |tasks|
    ensures forall t :: t in tasks ==> CountKind(tasks, t.kind) > 0
  {
    if tasks != [] {
      CountBounds(tasks[1..]);
      assert forall t :: t in tasks <==> t == tasks[0] || t in tasks[1..];
    }
  }

  lemma ScanEmptyIffFree(e: Entry, t: Task, checkWaiting: bool)
    requires ListsRegions(e)
    ensures FullScan(e.order, e.regions, t, checkWaiting) == [] <==> !Blocked(e, t, checkWaiting)
  {
    FullScanMembers(e.order, e.regions, t, checkWaiting);
    var hits := FullScan(e.order, e.regions, t, checkWaiting);
    if hits != [] {
      assert hits[0] in hits;
      assert Conflicts(e, t, checkWaiting, hits[0]);
    }
    if Blocked(e, t, checkWaiting) {
      var k :| Conflicts(e, t, checkWaiting, k);
      assert k in hits;
    }
  }

  // ------------------------------------------------------- steps keep Core

  /** Replacing one region keeps Core when the new region is well formed and
      gets along with every overlapping neighbour. */
  lemma SetRegionKeepsCore(e: Entry, k: Range, r: Region)
    requires Core(e) && k in e.regions
    requires Counted(r) && SelfExclusive(r)
    requires forall t :: t in r.locked || t in r.waiting ==> t.range == k
    requires forall o :: o in e.regions && o != k && Overlap(k, o) ==>
               PairOk(r, e.regions[o]) && PairOk(e.regions[o], r)
    ensures Core(e.(regions := e.regions[k := r]))
  {
  }

  ghost predicate SameQueues(r1: Region, r2: Region) {
    r1 == r2.(refCount := r1.refCount)
  }

  lemma SameQueuesKeepPair(r1: Region, r2: Region, s1: Region, s2: Region)
    requires SameQueues(s1, r1) && SameQueues(s2, r2) && PairOk(r1, r2)
    ensures PairOk(s1, s2)
  {
    assert forall t :: t in s1.waiting ==> Quiet(r2, t.kind);
  }

  lemma GetRegionKeepsCore(e: Entry, k: Range)
    requires Core(e)
    ensures Core(GetRegionSpec(e, k))
  {
    PlaceMembers(e.order, k);
    PlaceSorted(e.order, k);
    var e1 := GetRegionSpec(e, k);
    assert forall o :: o in e.regions ==> SameQueues(e1.regions[o], e.regions[o]);
    forall k1, k2 | k1 in e1.regions && k2 in e1.regions && k1 != k2 && Overlap(k1, k2)
      ensures PairOk(e1.regions[k1], e1.regions[k2])
    {
      if k1 in e.regions && k2 in e.regions {
        SameQueuesKeepPair(e.regions[k1], e.regions[k2], e1.regions[k1], e1.regions[k2]);
      } else if k1 in e.regions {
        CountBounds(e.regions[k1].locked);
      }
    }
  }

  lemma GetRegionKeeps(e: Entry, k: Range)
    requires Inv(e)
    ensures Inv(GetRegionSpec(e, k))
  {
    GetRegionKeepsCore(e, k);
    var e1 := GetRegionSpec(e, k);
    if SomeLockHeld(e) {
      var h :| h in e.regions && e.regions[h].locked != [];
      assert e1.regions[h].locked != [];
    }
  }

  /** Granting is safe when no overlapping region holds a conflicting lock and
      no other overlapping region has waiters. */
  lemma GrantKeepsCore(e: Entry, t: Task)
    requires Core(e) && t.range in e.regions
    requires !Blocked(e, t, false)
    requires forall k :: k in e.regions && k != t.range && Overlap(t.range, k) ==> e.regions[k].waiting == []
    ensures Core(Grant(e, t))
  {
    var r := e.regions[t.range];
    CountSnoc(r.locked, t, Shared);
    CountSnoc(r.locked, t, Exclusive);
    assert !Conflicts(e, t, false, t.range);
    CountBounds(r.locked);
    forall k | k in e.regions && k != t.range && Overlap(t.range, k)
      ensures PairOk(AddLocked(r, t), e.regions[k]) && PairOk(e.regions[k], AddLocked(r, t))
    {
      assert !Conflicts(e, t, false, k);
      CountBounds(e.regions[k].locked);
      assert PairOk(r, e.regions[k]);
    }
    SetRegionKeepsCore(e, t.range, AddLocked(r, t));
  }

  lemma HolderOfConflict(r: Region, k: Range, kind: Kind)
    requires Counted(r) && RegionConflict(r, kind, true)
    requires forall t :: t in r.locked || t in r.waiting ==> t.range == k
    ensures Holder(r, true).Some? && Holder(r, true).value.range == k
  {
    CountBounds(r.locked);
  }

  lemma ScanFacts(e: Entry, t: Task)
    requires ListsRegions(e) && Filed(e)
    requires forall k :: k in e.regions ==> Counted(e.regions[k])
    ensures var s := ScanOf(e, t, true);
      && (s.found.None? <==> !Blocked(e, t, true))
      && (s.found.Some? ==> s.conflictRegions >= 1)
      && (s.found.Some? && s.conflictRegions == 1 ==>
            forall k :: Conflicts(e, t, true, k) <==> k == s.found.value.range)
  {
    var hits := FullScan(e.order, e.regions, t, true);
    FullScanMembers(e.order, e.regions, t, true);
    ScanEmptyIffFree(e, t, true);
    assert forall k :: k in hits <==> Conflicts(e, t, true, k);
    if hits != [] {
      assert hits[0] in hits;
      HolderOfConflict(e.regions[hits[0]], hits[0], t.kind);
    }
  }

  lemma ScanFoundIffBlocked(e: Entry, t: Task)
    requires ListsRegions(e) && forall k :: k in e.regions ==> Counted(e.regions[k])
    ensures ScanOf(e, t, false).found.Some? <==> Blocked(e, t, false)
  {
    FullScanMembers(e.order, e.regions, t, false);
    ScanEmptyIffFree(e, t, false);
    var hits := FullScan(e.order, e.regions, t, false);
    if hits != [] {
      assert hits[0] in hits;
      CountBounds(e.regions[hits[0]].locked);
    }
  }

  /** What the two-level conflict check tells: no holder means nothing blocks;
      a holder without the global flag means the task's own region is the only
      conflict; the global flag means a conflict or an earlier global waiter. */
  lemma VerdictFacts(e: Entry, t: Task)
    requires ListsRegions(e) && Filed(e)
    requires forall k :: k in e.regions ==> Counted(e.regions[k])
    ensures var v := VerdictOf(e, t);
      && (v.holder.None? ==> !Blocked(e, t, true))
      && (v.holder.Some? && !v.global ==> forall k :: Conflicts(e, t, true, k) <==> k == t.range)
      && (v.holder.Some? && v.global ==> Blocked(e, t, true) || e.waiting != [])
  {
    ScanFacts(e, t);
    var s := ScanOf(e, t, true);
    var w := FirstOverlapping(e.waiting, t.range);
  }

  lemma {:induction false} OverlappingWaiter(tasks: seq<Task>, range: Range)
    ensures FirstOverlapping(tasks, range).Some? <==> exists i :: 0 <= i < |tasks| && Overlap(range, tasks[i].range)
  {
    if tasks != [] && !Overlap(range, tasks[0].range) {
      OverlappingWaiter(tasks[1..], range);
      if FirstOverlapping(tasks[1..], range).Some? {
        var i :| 0 <= i < |tasks[1..]| && Overlap(range, tasks[1..][i].range);
        assert Overlap(range, tasks[i + 1].range);
      }
      forall i | 0 < i < |tasks| && Overlap(range, tasks[i].range)
        ensures FirstOverlapping(tasks[1..], range).Some?
      {
        assert tasks[1..][i - 1] == tasks[i];
      }
    }
  }

  /** A request is granted exactly when no overlapping region holds a conflicting
      lock or has waiters and, for a shared lock only, nobody with an overlapping
      range waits globally. */
  lemma GrantedExactly(e: Entry, t: Task)
    requires ListsRegions(e) && Filed(e)
    requires forall k :: k in e.regions ==> Counted(e.regions[k])
    ensures VerdictOf(e, t).holder.None? <==>
              && !Blocked(e, t, true)
              && (t.kind == Exclusive || !exists i :: 0 <= i < |e.waiting| && Overlap(t.range, e.waiting[i].range))
  {
    ScanFacts(e, t);
    OverlappingWaiter(e.waiting, t.range);
  }

  lemma EnqueueKeepsCore(e: Entry, t: Task)
    requires Core(e) && t.range in e.regions
    requires forall k :: Conflicts(e, t, true, k) <==> k == t.range
    ensures var r := e.regions[t.range];
      Core(e.(regions := e.regions[t.range := r.(waiting := r.waiting + [t])]))
  {
    var r := e.regions[t.range];
    var r' := r.(waiting := r.waiting + [t]);
    forall k | k in e.regions && k != t.range && Overlap(t.range, k)
      ensures PairOk(r', e.regions[k]) && PairOk(e.regions[k], r')
    {
      assert PairOk(r, e.regions[k]) && PairOk(e.regions[k], r);
      assert !Conflicts(e, t, true, k);
    }
    SetRegionKeepsCore(e, t.range, r');
  }

  lemma GrantKeepsLocks(e: Entry, t: Task)
    requires t.range in e.regions
    ensures SomeLockHeld(Grant(e, t))
    ensures RegionWaitersHaveLock(e) ==> RegionWaitersHaveLock(Grant(e, t))
  {
    assert Grant(e, t).regions[t.range].locked != [];
  }

  lemma FreeOfWaiters(e: Entry, t: Task)
    requires !Blocked(e, t, true)
    ensures !Blocked(e, t, false)
    ensures forall k :: k in e.regions && Overlap(t.range, k) ==> e.regions[k].waiting == []
  {
    forall k | k in e.regions && Overlap(t.range, k)
      ensures e.regions[k].waiting == []
    {
      assert !Conflicts(e, t, true, k);
    }
    if Blocked(e, t, false) {
      var k :| Conflicts(e, t, false, k);
      assert Conflicts(e, t, true, k);
    }
  }

  lemma BlockedNeedsLock(e: Entry, t: Task, checkWaiting: bool)
    requires Core(e) && RegionWaitersHaveLock(e) && Blocked(e, t, checkWaiting)
    ensures SomeLockHeld(e)
  {
    var k :| Conflicts(e, t, checkWaiting, k);
    CountBounds(e.regions[k].locked);
    assert e.regions[k].locked != [];
  }

  lemma FreeKeepsInv(e: Entry, t: Task)
    requires Inv(e) && t.range in e.regions && VerdictOf(e, t).holder.None?
    ensures Inv(Grant(e, t))
  {
    VerdictFacts(e, t);
    FreeOfWaiters(e, t);
    GrantKeepsCore(e, t);
    GrantKeepsLocks(e, t);
  }

  lemma GlobalWaitKeepsInv(e: Entry, t: Task)
    requires Inv(e) && t.range in e.regions && VerdictOf(e, t).holder.Some? && VerdictOf(e, t).global
    ensures Inv(e.(waiting := e.waiting + [t]))
  {
    VerdictFacts(e, t);
    if e.waiting == [] {
      BlockedNeedsLock(e, t, true);
    }
    var h :| h in e.regions && e.regions[h].locked != [];
    assert h in e.(waiting := e.waiting + [t]).regions;
  }

  lemma RegionWaitKeepsInv(e: Entry, t: Task)
    requires Inv(e) && t.range in e.regions && VerdictOf(e, t).holder.Some? && !VerdictOf(e, t).global
    ensures var r := e.regions[t.range]; Inv(e.(regions := e.regions[t.range := r.(waiting := r.waiting + [t])]))
  {
    VerdictFacts(e, t);
    EnqueueKeepsCore(e, t);
    assert Conflicts(e, t, true, t.range);
    CountBounds(e.regions[t.range].locked);
    var r := e.regions[t.range];
    var e' := e.(regions := e.regions[t.range := r.(waiting := r.waiting + [t])]);
    assert t.range in e'.regions && e'.regions[t.range].locked != [];
  }

  lemma DecideKeepsInv(e: Entry, t: Task, block: bool)
    requires Inv(e) && t.range in e.regions
    ensures Inv(Decide(e, t, block).1)
  {
    var v := VerdictOf(e, t);
    if v.holder.None? {
      FreeKeepsInv(e, t);
    } else if v.global {
      GlobalWaitKeepsInv(e, t);
    } else {
      RegionWaitKeepsInv(e, t);
    }
  }

  /** A request, whatever its outcome, keeps the invariant. */
  lemma ApplyKeepsInv(e: Entry, t: Task, block: bool)
    requires Inv(e)
    ensures Inv(ApplySpec(e, t, block).1)
  {
    GetRegionKeeps(e, t.range);
    DecideKeepsInv(GetRegionSpec(e, t.range), t, block);
  }

  // ------------------------------------------------------------- wake-ups

  ghost predicate WaitersHaveLockExcept(e: Entry, k: Range) {
    forall o :: o in e.regions && o != k && e.regions[o].waiting != [] ==> e.regions[o].locked != []
  }

  lemma PopKeepsCore(e: Entry, k: Range)
    requires Core(e) && k in e.regions && e.regions[k].waiting != []
    ensures var r := e.regions[k];
      Core(e.(regions := e.regions[k := r.(waiting := r.waiting[1..])]))
  {
    var r := e.regions[k];
    var r' := r.(waiting := r.waiting[1..]);
    forall o | o in e.regions && o != k && Overlap(k, o)
      ensures PairOk(r', e.regions[o]) && PairOk(e.regions[o], r')
    {
      assert PairOk(r, e.regions[o]) && PairOk(e.regions[o], r);
    }
    SetRegionKeepsCore(e, k, r');
  }

  lemma NeighboursQuiet(e: Entry, k: Range)
    requires Core(e) && k in e.regions && e.regions[k].waiting != []
    ensures forall o :: o in e.regions && o != k && Overlap(k, o) ==>
              e.regions[o].waiting == [] && !LockConflict(e.regions[o], e.regions[k].waiting[0].kind)
  {
    forall o | o in e.regions && o != k && Overlap(k, o)
      ensures e.regions[o].waiting == [] && !LockConflict(e.regions[o], e.regions[k].waiting[0].kind)
    {
      assert PairOk(e.regions[k], e.regions[o]);
      assert e.regions[k].waiting[0] in e.regions[k].waiting;
    }
  }

  /** One turn of a region's wake-up loop. */
  lemma WakeRegionStep(e: Entry, k: Range)
    requires Core(e) && k in e.regions && e.regions[k].waiting != []
    requires !Blocked(e, e.regions[k].waiting[0], false)
    ensures var r := e.regions[k];
      Core(e.(regions := e.regions[k := AddLocked(r.(waiting := r.waiting[1..]), r.waiting[0])]))
  {
    var r := e.regions[k];
    var w := r.waiting[0];
    assert w in r.waiting;
    NeighboursQuiet(e, k);
    PopKeepsCore(e, k);
    var e1 := e.(regions := e.regions[k := r.(waiting := r.waiting[1..])]);
    forall o
      ensures !Conflicts(e1, w, false, o)
    {
      assert !Conflicts(e, w, false, o);
    }
    GrantKeepsCore(e1, w);
    assert Grant(e1, w).regions == e.regions[k := AddLocked(r.(waiting := r.waiting[1..]), w)];
  }

  lemma HeadBlockedByOwnLock(e: Entry, k: Range)
    requires Core(e) && k in e.regions && e.regions[k].waiting != []
    requires Blocked(e, e.regions[k].waiting[0], false)
    ensures LockConflict(e.regions[k], e.regions[k].waiting[0].kind) && e.regions[k].locked != []
  {
    var w := e.regions[k].waiting[0];
    assert w in e.regions[k].waiting;
    NeighboursQuiet(e, k);
    var o :| Conflicts(e, w, false, o);
    assert o == k;
    CountBounds(e.regions[k].locked);
  }

  /** After its wake-up loop a region's queue is empty or its head is blocked
      by a lock of that same region: the neighbours cannot be the obstacle. */
  lemma {:induction false} WakeRegionKeeps(e: Entry, k: Range)
    requires Core(e) && k in e.regions && WaitersHaveLockExcept(e, k)
    ensures var e' := WakeRegion(e, k);
      && Core(e') && RegionWaitersHaveLock(e')
      && (e'.regions[k].waiting != [] ==> LockConflict(e'.regions[k], e'.regions[k].waiting[0].kind))
      && (forall o :: o in e.regions && o != k ==> e'.regions[o] == e.regions[o])
    decreases |e.regions[k].waiting|
  {
    var r := e.regions[k];
    if r.waiting != [] {
      ScanEmptyIffFree(e, r.waiting[0], false);
      if Blocked(e, r.waiting[0], false) {
        HeadBlockedByOwnLock(e, k);
      } else {
        WakeRegionStep(e, k);
        var e1 := e.(regions := e.regions[k := AddLocked(r.(waiting := r.waiting[1..]), r.waiting[0])]);
        assert WaitersHaveLockExcept(e1, k);
        WakeRegionKeeps(e1, k);
      }
    }
  }

  /** One turn of the global wake-up loop. */
  lemma WakeGlobalStep(e: Entry)
    requires Core(e) && RegionWaitersHaveLock(e) && e.waiting != [] && !Blocked(e, e.waiting[0], true)
    ensures e.waiting[0].range in e.regions
    ensures var e' := Grant(e.(waiting := e.waiting[1..]), e.waiting[0]);
      Core(e') && RegionWaitersHaveLock(e')
  {
    var w := e.waiting[0];
    assert w in e.waiting;
    var e1 := e.(waiting := e.waiting[1..]);
    FreeOfWaiters(e, w);
    forall o
      ensures !Conflicts(e1, w, false, o)
    {
      assert !Conflicts(e, w, false, o);
    }
    GrantKeepsCore(e1, w);
    GrantKeepsLocks(e1, w);
  }

  /** After the global wake-up loop the global queue is empty or its head is
      blocked; region queues are untouched and locks only grow. */
  lemma {:induction false} WakeGlobalKeeps(e: Entry)
    requires Core(e) && RegionWaitersHaveLock(e)
    ensures var e' := WakeGlobal(e);
      && Inv(e')
      && (e'.waiting != [] ==> Blocked(e', e'.waiting[0], true))
      && (forall k, kind :: k in e.regions && LockConflict(e.regions[k], kind) ==> LockConflict(e'.regions[k], kind))
      && (forall k :: k in e.regions ==> e'.regions[k].waiting == e.regions[k].waiting)
    decreases |e.waiting|
  {
    if e.waiting != [] {
      ScanEmptyIffFree(e, e.waiting[0], true);
      if Blocked(e, e.waiting[0], true) {
        BlockedNeedsLock(e, e.waiting[0], true);
      } else {
        WakeGlobalStep(e);
        WakeGlobalKeeps(Grant(e.(waiting := e.waiting[1..]), e.waiting[0]));
      }
    }
  }

  lemma UnlockKeepsCore(e: Entry, t: Task)
    requires Core(e) && t.range in e.regions && t in e.regions[t.range].locked
    ensures Core(Unlocked(e, t))
  {
    var r := e.regions[t.range];
    var r' := RemoveLocked(r, t);
    CountWithout(r.locked, t, Shared);
    CountWithout(r.locked, t, Exclusive);
    WithoutMembers(r.locked, t);
    CountBounds(r.locked);
    CountBounds(r'.locked);
    forall o | o in e.regions && o != t.range && Overlap(t.range, o)
      ensures PairOk(r', e.regions[o]) && PairOk(e.regions[o], r')
    {
      assert PairOk(r, e.regions[o]) && PairOk(e.regions[o], r);
      CountBounds(e.regions[o].locked);
    }
    SetRegionKeepsCore(e, t.range, r');
  }

  lemma DropRefKeepsCore(e: Entry, k: Range)
    requires k in e.regions && Core(e)
    ensures Core(DropRef(e, k))
  {
    var r := e.regions[k];
    var r' := r.(refCount := r.refCount - 1);
    forall o | o in e.regions && o != k && Overlap(k, o)
      ensures PairOk(r', e.regions[o]) && PairOk(e.regions[o], r')
    {
      SameQueuesKeepPair(r, e.regions[o], r', e.regions[o]);
      SameQueuesKeepPair(e.regions[o], r, e.regions[o], r');
    }
    SetRegionKeepsCore(e, k, r');
  }

  lemma DropRefKeepsInv(e: Entry, k: Range)
    requires k in e.regions && Inv(e)
    ensures Inv(DropRef(e, k))
  {
    DropRefKeepsCore(e, k);
    if SomeLockHeld(e) {
      var h :| h in e.regions && e.regions[h].locked != [];
      assert DropRef(e, k).regions[h].locked != [];
    }
  }

  lemma DropRefKeepsHeads(e: Entry, k: Range)
    requires k in e.regions && HeadsBlocked(e)
    ensures HeadsBlocked(DropRef(e, k))
  {
    if e.waiting != [] {
      var o :| Conflicts(e, e.waiting[0], true, o);
      assert Conflicts(DropRef(e, k), e.waiting[0], true, o);
    }
  }

  // --------------------------------------------------------------- release

  lemma ReleaseLockedKeepsInv(e: Entry, t: Task)
    requires Inv(e) && WhichQueue(e, t) == Locked
    ensures Inv(ReleaseSpec(e, t))
  {
    UnlockKeepsCore(e, t);
    WakeRegionKeeps(Unlocked(e, t), t.range);
    var e2 := WakeRegion(Unlocked(e, t), t.range);
    WakeGlobalKeeps(e2);
    DropRefKeepsInv(WakeGlobal(e2), t.range);
  }

  ghost predicate RegionHeadsBlocked(e: Entry) {
    forall k :: k in e.regions && e.regions[k].waiting != [] ==>
      LockConflict(e.regions[k], e.regions[k].waiting[0].kind)
  }

  lemma UnlockedReady(e: Entry, t: Task)
    requires Inv(e) && RegionHeadsBlocked(e) && WhichQueue(e, t) == Locked
    ensures var e1 := Unlocked(e, t);
      && Core(e1) && WaitersHaveLockExcept(e1, t.range)
      && (forall k :: k in e1.regions && k != t.range && e1.regions[k].waiting != [] ==>
            LockConflict(e1.regions[k], e1.regions[k].waiting[0].kind))
  {
    UnlockKeepsCore(e, t);
  }

  lemma WakeBlocksHeads(e: Entry, k: Range)
    requires Core(e) && k in e.regions && WaitersHaveLockExcept(e, k)
    requires forall o :: o in e.regions && o != k && e.regions[o].waiting != [] ==>
               LockConflict(e.regions[o], e.regions[o].waiting[0].kind)
    ensures RegionHeadsBlocked(WakeRegion(e, k))
  {
    WakeRegionKeeps(e, k);
  }

  lemma WakeRegionBlocksHeads(e: Entry, t: Task)
    requires Inv(e) && RegionHeadsBlocked(e) && WhichQueue(e, t) == Locked
    ensures RegionHeadsBlocked(WakeRegion(Unlocked(e, t), t.range))
    ensures Core(WakeRegion(Unlocked(e, t), t.range)) && RegionWaitersHaveLock(WakeRegion(Unlocked(e, t), t.range))
  {
    UnlockedReady(e, t);
    WakeBlocksHeads(Unlocked(e, t), t.range);
    WakeRegionKeeps(Unlocked(e, t), t.range);
  }

  lemma WakeGlobalBlocksHeads(e: Entry)
    requires Core(e) && RegionWaitersHaveLock(e) && RegionHeadsBlocked(e)
    ensures HeadsBlocked(WakeGlobal(e))
  {
    WakeGlobalKeeps(e);
  }

  /** Releasing a held lock leaves no queue whose head could be granted. */
  lemma ReleaseLockedKeepsHeads(e: Entry, t: Task)
    requires Inv(e) && RegionHeadsBlocked(e) && WhichQueue(e, t) == Locked
    ensures HeadsBlocked(ReleaseSpec(e, t))
  {
    WakeRegionBlocksHeads(e, t);
    var e2 := WakeRegion(Unlocked(e, t), t.range);
    WakeGlobalBlocksHeads(e2);
    DropRefKeepsHeads(WakeGlobal(e2), t.range);
  }

  lemma WithoutKeepsPair(r1: Region, r2: Region, t: Task)
    requires PairOk(r1, r2)
    ensures PairOk(r1.(waiting := Without(r1.waiting, t)), r2)
    ensures PairOk(r1, r2.(waiting := Without(r2.waiting, t)))
  {
    WithoutMembers(r1.waiting, t);
    forall x | x in r1.waiting
      ensures Quiet(r2.(waiting := Without(r2.waiting, t)), x.kind)
    {
      assert Quiet(r2, x.kind);
    }
  }

  lemma CancelRegionKeepsCore(e: Entry, t: Task)
    requires Core(e) && t.range in e.regions
    ensures var r := e.regions[t.range];
      Core(e.(regions := e.regions[t.range := r.(waiting := Without(r.waiting, t))]))
  {
    var r := e.regions[t.range];
    var r' := r.(waiting := Without(r.waiting, t));
    WithoutMembers(r.waiting, t);
    forall o | o in e.regions && o != t.range && Overlap(t.range, o)
      ensures PairOk(r', e.regions[o]) && PairOk(e.regions[o], r')
    {
      CancelKeepsPair(e, t, o);
    }
    SetRegionKeepsCore(e, t.range, r');
  }

  lemma CancelKeepsPair(e: Entry, t: Task, o: Range)
    requires Core(e) && t.range in e.regions && o in e.regions && o != t.range && Overlap(t.range, o)
    ensures var r := e.regions[t.range];
      var r' := r.(waiting := Without(r.waiting, t)); PairOk(r', e.regions[o]) && PairOk(e.regions[o], r')
  {
    assert Overlap(o, t.range);
    assert PairOk(e.regions[t.range], e.regions[o]) && PairOk(e.regions[o], e.regions[t.range]);
    WithoutKeepsPair(e.regions[t.range], e.regions[o], t);
    WithoutKeepsPair(e.regions[o], e.regions[t.range], t);
  }

  lemma CancelKeepsInv(e: Entry, t: Task)
    requires Inv(e) && (WhichQueue(e, t) == RegionWaiting || WhichQueue(e, t) == GlobalWaiting)
    ensures Inv(ReleaseSpec(e, t))
  {
    var r := e.regions[t.range];
    if t in r.waiting {
      CancelRegionKeepsCore(e, t);
      WithoutMembers(r.waiting, t);
      var e1 := e.(regions := e.regions[t.range := r.(waiting := Without(r.waiting, t))]);
      if SomeLockHeld(e) {
        var h :| h in e.regions && e.regions[h].locked != [];
        assert e1.regions[h].locked != [];
      }
      DropRefKeepsInv(e1, t.range);
    } else {
      WithoutMembers(e.waiting, t);
      var e1 := e.(waiting := Without(e.waiting, t));
      DropRefKeepsInv(e1, t.range);
    }
  }

  // ---------------------------------------------------------------- heads

  lemma BlockedGrows(e: Entry, e': Entry, t: Task)
    requires Blocked(e, t, true)
    requires forall k :: k in e.regions ==> k in e'.regions
    requires forall k :: k in e.regions && RegionConflict(e.regions[k], t.kind, true) ==>
               RegionConflict(e'.regions[k], t.kind, true)
    ensures Blocked(e', t, true)
  {
    var k :| Conflicts(e, t, true, k);
    assert Conflicts(e', t, true, k);
  }

  lemma GetRegionKeepsHeads(e: Entry, k: Range)
    requires HeadsBlocked(e)
    ensures HeadsBlocked(GetRegionSpec(e, k))
  {
    if e.waiting != [] {
      BlockedGrows(e, GetRegionSpec(e, k), e.waiting[0]);
    }
  }

  lemma EnqueueKeepsHeads(e: Entry, t: Task)
    requires HeadsBlocked(e) && t.range in e.regions && Conflicts(e, t, true, t.range)
    ensures var r := e.regions[t.range];
      HeadsBlocked(e.(regions := e.regions[t.range := r.(waiting := r.waiting + [t])]))
  {
    var r := e.regions[t.range];
    var e' := e.(regions := e.regions[t.range := r.(waiting := r.waiting + [t])]);
    if e.waiting != [] {
      BlockedGrows(e, e', e.waiting[0]);
    }
  }

  lemma GrantKeepsHeads(e: Entry, t: Task)
    requires HeadsBlocked(e) && t.range in e.regions && Counted(e.regions[t.range])
    ensures HeadsBlocked(Grant(e, t))
  {
    CountBounds(e.regions[t.range].locked);
    if e.waiting != [] {
      BlockedGrows(e, Grant(e, t), e.waiting[0]);
    }
  }

  lemma DecideKeepsHeads(e: Entry, t: Task, block: bool)
    requires ListsRegions(e) && Filed(e) && t.range in e.regions && HeadsBlocked(e)
    requires forall k :: k in e.regions ==> Counted(e.regions[k])
    ensures HeadsBlocked(Decide(e, t, block).1)
  {
    VerdictFacts(e, t);
    var v := VerdictOf(e, t);
    if v.holder.None? {
      GrantKeepsHeads(e, t);
    } else if v.global {
      var head := if e.waiting == [] then t else e.waiting[0];
      assert Blocked(e, head, true);
      BlockedGrows(e, e.(waiting := e.waiting + [t]), head);
    } else {
      EnqueueKeepsHeads(e, t);
    }
  }

  /** A request never leaves a queue whose head could already be granted. */
  lemma ApplyKeepsHeads(e: Entry, t: Task, block: bool)
    requires Inv(e) && HeadsBlocked(e)
    ensures HeadsBlocked(ApplySpec(e, t, block).1)
  {
    GetRegionKeepsCore(e, t.range);
    GetRegionKeepsHeads(e, t.range);
    DecideKeepsHeads(GetRegionSpec(e, t.range), t, block);
  }

  // ------------------------------------------------------------------ runs

  // A release of a waiting task is a cancel.
  datatype Op = ApplyOp(task: Task, block: bool) | ReleaseOp(task: Task)

  lemma ReleaseKeepsInv(e: Entry, t: Task)
    requires Inv(e)
    ensures Inv(ReleaseSpec(e, t))
  {
    match WhichQueue(e, t) {
      case Locked => ReleaseLockedKeepsInv(e, t);
      case RegionWaiting => CancelKeepsInv(e, t);
      case GlobalWaiting => CancelKeepsInv(e, t);
      case NotInQueue =>
    }
  }

  function Step(e: Entry, op: Op): (e': Entry)
    requires Inv(e)
    ensures Inv(e')
  {
    match op
    case ApplyOp(t, block) => ApplyKeepsInv(e, t, block); ApplySpec(e, t, block).1
    case ReleaseOp(t) => ReleaseKeepsInv(e, t); ReleaseSpec(e, t)
  }

  /** The state of a file after any sequence of requests, releases and cancels. */
  function Run(ops: seq<Op>): (e: Entry)
    ensures Inv(e)
  {
    if ops == [] then EMPTY_ENTRY else Step(Run(ops[..|ops| - 1]), ops[|ops| - 1])
  }

  lemma HeldKinds(r: Region, i: int)
    requires Counted(r) && 0 <= i < |r.locked|
    ensures r.locked[i].kind == Shared || r.writers > 0
    ensures r.locked[i].kind == Exclusive || r.readers > 0
    ensures r.readers >= 0 && r.writers >= 0
  {
    CountBounds(r.locked);
    assert r.locked[i] in r.locked;
  }

  lemma OneRegionExcludes(r: Region, i1: int, i2: int)
    requires Counted(r) && SelfExclusive(r) && 0 <= i1 < |r.locked| && 0 <= i2 < |r.locked| && i1 != i2
    ensures r.locked[i1].kind == Shared && r.locked[i2].kind == Shared
  {
    CountBounds(r.locked);
    assert r.locked[i1] in r.locked && r.locked[i2] in r.locked;
  }

  lemma TwoRegionsExclude(r1: Region, r2: Region, i1: int, i2: int)
    requires Counted(r1) && Counted(r2) && PairOk(r1, r2) && PairOk(r2, r1)
    requires 0 <= i1 < |r1.locked| && 0 <= i2 < |r2.locked|
    ensures r1.locked[i1].kind == Shared && r2.locked[i2].kind == Shared
  {
    HeldKinds(r1, i1);
    HeldKinds(r2, i2);
  }

  lemma ExcludeIn(e: Entry, k1: Range, i1: int, k2: Range, i2: int)
    requires Core(e) && k1 in e.regions && 0 <= i1 < |e.regions[k1].locked|
    requires k2 in e.regions && 0 <= i2 < |e.regions[k2].locked|
    requires (k1, i1) != (k2, i2) && Overlap(k1, k2)
    ensures e.regions[k1].locked[i1].kind == Shared && e.regions[k2].locked[i2].kind == Shared
  {
    var r1, r2 := e.regions[k1], e.regions[k2];
    if k1 == k2 {
      OneRegionExcludes(r1, i1, i2);
    } else {
      assert Overlap(k2, k1);
      assert PairOk(r1, r2) && PairOk(r2, r1);
      TwoRegionsExclude(r1, r2, i1, i2);
    }
  }

  /** Two different held locks on overlapping ranges are both shared. */
  lemma LocksExclude(ops: seq<Op>, k1: Range, i1: int, k2: Range, i2: int)
    requires k1 in Run(ops).regions && 0 <= i1 < |Run(ops).regions[k1].locked|
    requires k2 in Run(ops).regions && 0 <= i2 < |Run(ops).regions[k2].locked|
    requires (k1, i1) != (k2, i2) && Overlap(k1, k2)
    ensures Run(ops).regions[k1].locked[i1].kind == Shared
    ensures Run(ops).regions[k2].locked[i2].kind == Shared
  {
    ExcludeIn(Run(ops), k1, i1, k2, i2);
  }

  /** Each region's counters describe its held list. */
  lemma CountersMatch(ops: seq<Op>, k: Range)
    requires k in Run(ops).regions
    ensures var r := Run(ops).regions[k];
      && r.readers == CountKind(r.locked, Shared)
      && r.writers == CountKind(r.locked, Exclusive)
      && r.readers + r.writers == |r.locked|
  {
    CountBounds(Run(ops).regions[k].locked);
  }

  /** A region with waiters holds a lock of its own, two overlapping regions
      never both have waiters, and whenever anything waits some lock is held. */
  lemma NoStrandedWaiter(ops: seq<Op>)
    ensures var e := Run(ops);
      && (forall k :: k in e.regions && e.regions[k].waiting != [] ==> e.regions[k].locked != [])
      && (forall k1, k2 :: k1 in e.regions && k2 in e.regions && k1 != k2 && Overlap(k1, k2) ==>
            e.regions[k1].waiting == [] || e.regions[k2].waiting == [])
      && (e.waiting != [] || (exists k :: k in e.regions && e.regions[k].waiting != []) ==>
            exists k :: k in e.regions && e.regions[k].locked != [])
  {
    var e := Run(ops);
    forall k1, k2 | k1 in e.regions && k2 in e.regions && k1 != k2 && Overlap(k1, k2)
      ensures e.regions[k1].waiting == [] || e.regions[k2].waiting == []
    {
      assert PairOk(e.regions[k1], e.regions[k2]);
      if e.regions[k1].waiting != [] {
        assert e.regions[k1].waiting[0] in e.regions[k1].waiting;
      }
    }
  }

  /** A cancel that takes away the task its queue is waiting behind. */
  ghost predicate CancelsHead(e: Entry, op: Op) {
    && op.ReleaseOp?
    && match WhichQueue(e, op.task)
       case RegionWaiting => e.regions[op.task.range].waiting[0] == op.task
       case GlobalWaiting => e.waiting[0] == op.task
       case _ => false
  }

  lemma CancelKeepsHeads(e: Entry, t: Task)
    requires Inv(e) && HeadsBlocked(e) && !CancelsHead(e, ReleaseOp(t))
    requires WhichQueue(e, t) == RegionWaiting || WhichQueue(e, t) == GlobalWaiting
    ensures HeadsBlocked(ReleaseSpec(e, t))
  {
    var r := e.regions[t.range];
    if t in r.waiting {
      WithoutMembers(r.waiting, t);
      var e1 := e.(regions := e.regions[t.range := r.(waiting := Without(r.waiting, t))]);
      if e.waiting != [] {
        BlockedGrows(e, e1, e.waiting[0]);
      }
      DropRefKeepsHeads(e1, t.range);
    } else {
      WithoutMembers(e.waiting, t);
      var e1 := e.(waiting := Without(e.waiting, t));
      BlockedGrows(e, e1, e.waiting[0]);
      DropRefKeepsHeads(e1, t.range);
    }
  }

  lemma StepKeepsHeads(e: Entry, op: Op)
    requires Inv(e) && HeadsBlocked(e) && !CancelsHead(e, op)
    ensures HeadsBlocked(Step(e, op))
  {
    match op {
      case ApplyOp(t, block) => ApplyKeepsHeads(e, t, block);
      case ReleaseOp(t) =>
        match WhichQueue(e, t) {
          case Locked => ReleaseLockedKeepsHeads(e, t);
          case RegionWaiting => CancelKeepsHeads(e, t);
          case GlobalWaiting => CancelKeepsHeads(e, t);
          case NotInQueue =>
        }
    }
  }

  // ------------------------------------------------------- the lock entry

  lemma {:induction false} PlaceSplit(order: seq<Range>, k: Range, i: nat)
    requires i <= |order|
    requires forall j :: 0 <= j < i ==> order[j] != k && !Before(k, order[j])
    ensures Place(order, k) == order[..i] + Place(order[i..], k)
  {
    if i == 0 {
      assert order[..0] + Place(order[0..], k) == Place(order, k);
    } else {
      PlaceSplit(order[1..], k, i - 1);
      assert order[1..][i - 1..] == order[i..];
      assert order[..i] == [order[0]] + order[1..][..i - 1];
    }
  }

  lemma {:induction false} FirstOverlappingSplit(tasks: seq<Task>, r: Range, i: nat)
    requires i <= |tasks|
    requires forall j :: 0 <= j < i ==> !Overlap(r, tasks[j].range)
    ensures FirstOverlapping(tasks, r) == FirstOverlapping(tasks[i..], r)
  {
    if i > 0 {
      FirstOverlappingSplit(tasks[1..], r, i - 1);
      assert tasks[1..][i - 1..] == tasks[i..];
    }
  }

  lemma PlaceAt(order: seq<Range>, k: Range, i: nat)
    requires Sorted(order) && i <= |order|
    requires forall j :: 0 <= j < i ==> order[j] != k && !Before(k, order[j])
    requires i == |order| || order[i] == k || Before(k, order[i])
    ensures i < |order| && order[i] == k ==> k in order && Place(order, k) == order
    ensures !(i < |order| && order[i] == k) ==> k !in order && Place(order, k) == order[..i] + [k] + order[i..]
  {
    PlaceSplit(order, k, i);
    assert order[..i] + order[i..] == order;
    if i == |order| || order[i] != k {
      forall j | 0 <= j < |order|
        ensures order[j] != k
      {
        if i <= j {
          assert i == j || Before(order[i], order[j]);
        }
      }
    }
  }

  ghost predicate AllCounted(regions: map<Range, Region>) {
    forall k :: k in regions ==> Counted(regions[k])
  }

  lemma FoundForm(e: Entry, k: Range)
    requires k in e.regions && Place(e.order, k) == e.order
    ensures GetRegionSpec(e, k) == e.(regions := e.regions[k := e.regions[k].(refCount := e.regions[k].refCount + 1)])
  {
  }

  lemma NewForm(e: Entry, k: Range, order: seq<Range>)
    requires k !in e.regions && Place(e.order, k) == order
    ensures GetRegionSpec(e, k) == Entry(order, e.regions[k := NEW_REGION.(refCount := 1)], e.waiting)
  {
  }

  lemma InOrderIffIn(e: Entry, k: Range)
    requires ListsRegions(e)
    ensures k in e.order <==> k in e.regions
  {
  }

  /** What the list walk found at position i decides how the region is got. */
  lemma RegionAt(e: Entry, k: Range, i: nat, placed: seq<Range>)
    requires ListsRegions(e) && i <= |e.order| && placed == e.order[..i] + [k] + e.order[i..]
    requires forall j :: 0 <= j < i ==> e.order[j] != k && !Before(k, e.order[j])
    requires i == |e.order| || e.order[i] == k || Before(k, e.order[i])
    ensures i < |e.order| && e.order[i] == k ==> k in e.regions
    ensures i < |e.order| && e.order[i] == k ==>
      GetRegionSpec(e, k) == e.(regions := e.regions[k := e.regions[k].(refCount := e.regions[k].refCount + 1)])
    ensures !(i < |e.order| && e.order[i] == k) ==>
      GetRegionSpec(e, k) == Entry(placed, e.regions[k := NEW_REGION.(refCount := 1)], e.waiting)
  {
    PlaceAt(e.order, k, i);
    InOrderIffIn(e, k);
    if i < |e.order| && e.order[i] == k {
      FoundForm(e, k);
    } else {
      NewForm(e, k, placed);
    }
  }

  /** What the scan loop knows after visiting a prefix of the region list. */
  ghost predicate Scanned(order: seq<Range>, regions: map<Range, Region>, t: Task, checkWaiting: bool, scan: Scan) {
    && (forall k :: k in order ==> k in regions)
    && var hits := FullScan(order, regions, t, checkWaiting);
       && scan.conflictRegions == |hits|
       && (hits == [] ==> scan.found == None)
       && (hits != [] ==> hits[0] in regions && scan.found == Holder(regions[hits[0]], checkWaiting) && scan.found.Some?)
  }

  lemma ScanVisit(order: seq<Range>, k: Range, regions: map<Range, Region>, t: Task, checkWaiting: bool, scan: Scan)
    requires Scanned(order, regions, t, checkWaiting, scan) && k in regions && Counted(regions[k])
    ensures if Overlap(t.range, k) && RegionConflict(regions[k], t.kind, checkWaiting)
            then Scanned(order + [k], regions, t, checkWaiting,
                         Scan(if scan.found.None? then Holder(regions[k], checkWaiting) else scan.found,
                              scan.conflictRegions + 1))
            else Scanned(order + [k], regions, t, checkWaiting, scan)
  {
    FullScanSnoc(order, k, regions, t, checkWaiting);
    CountBounds(regions[k].locked);
  }

  lemma ScanStop(order: seq<Range>, i: nat, regions: map<Range, Region>, t: Task, checkWaiting: bool, scan: Scan)
    requires Sorted(order) && i <= |order| && forall k :: k in order ==> k in regions
    requires Scanned(order[..i], regions, t, checkWaiting, scan)
    requires i == |order| ||
             (t.range.length > 0 && t.range.offset + t.range.length < order[i].offset)
    ensures Scanned(order, regions, t, checkWaiting, scan)
  {
    assert order[..i] + order[i..] == order;
    forall k | k in order[i..]
      ensures !Overlap(t.range, k)
    {
      var j :| i <= j < |order| && order[j] == k;
      assert i == j || Before(order[i], order[j]);
    }
    FullScanSkips(order[..i], order[i..], regions, t, checkWaiting);
  }

  class FLockEntry {
    var order: seq<Range>
    var regions: map<Range, Region>
    var waitingTasks: seq<Task>

    ghost function View(): Entry
      reads this
    {
      Entry(order, regions, waitingTasks)
    }

    constructor ()
      ensures View() == EMPTY_ENTRY
    {
      order, regions, waitingTasks := [], map[], [];
    }

    /** The list walk that finds or inserts a region, with its early break. */
    method GetRegion(k: Range)
      requires ListsRegions(View())
      modifies this
      ensures View() == GetRegionSpec(old(View()), k)
    {
      var i := 0;
      while i < |order| && order[i] != k && !Before(k, order[i])
        invariant 0 <= i <= |order|
        invariant forall j :: 0 <= j < i ==> order[j] != k && !Before(k, order[j])
      {
        i := i + 1;
      }
      var placed := order[..i] + [k] + order[i..];
      RegionAt(View(), k, i, placed);
      if i < |order| && order[i] == k {
        regions := regions[k := regions[k].(refCount := regions[k].refCount + 1)];
      } else {
        regions := regions[k := NEW_REGION.(refCount := 1)];
        order := placed;
      }
    }

    /** The scan with its early exit finds what the full scan finds. */
    method GetConflictByRegion(t: Task, checkWaiting: bool) returns (found: Option<Task>, conflictRegions: int)
      requires ListsRegions(View()) && AllCounted(regions)
      ensures Scan(found, conflictRegions) == ScanOf(View(), t, checkWaiting)
    {
      found, conflictRegions := None, 0;
      var i := 0;
      while i < |order|
        invariant 0 <= i <= |order|
        invariant Scanned(order[..i], regions, t, checkWaiting, Scan(found, conflictRegions))
      {
        var k := order[i];
        assert order[..i + 1] == order[..i] + [k];
        ScanVisit(order[..i], k, regions, t, checkWaiting, Scan(found, conflictRegions));
        if Overlap(t.range, k) {
          if checkWaiting && regions[k].waiting != [] {
            conflictRegions := conflictRegions + 1;
            if found.None? {
              found := Some(regions[k].waiting[0]);
            }
          } else if LockConflict(regions[k], t.kind) {
            conflictRegions := conflictRegions + 1;
            if found.None? {
              found := First(regions[k].locked);
            }
          }
        } else if t.range.length > 0 && t.range.offset + t.range.length < k.offset {
          break;
        }
        i := i + 1;
      }
      ScanStop(order, i, regions, t, checkWaiting, Scan(found, conflictRegions));
    }

    /** The second level of the conflict check: the global waiting queue. */
    method GetConflictFlockTask(t: Task) returns (holder: Option<Task>, global: bool)
      requires ListsRegions(View()) && AllCounted(regions)
      ensures Verdict(holder, global) == VerdictOf(View(), t)
    {
      var found, conflictRegions := GetConflictByRegion(t, true);
      if found.None? {
        if t.kind == Exclusive {
          return None, false;
        }
      } else if conflictRegions > 1 {
        return found, true;
      }
      var i := 0;
      while i < |waitingTasks|
        invariant 0 <= i <= |waitingTasks|
        invariant forall j :: 0 <= j < i ==> !Overlap(t.range, waitingTasks[j].range)
      {
        if Overlap(t.range, waitingTasks[i].range) {
          FirstOverlappingSplit(waitingTasks, t.range, i);
          return Some(waitingTasks[i]), true;
        }
        i := i + 1;
      }
      FirstOverlappingSplit(waitingTasks, t.range, i);
      return found, found.Some? && found.value.range != t.range;
    }

    method AddToLocked(t: Task)
      requires t.range in regions
      modifies this
      ensures View() == Grant(old(View()), t)
    {
      var r := regions[t.range];
      if t.kind == Shared {
        r := r.(readers := r.readers + 1);
      } else {
        r := r.(writers := r.writers + 1);
      }
      regions := regions[t.range := r.(locked := r.locked + [t])];
    }

    /** A lock request: granted, refused, or queued. */
    method Apply(t: Task, block: bool) returns (status: Status)
      requires Inv(View())
      modifies this
      ensures (status, View()) == ApplySpec(old(View()), t, block)
      ensures Inv(View())
    {
      ApplyKeepsInv(View(), t, block);
      GetRegionKeeps(View(), t.range);
      GetRegion(t.range);
      status := Enter(t, block);
    }

    method Enter(t: Task, block: bool) returns (status: Status)
      requires ListsRegions(View()) && AllCounted(regions) && t.range in regions
      modifies this
      ensures (status, View()) == Decide(old(View()), t, block)
    {
      var holder, global := GetConflictFlockTask(t);
      if holder.None? {
        AddToLocked(t);
        return Granted;
      }
      if !block {
        return WouldBlock;
      }
      if t.conn == holder.value.conn {
        return Deadlock;
      }
      if global {
        waitingTasks := waitingTasks + [t];
      } else {
        regions := regions[t.range := regions[t.range].(waiting := regions[t.range].waiting + [t])];
      }
      return InProgress;
    }

    method AwakeRegion(k: Range)
      requires Core(View()) && k in regions
      modifies this
      ensures View() == WakeRegion(old(View()), k)
    {
      ghost var start := View();
      while regions[k].waiting != []
        invariant Core(View()) && k in regions
        invariant WakeRegion(View(), k) == WakeRegion(start, k)
        decreases |regions[k].waiting|
      {
        var wait := regions[k].waiting[0];
        var found, n := GetConflictByRegion(wait, false);
        ScanFoundIffBlocked(View(), wait);
        ScanEmptyIffFree(View(), wait, false);
        if found.Some? {
          break;
        }
        WakeRegionStep(View(), k);
        AwakeFirst(k);
      }
    }

    method AwakeFirst(k: Range)
      requires k in regions && regions[k].waiting != [] && regions[k].waiting[0].range == k
      modifies this
      ensures var r := old(regions)[k];
        View() == old(View()).(regions := old(regions)[k := AddLocked(r.(waiting := r.waiting[1..]), r.waiting[0])])
    {
      var wait := regions[k].waiting[0];
      regions := regions[k := regions[k].(waiting := regions[k].waiting[1..])];
      AddToLocked(wait);
    }

    method AwakeGlobal()
      requires Core(View()) && RegionWaitersHaveLock(View())
      modifies this
      ensures View() == WakeGlobal(old(View()))
    {
      ghost var start := View();
      while waitingTasks != []
        invariant Core(View()) && RegionWaitersHaveLock(View())
        invariant WakeGlobal(View()) == WakeGlobal(start)
        decreases |waitingTasks|
      {
        var wait := waitingTasks[0];
        var found, n := GetConflictByRegion(wait, true);
        ScanFacts(View(), wait);
        ScanEmptyIffFree(View(), wait, true);
        if found.Some? {
          break;
        }
        WakeGlobalStep(View());
        waitingTasks := waitingTasks[1..];
        AddToLocked(wait);
      }
    }

    method DropReference(k: Range)
      requires k in regions
      modifies this
      ensures View() == DropRef(old(View()), k)
    {
      regions := regions[k := regions[k].(refCount := regions[k].refCount - 1)];
    }

    method Cancel(t: Task)
      requires t.range in regions
      modifies this
      ensures View() == Cancelled(old(View()), t)
    {
      if t in regions[t.range].waiting {
        regions := regions[t.range := regions[t.range].(waiting := Without(regions[t.range].waiting, t))];
      } else {
        waitingTasks := Without(waitingTasks, t);
      }
      DropReference(t.range);
    }

    method ReleaseLocked(t: Task)
      requires t.range in regions && Core(Unlocked(View(), t))
      requires RegionWaitersHaveLock(WakeRegion(Unlocked(View(), t), t.range))
      requires Core(WakeRegion(Unlocked(View(), t), t.range))
      modifies this
      ensures View() == DropRef(WakeGlobal(WakeRegion(Unlocked(old(View()), t), t.range)), t.range)
    {
      regions := regions[t.range := RemoveLocked(regions[t.range], t)];
      assert View() == Unlocked(old(View()), t);
      if regions[t.range].waiting != [] {
        AwakeRegion(t.range);
      }
      if waitingTasks != [] {
        AwakeGlobal();
      }
      DropReference(t.range);
    }

    /** Release of a held lock, or cancel of a waiting request. */
    method Release(t: Task)
      requires Inv(View())
      modifies this
      ensures View() == ReleaseSpec(old(View()), t)
      ensures Inv(View())
    {
      ghost var e := View();
      ReleaseKeepsInv(e, t);
      if t.range in regions && t in regions[t.range].locked {
        UnlockKeepsCore(e, t);
        WakeRegionKeeps(Unlocked(e, t), t.range);
        ReleaseLocked(t);
      } else if t.range in regions && t in regions[t.range].waiting {
        Cancel(t);
      } else if t in waitingTasks {
        Cancel(t);
      }
    }
  }
}
