/**
 What becomes of a lock request and of a release, told by the lists of held
 locks and the queues before and after.
 */
module FlockOutcomes {
  import opened Wrappers
  import opened Flock

  function HeldAt(e: Entry, k: Range): seq<Task> {
    if k in e.regions then e.regions[k].locked else []
  }

  function QueueAt(e: Entry, k: Range): seq<Task> {
    if k in e.regions then e.regions[k].waiting else []
  }

  /** How many requests a region counts. */
  function RefsAt(e: Entry, k: Range): int {
    if k in e.regions then e.regions[k].refCount else 0
  }

  // ---------------------------------------------------------------------- a request

  ghost predicate WaiterOver(e: Entry, t: Task, i: nat) {
    i < |e.waiting| && Overlap(t.range, e.waiting[i].range)
  }

  /** The first in the global queue that wants bytes of the task's range. */
  ghost predicate FirstWaiter(e: Entry, t: Task, i: nat) {
    WaiterOver(e, t, i) && forall j: nat :: j < i ==> !WaiterOver(e, t, j)
  }

  /** The first region, by offset and length, that conflicts with the task. */
  ghost predicate FirstConflict(e: Entry, t: Task, k: Range) {
    Conflicts(e, t, true, k) && forall o :: Conflicts(e, t, true, o) ==> o == k || Before(k, o)
  }

  ghost predicate Several(e: Entry, t: Task) {
    exists k, o :: Conflicts(e, t, true, k) && Conflicts(e, t, true, o) && k != o
  }

  ghost predicate Grantable(e: Entry, t: Task) {
    !Blocked(e, t, true) && (t.kind == Exclusive || forall i: nat :: !WaiterOver(e, t, i))
  }

  /** Who is in front of the region: its first waiter, else its first holder. */
  ghost predicate InFront(e: Entry, k: Range, c: Task) {
    if QueueAt(e, k) != [] then c == QueueAt(e, k)[0] else HeldAt(e, k) != [] && c == HeldAt(e, k)[0]
  }

  /** The request that the task is told to wait for, and whether it has to wait
      in the global queue: of several conflicting regions the one in front of the
      first; else the first global waiter; else the one in front of the only
      conflicting region, and then globally unless that is the task's own. */
  ghost predicate InTheWay(e: Entry, t: Task, c: Task, global: bool) {
    if Several(e, t) then global && exists k :: FirstConflict(e, t, k) && InFront(e, k, c)
    else if exists i: nat :: WaiterOver(e, t, i) then global && exists i: nat :: FirstWaiter(e, t, i) && c == e.waiting[i]
    else exists k :: FirstConflict(e, t, k) && InFront(e, k, c) && global == (k != t.range)
  }

  /** The task was added to the end of this list, and nothing else changed. */
  ghost predicate Adds(e: Entry, e': Entry, t: Task, queue: Queue) {
    && (forall k :: HeldAt(e', k) == HeldAt(e, k) + if queue == Locked && k == t.range then [t] else [])
    && (forall k :: QueueAt(e', k) == QueueAt(e, k) + if queue == RegionWaiting && k == t.range then [t] else [])
    && e'.waiting == e.waiting + if queue == GlobalWaiting then [t] else []
  }

  lemma {:induction false} ScanSorted(order: seq<Range>, regions: map<Range, Region>, t: Task)
    requires Sorted(order) && forall k :: k in order ==> k in regions
    ensures Sorted(FullScan(order, regions, t, true))
  {
    if order != [] {
      var rest := FullScan(order[1..], regions, t, true);
      ScanSorted(order[1..], regions, t);
      FullScanMembers(order[1..], regions, t, true);
      forall j | 0 <= j < |rest|
        ensures Before(order[0], rest[j])
      {
        assert rest[j] in rest;
        var i :| 0 <= i < |order[1..]| && order[1..][i] == rest[j];
        assert Before(order[0], order[1 + i]);
      }
    }
  }

  lemma HitsAreConflicts(e: Entry, t: Task, hits: seq<Range>)
    requires ListsRegions(e) && hits == FullScan(e.order, e.regions, t, true)
    ensures Sorted(hits) && forall k :: k in hits <==> Conflicts(e, t, true, k)
  {
    ScanSorted(e.order, e.regions, t);
    FullScanMembers(e.order, e.regions, t, true);
  }

  lemma FirstHit(e: Entry, t: Task, hits: seq<Range>, k: Range)
    requires ListsRegions(e) && hits == FullScan(e.order, e.regions, t, true)
    ensures FirstConflict(e, t, k) <==> hits != [] && k == hits[0]
  {
    HitsAreConflicts(e, t, hits);
    if hits != [] {
      assert hits[0] in hits;
      forall o | o in hits && o != hits[0]
        ensures Before(hits[0], o)
      {
        var i :| 0 <= i < |hits| && hits[i] == o;
        assert Before(hits[0], hits[i]);
      }
      assert k in hits && k != hits[0] ==> Before(hits[0], k);
    }
  }

  lemma SeveralHits(e: Entry, t: Task, hits: seq<Range>)
    requires ListsRegions(e) && hits == FullScan(e.order, e.regions, t, true)
    ensures Several(e, t) <==> |hits| > 1
  {
    HitsAreConflicts(e, t, hits);
    if |hits| > 1 {
      assert Before(hits[0], hits[1]) && hits[0] in hits && hits[1] in hits;
    }
  }

  lemma {:induction false} FirstOverlappingIs(tasks: seq<Task>, r: Range) returns (i: nat)
    requires FirstOverlapping(tasks, r).Some?
    ensures i < |tasks| && Overlap(r, tasks[i].range) && FirstOverlapping(tasks, r) == Some(tasks[i])
    ensures forall j :: 0 <= j < i ==> !Overlap(r, tasks[j].range)
  {
    i := 0;
    if !Overlap(r, tasks[0].range) {
      var k := FirstOverlappingIs(tasks[1..], r);
      i := k + 1;
      forall j | 0 <= j < i
        ensures !Overlap(r, tasks[j].range)
      {
        assert j > 0 ==> tasks[j] == tasks[1..][j - 1];
      }
    }
  }

  lemma WaiterIs(e: Entry, t: Task, c: Task)
    ensures FirstOverlapping(e.waiting, t.range) == Some(c) <==> exists i: nat :: FirstWaiter(e, t, i) && c == e.waiting[i]
    ensures FirstOverlapping(e.waiting, t.range).Some? <==> exists i: nat :: WaiterOver(e, t, i)
  {
    OverlappingWaiter(e.waiting, t.range);
    if FirstOverlapping(e.waiting, t.range).Some? {
      var i := FirstOverlappingIs(e.waiting, t.range);
      assert FirstWaiter(e, t, i);
      assert forall j: nat :: FirstWaiter(e, t, j) ==> j == i;
    } else {
      assert forall i: nat :: !WaiterOver(e, t, i);
    }
  }

  lemma FrontIs(e: Entry, k: Range, t: Task, c: Task)
    requires Core(e) && Conflicts(e, t, true, k)
    ensures InFront(e, k, c) <==> Holder(e.regions[k], true) == Some(c)
    ensures Holder(e.regions[k], true).Some? && Holder(e.regions[k], true).value.range == k
  {
    HolderOfConflict(e.regions[k], k, t.kind);
  }

  /** The two-level check answers with the one who is in the way. */
  lemma VerdictMeans(e: Entry, t: Task, c: Task, global: bool)
    requires Core(e) && !Grantable(e, t)
    ensures InTheWay(e, t, c, global) <==> VerdictOf(e, t) == Verdict(Some(c), global)
  {
    var hits := FullScan(e.order, e.regions, t, true);
    HitsAreConflicts(e, t, hits);
    SeveralHits(e, t, hits);
    WaiterIs(e, t, c);
    forall k
      ensures FirstConflict(e, t, k) <==> hits != [] && k == hits[0]
    {
      FirstHit(e, t, hits, k);
    }
    if hits != [] {
      assert hits[0] in hits;
      FrontIs(e, hits[0], t, c);
    }
  }

  // A region that was just looked up has the locks and the waiters it had.

  lemma SameConflicts(e: Entry, t: Task, k: Range)
    ensures Conflicts(GetRegionSpec(e, t.range), t, true, k) <==> Conflicts(e, t, true, k)
  {
  }

  lemma SameGrantable(e: Entry, e1: Entry, t: Task)
    requires e1 == GetRegionSpec(e, t.range)
    ensures Grantable(e1, t) <==> Grantable(e, t)
  {
    forall k
      ensures Conflicts(e1, t, true, k) <==> Conflicts(e, t, true, k)
    {
      SameConflicts(e, t, k);
    }
    assert forall i: nat :: WaiterOver(e1, t, i) <==> WaiterOver(e, t, i);
  }

  lemma SameInTheWay(e: Entry, e1: Entry, t: Task, c: Task, global: bool)
    requires e1 == GetRegionSpec(e, t.range)
    ensures InTheWay(e1, t, c, global) <==> InTheWay(e, t, c, global)
  {
    forall k
      ensures Conflicts(e1, t, true, k) <==> Conflicts(e, t, true, k)
    {
      SameConflicts(e, t, k);
    }
    assert forall k :: FirstConflict(e1, t, k) <==> FirstConflict(e, t, k);
    assert Several(e1, t) <==> Several(e, t);
    assert forall i: nat :: WaiterOver(e1, t, i) <==> WaiterOver(e, t, i);
    assert forall i: nat :: FirstWaiter(e1, t, i) <==> FirstWaiter(e, t, i);
    assert forall k :: InFront(e1, k, c) <==> InFront(e, k, c);
  }

  lemma GrantableIs(e: Entry, t: Task)
    requires Core(e)
    ensures Grantable(e, t) <==> VerdictOf(e, t).holder.None?
  {
    GrantedExactly(e, t);
    assert (exists i :: 0 <= i < |e.waiting| && Overlap(t.range, e.waiting[i].range)) <==> exists i: nat :: WaiterOver(e, t, i) by {
      if i :| 0 <= i < |e.waiting| && Overlap(t.range, e.waiting[i].range) {
        assert WaiterOver(e, t, i);
      }
    }
  }

  lemma AnswerIs(e: Entry, t: Task, v: Verdict)
    requires Inv(e) && ListsRegions(GetRegionSpec(e, t.range)) && v == VerdictOf(GetRegionSpec(e, t.range), t)
    ensures Grantable(e, t) <==> v.holder.None?
    ensures v.holder.Some? ==> forall c, global :: InTheWay(e, t, c, global) <==> c == v.holder.value && global == v.global
  {
    var e1 := GetRegionSpec(e, t.range);
    GetRegionKeeps(e, t.range);
    SameGrantable(e, e1, t);
    GrantableIs(e1, t);
    if v.holder.Some? {
      VerdictMeans(e1, t, v.holder.value, v.global);
      SameInTheWay(e, e1, t, v.holder.value, v.global);
      forall c, global | InTheWay(e, t, c, global)
        ensures v == Verdict(Some(c), global)
      {
        SameInTheWay(e, e1, t, c, global);
        VerdictMeans(e1, t, c, global);
      }
    }
  }

  /** What is done with an answer, as a status and a list to join. */
  function Answer(v: Verdict, t: Task, block: bool): (Status, Queue) {
    if v.holder.None? then (Granted, Locked)
    else if !block then (WouldBlock, NotInQueue)
    else if v.holder.value.conn == t.conn then (Deadlock, NotInQueue)
    else (InProgress, if v.global then GlobalWaiting else RegionWaiting)
  }

  lemma GrantAdds(e: Entry, t: Task, e': Entry)
    requires t.range in e.regions && e' == Grant(e, t)
    ensures Adds(e, e', t, Locked)
  {
  }

  lemma EnqueueAdds(e: Entry, t: Task, r: Region, e': Entry)
    requires t.range in e.regions && r == e.regions[t.range]
    requires e' == e.(regions := e.regions[t.range := r.(waiting := r.waiting + [t])])
    ensures Adds(e, e', t, RegionWaiting)
  {
  }

  lemma DecideAdds(e: Entry, t: Task, block: bool, v: Verdict, answer: (Status, Queue))
    requires t.range in e.regions && ListsRegions(e) && v == VerdictOf(e, t) && answer == Answer(v, t, block)
    ensures Decide(e, t, block).0 == answer.0 && Adds(e, Decide(e, t, block).1, t, answer.1)
  {
    if answer.1 == Locked {
      GrantAdds(e, t, Grant(e, t));
    } else if answer.1 == RegionWaiting {
      EnqueueAdds(e, t, e.regions[t.range], Decide(e, t, block).1);
    }
  }

  lemma AddsSince(e: Entry, e1: Entry, e': Entry, t: Task, queue: Queue)
    requires e1 == GetRegionSpec(e, t.range) && Adds(e1, e', t, queue)
    ensures Adds(e, e', t, queue)
  {
    assert forall k :: HeldAt(e1, k) == HeldAt(e, k) && QueueAt(e1, k) == QueueAt(e, k);
  }

  lemma ApplyAdds(e: Entry, t: Task, block: bool, status: Status, e': Entry) returns (v: Verdict)
    requires Inv(e) && (status, e') == ApplySpec(e, t, block)
    ensures ListsRegions(GetRegionSpec(e, t.range)) && v == VerdictOf(GetRegionSpec(e, t.range), t)
    ensures status == Answer(v, t, block).0 && Adds(e, e', t, Answer(v, t, block).1)
  {
    var e1 := GetRegionSpec(e, t.range);
    GetRegionKeeps(e, t.range);
    v := VerdictOf(e1, t);
    DecideAdds(e1, t, block, v, Answer(v, t, block));
    AddsSince(e, e1, e', t, Answer(v, t, block).1);
  }

  /** The outcome of a request. It is granted if and only if nothing is in its
      way. Otherwise a request that does not want to wait is refused, one that
      would wait for its own connection is a deadlock, and any other goes to the
      end of exactly one queue. Apart from that no list of held locks and no queue
      changes. */
  lemma ApplyOutcome(e: Entry, t: Task, block: bool, status: Status, e': Entry)
      returns (queue: Queue, inTheWay: Option<Task>, global: bool)
    requires Inv(e) && (status, e') == ApplySpec(e, t, block)
    ensures Adds(e, e', t, queue)
    ensures inTheWay.None? <==> Grantable(e, t)
    ensures inTheWay.Some? ==>
              forall c, g :: InTheWay(e, t, c, g) <==> c == inTheWay.value && g == global
    ensures (status, queue) ==
              if inTheWay.None? then (Granted, Locked)
              else if !block then (WouldBlock, NotInQueue)
              else if inTheWay.value.conn == t.conn then (Deadlock, NotInQueue)
              else (InProgress, if global then GlobalWaiting else RegionWaiting)
  {
    var v := ApplyAdds(e, t, block, status, e');
    queue, inTheWay, global := Answer(v, t, block).1, v.holder, v.global;
    AnswerIs(e, t, v);
  }

  // ---------------------------------------------------------------------- a release

  /** The list without the task, which it first holds at i. */
  ghost predicate LessAt(tasks: seq<Task>, left: seq<Task>, t: Task, i: nat) {
    i < |tasks| && tasks[i] == t && left == tasks[..i] + tasks[i + 1..] && forall j :: 0 <= j < i ==> tasks[j] != t
  }

  ghost predicate Less(tasks: seq<Task>, left: seq<Task>, t: Task) {
    exists i: nat :: LessAt(tasks, left, t, i)
  }

  function OfRange(tasks: seq<Task>, k: Range): seq<Task> {
    if tasks == [] then []
    else (if tasks[0].range == k then [tasks[0]] else []) + OfRange(tasks[1..], k)
  }

  lemma LessFirst(tasks: seq<Task>, t: Task)
    requires tasks != [] && tasks[0] == t
    ensures LessAt(tasks, tasks[1..], t, 0)
  {
    assert tasks[..0] + tasks[1..] == tasks[1..];
  }

  lemma LessBehind(tasks: seq<Task>, rest: seq<Task>, left: seq<Task>, t: Task, i: nat)
    requires tasks != [] && rest == tasks[1..] && LessAt(rest, left, t, i) && tasks[0] != t
    ensures LessAt(tasks, [tasks[0]] + left, t, i + 1)
  {
    assert tasks[..i + 1] == [tasks[0]] + rest[..i] && tasks[i + 2..] == rest[i + 1..];
    assert [tasks[0]] + left == tasks[..i + 1] + tasks[i + 2..];
    forall j | 0 <= j < i + 1
      ensures tasks[j] != t
    {
      assert j > 0 ==> tasks[j] == rest[j - 1];
    }
  }

  lemma {:induction false} WithoutIsLess(tasks: seq<Task>, t: Task) returns (i: nat)
    requires t in tasks
    ensures LessAt(tasks, Without(tasks, t), t, i)
  {
    if tasks[0] == t {
      LessFirst(tasks, t);
      i := 0;
    } else {
      var j := WithoutIsLess(tasks[1..], t);
      LessBehind(tasks, tasks[1..], Without(tasks[1..], t), t, j);
      i := j + 1;
    }
  }

  /** The region after the first n of its queue got the lock. */
  ghost predicate WokeFirst(r: Region, r': Region, n: nat) {
    n <= |r.waiting| && r'.locked == r.locked + r.waiting[..n] && r'.waiting == r.waiting[n..]
  }

  lemma WokeOneMore(r: Region, r1: Region, r': Region, n: nat)
    requires r.waiting != [] && r1 == AddLocked(r.(waiting := r.waiting[1..]), r.waiting[0]) && WokeFirst(r1, r', n)
    ensures WokeFirst(r, r', n + 1)
  {
    assert r.waiting[..n + 1] == [r.waiting[0]] + r.waiting[1..][..n];
    assert r.locked + [r.waiting[0]] + r.waiting[1..][..n] == r.locked + r.waiting[..n + 1];
  }

  lemma {:induction false} WakeRegionIs(e: Entry, k: Range) returns (n: nat)
    requires k in e.regions && (forall o :: o in e.order ==> o in e.regions)
    ensures WokeFirst(e.regions[k], WakeRegion(e, k).regions[k], n)
    ensures forall o :: o in e.regions && o != k ==> WakeRegion(e, k).regions[o] == e.regions[o]
    decreases |e.regions[k].waiting|
  {
    var r := e.regions[k];
    n := 0;
    if !(r.waiting == [] || FullScan(e.order, e.regions, r.waiting[0], false) != []) {
      var r1 := AddLocked(r.(waiting := r.waiting[1..]), r.waiting[0]);
      var e1 := e.(regions := e.regions[k := r1]);
      var m := WakeRegionIs(e1, k);
      WokeOneMore(r, r1, WakeRegion(e, k).regions[k], m);
      n := m + 1;
    }
  }

  /** A region after these tasks got their locks. */
  ghost predicate Joined(e: Entry, e': Entry, tasks: seq<Task>, k: Range) {
    HeldAt(e', k) == HeldAt(e, k) + OfRange(tasks, k) && QueueAt(e', k) == QueueAt(e, k)
  }

  lemma JoinedOneMore(e: Entry, e1: Entry, e': Entry, t: Task, tasks: seq<Task>, k: Range)
    requires t.range in e.regions && e1.regions == Grant(e, t).regions && Joined(e1, e', tasks, k)
    ensures Joined(e, e', [t] + tasks, k)
  {
    assert ([t] + tasks)[1..] == tasks;
    assert HeldAt(e1, k) == HeldAt(e, k) + if t.range == k then [t] else [];
  }

  lemma {:induction false} WakeGlobalIs(e: Entry, e': Entry) returns (m: nat)
    requires forall o :: o in e.order ==> o in e.regions
    requires forall t :: t in e.waiting ==> t.range in e.regions
    requires e' == WakeGlobal(e)
    ensures m <= |e.waiting| && e'.waiting == e.waiting[m..]
    ensures forall k :: Joined(e, e', e.waiting[..m], k)
    decreases |e.waiting|
  {
    m := 0;
    if !(e.waiting == [] || FullScan(e.order, e.regions, e.waiting[0], true) != []) {
      var t := e.waiting[0];
      var e1 := Grant(e.(waiting := e.waiting[1..]), t);
      var n := WakeGlobalIs(e1, e');
      m := n + 1;
      NextJoins(e, e1, e', n, m);
    }
  }

  lemma NextJoins(e: Entry, e1: Entry, e': Entry, n: nat, m: nat)
    requires e.waiting != [] && e.waiting[0].range in e.regions && e1 == Grant(e.(waiting := e.waiting[1..]), e.waiting[0])
    requires m == n + 1 <= |e.waiting| && forall k :: Joined(e1, e', e1.waiting[..n], k)
    ensures forall k :: Joined(e, e', e.waiting[..m], k)
  {
    var t := e.waiting[0];
    assert e.waiting[..m] == [t] + e1.waiting[..n];
    forall k
      ensures Joined(e, e', e.waiting[..m], k)
    {
      JoinedOneMore(e, e1, e', t, e1.waiting[..n], k);
    }
  }

  /** The lists of one range after a lock of that range was given up and the
      first n of the queue were woken. */
  ghost predicate Passed(e: Entry, e': Entry, left: seq<Task>, n: nat, k: Range) {
    n <= |QueueAt(e, k)| && HeldAt(e', k) == left + QueueAt(e, k)[..n] && QueueAt(e', k) == QueueAt(e, k)[n..]
  }

  ghost predicate SameLists(e: Entry, e': Entry, k: Range) {
    HeldAt(e', k) == HeldAt(e, k) && QueueAt(e', k) == QueueAt(e, k)
  }

  lemma UnlockAndWake(e: Entry, t: Task, e1: Entry) returns (left: seq<Task>, n: nat)
    requires (forall o :: o in e.order ==> o in e.regions) && t in HeldAt(e, t.range) && e1 == WakeRegion(Unlocked(e, t), t.range)
    ensures Less(HeldAt(e, t.range), left, t) && Passed(e, e1, left, n, t.range)
    ensures forall k :: k != t.range ==> SameLists(e, e1, k)
    ensures e1.waiting == e.waiting
  {
    var e0 := Unlocked(e, t);
    left := e0.regions[t.range].locked;
    UnlockedIsLess(e, t, e0);
    n := WakeRegionIs(e0, t.range);
    WokenIsPassed(e, e0, e1, t.range, n);
  }

  lemma WokenIsPassed(e: Entry, e0: Entry, e1: Entry, r: Range, n: nat)
    requires r in e0.regions && r in e1.regions && WokeFirst(e0.regions[r], e1.regions[r], n) && QueueAt(e0, r) == QueueAt(e, r)
    requires e1.regions.Keys == e0.regions.Keys && forall o :: o in e0.regions && o != r ==> e1.regions[o] == e0.regions[o]
    ensures Passed(e, e1, HeldAt(e0, r), n, r) && forall k :: k != r ==> SameLists(e0, e1, k)
  {
  }

  lemma UnlockedIsLess(e: Entry, t: Task, e0: Entry)
    requires t in HeldAt(e, t.range) && e0 == Unlocked(e, t)
    ensures Less(HeldAt(e, t.range), HeldAt(e0, t.range), t) && QueueAt(e0, t.range) == QueueAt(e, t.range)
    ensures forall k :: k != t.range ==> SameLists(e, e0, k)
  {
    var i := WithoutIsLess(HeldAt(e, t.range), t);
  }

  lemma WakeAll(e: Entry, t: Task, e1: Entry, e2: Entry) returns (m: nat)
    requires Inv(e) && t in HeldAt(e, t.range) && e1 == WakeRegion(Unlocked(e, t), t.range) && Core(e1) && e2 == WakeGlobal(e1)
    ensures m <= |e1.waiting| && e2.waiting == e1.waiting[m..]
    ensures forall k :: Joined(e1, e2, e1.waiting[..m], k)
  {
    m := WakeGlobalIs(e1, e2);
  }

  /** The lists of one range after a release: of what it held this is left, the
      first n of its queue and those of the first m global waiters that want this
      range have joined. */
  ghost predicate Released(e: Entry, e': Entry, left: seq<Task>, n: nat, m: nat, k: Range) {
    && n <= |QueueAt(e, k)| && m <= |e.waiting|
    && HeldAt(e', k) == left + QueueAt(e, k)[..n] + OfRange(e.waiting[..m], k)
    && QueueAt(e', k) == QueueAt(e, k)[n..]
  }

  lemma SameIsPassed(e: Entry, e1: Entry, k: Range)
    requires SameLists(e, e1, k)
    ensures Passed(e, e1, HeldAt(e, k), 0, k)
  {
    assert HeldAt(e, k) + QueueAt(e, k)[..0] == HeldAt(e, k);
  }

  lemma PassedAndJoined(e: Entry, e1: Entry, e2: Entry, e': Entry, left: seq<Task>, n: nat, m: nat, k: Range)
    requires Passed(e, e1, left, n, k) && e1.waiting == e.waiting && m <= |e.waiting|
    requires Joined(e1, e2, e1.waiting[..m], k) && SameLists(e2, e', k)
    ensures Released(e, e', left, n, m, k)
  {
  }

  lemma DropRefSame(e: Entry, k: Range, e': Entry)
    requires k in e.regions && e' == DropRef(e, k)
    ensures e'.waiting == e.waiting && forall o :: SameLists(e, e', o)
  {
  }

  lemma ReleasedEverywhere(e: Entry, e1: Entry, e2: Entry, e': Entry, r: Range, left: seq<Task>, n: nat, m: nat)
    requires Passed(e, e1, left, n, r) && (forall k :: k != r ==> SameLists(e, e1, k)) && e1.waiting == e.waiting && m <= |e.waiting|
    requires (forall k :: Joined(e1, e2, e1.waiting[..m], k)) && forall k :: SameLists(e2, e', k)
    ensures forall k :: Released(e, e', if k == r then left else HeldAt(e, k), if k == r then n else 0, m, k)
  {
    forall k
      ensures Released(e, e', if k == r then left else HeldAt(e, k), if k == r then n else 0, m, k)
    {
      assert Joined(e1, e2, e1.waiting[..m], k) && SameLists(e2, e', k);
      if k != r {
        SameIsPassed(e, e1, k);
      }
      PassedAndJoined(e, e1, e2, e', if k == r then left else HeldAt(e, k), if k == r then n else 0, m, k);
    }
  }

  lemma ReleasedIs(e: Entry, t: Task)
    requires Inv(e) && t in HeldAt(e, t.range)
    ensures Core(Unlocked(e, t)) && WaitersHaveLockExcept(Unlocked(e, t), t.range)
    ensures var e1 := WakeRegion(Unlocked(e, t), t.range);
      Core(e1) && RegionWaitersHaveLock(e1) && ReleaseSpec(e, t) == DropRef(WakeGlobal(e1), t.range)
  {
    UnlockKeepsCore(e, t);
    assert WaitersHaveLockExcept(Unlocked(e, t), t.range);
    WakeRegionKeeps(Unlocked(e, t), t.range);
  }

  /** Giving up a held lock: it goes, the first n of its region's queue and then
      the first m of the global queue get their locks, in order, and nothing else
      changes. */
  lemma ReleaseHeldOutcome(e: Entry, t: Task, e': Entry) returns (left: seq<Task>, n: nat, m: nat)
    requires Inv(e) && t in HeldAt(e, t.range) && e' == ReleaseSpec(e, t)
    ensures Less(HeldAt(e, t.range), left, t) && n <= |QueueAt(e, t.range)|
    ensures m <= |e.waiting| && e'.waiting == e.waiting[m..]
    ensures forall k :: Released(e, e', if k == t.range then left else HeldAt(e, k), if k == t.range then n else 0, m, k)
  {
    ReleasedIs(e, t);
    var e1 := WakeRegion(Unlocked(e, t), t.range);
    var e2 := WakeGlobal(e1);
    left, n := UnlockAndWake(e, t, e1);
    m := WakeAll(e, t, e1, e2);
    DropRefSame(e2, t.range, e');
    ReleasedEverywhere(e, e1, e2, e', t.range, left, n, m);
  }

  /** Giving up a request that waits: it goes, and nothing else changes. */
  lemma CancelOutcome(e: Entry, t: Task, e': Entry)
    requires Inv(e) && t !in HeldAt(e, t.range) && e' == ReleaseSpec(e, t)
    ensures forall k :: HeldAt(e', k) == HeldAt(e, k)
    ensures forall k :: if k == t.range && t in QueueAt(e, k) then Less(QueueAt(e, k), QueueAt(e', k), t) else QueueAt(e', k) == QueueAt(e, k)
    ensures if t !in QueueAt(e, t.range) && t in e.waiting then Less(e.waiting, e'.waiting, t) else e'.waiting == e.waiting
  {
    if t in QueueAt(e, t.range) {
      var i := WithoutIsLess(QueueAt(e, t.range), t);
    } else if t in e.waiting {
      var i := WithoutIsLess(e.waiting, t);
    }
  }

  // ---------------------------------------------------------------- counted requests

  /** A region counts every request for its range, also one that is refused. */
  lemma ApplyCounts(e: Entry, t: Task, block: bool, k: Range)
    requires Inv(e)
    ensures RefsAt(ApplySpec(e, t, block).1, k) == RefsAt(e, k) + if k == t.range then 1 else 0
  {
    GetRegionKeeps(e, t.range);
  }

  lemma {:induction false} WakeRegionCounts(e: Entry, r: Range, k: Range)
    requires r in e.regions && (forall o :: o in e.order ==> o in e.regions)
    ensures RefsAt(WakeRegion(e, r), k) == RefsAt(e, k)
    decreases |e.regions[r].waiting|
  {
    var q := e.regions[r];
    if !(q.waiting == [] || FullScan(e.order, e.regions, q.waiting[0], false) != []) {
      WakeRegionCounts(e.(regions := e.regions[r := AddLocked(q.(waiting := q.waiting[1..]), q.waiting[0])]), r, k);
    }
  }

  lemma {:induction false} WakeGlobalCounts(e: Entry, k: Range)
    requires forall o :: o in e.order ==> o in e.regions
    requires forall t :: t in e.waiting ==> t.range in e.regions
    ensures RefsAt(WakeGlobal(e), k) == RefsAt(e, k)
    decreases |e.waiting|
  {
    if !(e.waiting == [] || FullScan(e.order, e.regions, e.waiting[0], true) != []) {
      WakeGlobalCounts(Grant(e.(waiting := e.waiting[1..]), e.waiting[0]), k);
    }
  }

  /** A release or cancel is counted down once, if there was anything to give up. */
  lemma ReleaseCounts(e: Entry, t: Task, k: Range)
    requires Inv(e)
    ensures var known := t in HeldAt(e, t.range) || t in QueueAt(e, t.range) || (t in e.waiting && t.range in e.regions);
      RefsAt(ReleaseSpec(e, t), k) == RefsAt(e, k) - if known && k == t.range then 1 else 0
  {
    if t in HeldAt(e, t.range) {
      ReleaseHeldCounts(e, t, k);
    }
  }

  lemma ReleaseHeldCounts(e: Entry, t: Task, k: Range)
    requires Inv(e) && t in HeldAt(e, t.range)
    ensures RefsAt(ReleaseSpec(e, t), k) == RefsAt(e, k) - if k == t.range then 1 else 0
  {
    ReleasedIs(e, t);
    var e1 := WakeRegion(Unlocked(e, t), t.range);
    WakeRegionCounts(Unlocked(e, t), t.range, k);
    WakeGlobalCounts(e1, k);
    assert RefsAt(DropRef(WakeGlobal(e1), t.range), k) == RefsAt(WakeGlobal(e1), k) - if k == t.range then 1 else 0;
  }
}
