/**
 Cancelling a waiting request wakes nobody. When does that leave a request
 asleep that nothing blocks?
 */
module FlockCancel {
  import opened Wrappers
  import opened Flock

  // ------------------------------------------------------------- the exact condition

  /** A region other than k that overlaps the task's range has waiters, or any
      region that does holds a lock the task conflicts with. */
  ghost predicate HeldUp(e: Entry, t: Task, k: Range, o: Range) {
    o in e.regions && Overlap(t.range, o) && (LockConflict(e.regions[o], t.kind) || (o != k && e.regions[o].waiting != []))
  }

  /** What cancelling the head of a queue must find for nobody to be left asleep:
      behind a region's head a waiter that the region's locks conflict with, or,
      when there is none, a head of the global queue that is held up by other
      waiters or by a lock; behind the head of the global queue a request that
      waiters or a lock hold up. */
  ghost predicate NextHeldUp(e: Entry, t: Task)
    requires CancelsHead(e, ReleaseOp(t))
  {
    if WhichQueue(e, t) == RegionWaiting then
      var r := e.regions[t.range];
      if |r.waiting| > 1 then r.writers > 0 || r.waiting[1].kind == Exclusive
      else e.waiting == [] || exists o :: HeldUp(e, e.waiting[0], t.range, o)
    else |e.waiting| == 1 || Blocked(e, e.waiting[1], true)
  }

  lemma DropRefHeads(e: Entry, k: Range)
    requires k in e.regions
    ensures HeadsBlocked(DropRef(e, k)) <==> HeadsBlocked(e)
  {
    if HeadsBlocked(e) {
      DropRefKeepsHeads(e, k);
    }
    if HeadsBlocked(DropRef(e, k)) {
      var e1 := DropRef(e, k);
      var e2 := e1.(regions := e1.regions[k := e.regions[k]]);
      assert e2.regions == e.regions;
      if e.waiting != [] {
        var o :| Conflicts(e1, e1.waiting[0], true, o);
        assert Conflicts(e, e.waiting[0], true, o);
      }
      assert forall o :: o in e.regions ==> e1.regions[o].waiting == e.regions[o].waiting;
    }
  }

  /** The entry after the head of a region's queue is gone. */
  function HeadGone(e: Entry, k: Range): Entry
    requires k in e.regions && e.regions[k].waiting != []
  {
    e.(regions := e.regions[k := e.regions[k].(waiting := e.regions[k].waiting[1..])])
  }

  lemma NextInRegion(e: Entry, k: Range)
    requires Inv(e) && HeadsBlocked(e) && k in e.regions && e.regions[k].waiting != []
    ensures var r := e.regions[k];
      RegionHeadsBlocked(HeadGone(e, k)) <==> (|r.waiting| > 1 ==> r.writers > 0 || r.waiting[1].kind == Exclusive)
  {
    var r := e.regions[k];
    CountBounds(r.locked);
    assert HeadGone(e, k).regions[k].waiting == r.waiting[1..];
  }

  lemma GlobalHeadAfter(e: Entry, k: Range)
    requires HeadsBlocked(e) && e.waiting != [] && k in e.regions && e.regions[k].waiting != []
    ensures Blocked(HeadGone(e, k), e.waiting[0], true) <==>
              |e.regions[k].waiting| > 1 || exists o :: HeldUp(e, e.waiting[0], k, o)
  {
    var e1, g := HeadGone(e, k), e.waiting[0];
    if |e.regions[k].waiting| > 1 {
      BlockedGrows(e, e1, g);
    } else if Blocked(e1, g, true) {
      var o :| Conflicts(e1, g, true, o);
      assert HeldUp(e, g, k, o);
    } else if o :| HeldUp(e, g, k, o) {
      assert Conflicts(e1, g, true, o);
    }
  }

  lemma CancelInRegion(e: Entry, t: Task)
    requires Inv(e) && HeadsBlocked(e) && CancelsHead(e, ReleaseOp(t)) && WhichQueue(e, t) == RegionWaiting
    ensures HeadsBlocked(ReleaseSpec(e, t)) <==> NextHeldUp(e, t)
  {
    var k := t.range;
    assert ReleaseSpec(e, t) == DropRef(HeadGone(e, k), k);
    DropRefHeads(HeadGone(e, k), k);
    NextInRegion(e, k);
    if e.waiting != [] {
      GlobalHeadAfter(e, k);
    }
  }

  lemma CancelInGlobal(e: Entry, t: Task)
    requires Inv(e) && HeadsBlocked(e) && CancelsHead(e, ReleaseOp(t)) && WhichQueue(e, t) == GlobalWaiting
    ensures HeadsBlocked(ReleaseSpec(e, t)) <==> NextHeldUp(e, t)
  {
    var e1 := e.(waiting := e.waiting[1..]);
    assert ReleaseSpec(e, t) == DropRef(e1, t.range);
    DropRefHeads(e1, t.range);
    if |e.waiting| > 1 {
      SameRegionsBlock(e, e1, e.waiting[1]);
    }
  }

  lemma SameRegionsBlock(e: Entry, e1: Entry, t: Task)
    requires e1.regions == e.regions
    ensures Blocked(e1, t, true) <==> Blocked(e, t, true)
  {
    if Blocked(e, t, true) {
      BlockedGrows(e, e1, t);
    }
    if Blocked(e1, t, true) {
      BlockedGrows(e1, e, t);
    }
  }

  /** From a state in which nobody sleeps without a reason, a step leads to
      another one if and only if it does not cancel the head of a queue, or the
      next in line is held up. */
  lemma StepHeadsExact(e: Entry, op: Op)
    requires Inv(e) && HeadsBlocked(e)
    ensures HeadsBlocked(Step(e, op)) <==> (CancelsHead(e, op) ==> NextHeldUp(e, op.task))
  {
    if !CancelsHead(e, op) {
      StepKeepsHeads(e, op);
    } else if WhichQueue(e, op.task) == RegionWaiting {
      CancelInRegion(e, op.task);
    } else {
      CancelInGlobal(e, op.task);
    }
  }

  /** The operation at position i leaves nobody asleep without a reason. */
  ghost predicate SparesHeads(ops: seq<Op>, i: nat)
    requires i < |ops|
  {
    CancelsHead(Run(ops[..i]), ops[i]) ==> NextHeldUp(Run(ops[..i]), ops[i].task)
  }

  ghost predicate AwakeAfter(ops: seq<Op>, n: nat)
    requires n <= |ops|
  {
    HeadsBlocked(Run(ops[..n]))
  }

  lemma AwakeStep(ops: seq<Op>, n: nat)
    requires n < |ops| && AwakeAfter(ops, n)
    ensures AwakeAfter(ops, n + 1) <==> SparesHeads(ops, n)
  {
    assert ops[..n + 1][..n] == ops[..n];
    StepHeadsExact(Run(ops[..n]), ops[n]);
  }

  lemma AwakeAtStart(ops: seq<Op>)
    ensures AwakeAfter(ops, 0)
  {
    assert ops[..0] == [];
  }

  lemma AwakeUpTo(ops: seq<Op>, n: nat)
    requires n <= |ops| && forall i {:trigger SparesHeads(ops, i)} :: 0 <= i < |ops| ==> SparesHeads(ops, i)
    ensures AwakeAfter(ops, n)
  {
    var i := 0;
    AwakeAtStart(ops);
    while i < n
      invariant i <= n && AwakeAfter(ops, i)
    {
      assert SparesHeads(ops, i);
      AwakeStep(ops, i);
      i := i + 1;
    }
  }

  /** No lost wake-up: all through a run the head of every queue is blocked by a
      lock or waiter that is really there, if and only if no cancel at the head
      of a queue passes over a request that nothing holds up. */
  lemma NoLostWakeUp(ops: seq<Op>)
    ensures (forall n {:trigger AwakeAfter(ops, n)} :: 0 <= n <= |ops| ==> AwakeAfter(ops, n)) <==>
            (forall i {:trigger SparesHeads(ops, i)} :: 0 <= i < |ops| ==> SparesHeads(ops, i))
  {
    if forall i {:trigger SparesHeads(ops, i)} :: 0 <= i < |ops| ==> SparesHeads(ops, i) {
      forall n | 0 <= n <= |ops|
        ensures AwakeAfter(ops, n)
      {
        AwakeUpTo(ops, n);
      }
    }
    if forall n {:trigger AwakeAfter(ops, n)} :: 0 <= n <= |ops| ==> AwakeAfter(ops, n) {
      forall i | 0 <= i < |ops|
        ensures SparesHeads(ops, i)
      {
        assert AwakeAfter(ops, i) && AwakeAfter(ops, i + 1);
        AwakeStep(ops, i);
      }
    }
  }

  // --------------------------------------------------------------- runs that leave one asleep

  const A := Range(0, 10)
  const B := Range(5, 10)
  const C := Range(0, 20)

  const READ_A := Task(1, 1, Shared, A)
  const WRITE_A := Task(2, 2, Exclusive, A)
  const READ_A_TOO := Task(3, 3, Shared, A)
  const READ_B := Task(4, 4, Shared, B)
  const WRITE_B := Task(5, 5, Exclusive, B)
  const READ_C := Task(6, 6, Shared, C)

  lemma ScanOne(k: Range, regions: map<Range, Region>, t: Task)
    requires k in regions
    ensures FullScan([k], regions, t, true) == if Overlap(t.range, k) && RegionConflict(regions[k], t.kind, true) then [k] else []
  {
    assert [k][1..] == [];
  }

  lemma ScanTwo(k1: Range, k2: Range, regions: map<Range, Region>, t: Task)
    requires k1 in regions && k2 in regions
    ensures FullScan([k1, k2], regions, t, true) == FullScan([k1], regions, t, true) + FullScan([k2], regions, t, true)
  {
    assert [k1, k2][1..] == [k2];
    ScanOne(k1, regions, t);
  }

  lemma ScanThree(k1: Range, k2: Range, k3: Range, regions: map<Range, Region>, t: Task)
    requires k1 in regions && k2 in regions && k3 in regions
    ensures FullScan([k1, k2, k3], regions, t, true) == FullScan([k1], regions, t, true) + FullScan([k2, k3], regions, t, true)
  {
    assert [k1, k2, k3][1..] == [k2, k3];
    ScanOne(k1, regions, t);
  }

  lemma RunMore(ops: seq<Op>, op: Op)
    ensures Run(ops + [op]) == Step(Run(ops), op)
  {
    assert (ops + [op])[..|ops + [op]| - 1] == ops;
  }

  lemma RunApply(ops: seq<Op>, e: Entry, t: Task, e': Entry)
    requires Run(ops) == e && ListsRegions(e) && ApplySpec(e, t, true).1 == e'
    ensures Run(ops + [ApplyOp(t, true)]) == e'
  {
    RunMore(ops, ApplyOp(t, true));
  }

  lemma RunRelease(ops: seq<Op>, e: Entry, t: Task)
    requires Run(ops) == e
    ensures Core(e) && Run(ops + [ReleaseOp(t)]) == ReleaseSpec(e, t)
  {
    RunMore(ops, ReleaseOp(t));
  }

  /** How a request fares when the check answers so. */
  lemma Fares(e: Entry, t: Task, e1: Entry, v: Verdict)
    requires ListsRegions(e) && e1 == GetRegionSpec(e, t.range) && (forall k :: k in e1.order ==> k in e1.regions)
    requires v == VerdictOf(e1, t) && (v.holder.Some? ==> v.holder.value.conn != t.conn)
    ensures var r := e1.regions[t.range];
      ApplySpec(e, t, true).1 ==
        if v.holder.None? then Grant(e1, t)
        else if v.global then e1.(waiting := e1.waiting + [t])
        else e1.(regions := e1.regions[t.range := r.(waiting := r.waiting + [t])])
  {
  }

  lemma SameEntry(e: Entry, e': Entry)
    requires e.order == e'.order && e.waiting == e'.waiting && e.regions == e'.regions
    ensures e == e'
  {
  }

  /** One reader of range A. */
  const ONE_READER := Entry([A], map[A := Region(1, 0, [READ_A], [], 1)], [])

  lemma ReaderFirst()
    ensures ApplySpec(EMPTY_ENTRY, READ_A, true).1 == ONE_READER
  {
    var e1 := Entry([A], map[A := NEW_REGION.(refCount := 1)], []);
    SameEntry(GetRegionSpec(EMPTY_ENTRY, A), e1);
    ScanOne(A, e1.regions, READ_A);
    Fares(EMPTY_ENTRY, READ_A, e1, Verdict(None, false));
    assert [] + [READ_A] == [READ_A];
    SameEntry(Grant(e1, READ_A), ONE_READER);
  }

  /** A reader of range A, and a writer that waits in the region's queue. */
  const WRITER_WAITS := Entry([A], map[A := Region(1, 0, [READ_A], [WRITE_A], 2)], [])

  lemma WriterQueues()
    ensures ListsRegions(ONE_READER) && ApplySpec(ONE_READER, WRITE_A, true).1 == WRITER_WAITS
  {
    var e1 := Entry([A], map[A := Region(1, 0, [READ_A], [], 2)], []);
    SameEntry(GetRegionSpec(ONE_READER, A), e1);
    ScanOne(A, e1.regions, WRITE_A);
    Fares(ONE_READER, WRITE_A, e1, Verdict(Some(READ_A), false));
    assert [] + [WRITE_A] == [WRITE_A];
    SameEntry(e1.(regions := e1.regions[A := e1.regions[A].(waiting := [WRITE_A])]), WRITER_WAITS);
  }

  /** The second reader of range A queues behind the writer. */
  const READER_BEHIND := Entry([A], map[A := Region(1, 0, [READ_A], [WRITE_A, READ_A_TOO], 3)], [])

  lemma ReaderQueues()
    ensures ListsRegions(WRITER_WAITS) && ApplySpec(WRITER_WAITS, READ_A_TOO, true).1 == READER_BEHIND
  {
    var e1 := Entry([A], map[A := Region(1, 0, [READ_A], [WRITE_A], 3)], []);
    SameEntry(GetRegionSpec(WRITER_WAITS, A), e1);
    ScanOne(A, e1.regions, READ_A_TOO);
    Fares(WRITER_WAITS, READ_A_TOO, e1, Verdict(Some(WRITE_A), false));
    assert [WRITE_A] + [READ_A_TOO] == [WRITE_A, READ_A_TOO];
    SameEntry(e1.(regions := e1.regions[A := e1.regions[A].(waiting := [WRITE_A, READ_A_TOO])]), READER_BEHIND);
  }

  /** A reader of range B waits globally behind the writer of range A. */
  const READER_ELSEWHERE := Entry([A, B], map[A := Region(1, 0, [READ_A], [WRITE_A], 2), B := Region(0, 0, [], [], 1)], [READ_B])

  lemma ReaderWaitsGlobally()
    ensures ListsRegions(WRITER_WAITS) && ApplySpec(WRITER_WAITS, READ_B, true).1 == READER_ELSEWHERE
  {
    var e1 := READER_ELSEWHERE.(waiting := []);
    assert [A][1..] == [] && Place([A], B) == [A, B];
    SameEntry(GetRegionSpec(WRITER_WAITS, B), e1);
    ScanTwo(A, B, e1.regions, READ_B);
    ScanOne(A, e1.regions, READ_B);
    ScanOne(B, e1.regions, READ_B);
    Fares(WRITER_WAITS, READ_B, e1, Verdict(Some(WRITE_A), true));
  }

  /** A writer of range B waits globally for the reader of range A. */
  const WRITER_ELSEWHERE := Entry([A, B], map[A := Region(1, 0, [READ_A], [], 1), B := Region(0, 0, [], [], 1)], [WRITE_B])

  lemma WriterWaitsGlobally()
    ensures ListsRegions(ONE_READER) && ApplySpec(ONE_READER, WRITE_B, true).1 == WRITER_ELSEWHERE
  {
    var e1 := WRITER_ELSEWHERE.(waiting := []);
    assert [A][1..] == [] && Place([A], B) == [A, B];
    SameEntry(GetRegionSpec(ONE_READER, B), e1);
    ScanTwo(A, B, e1.regions, WRITE_B);
    ScanOne(A, e1.regions, WRITE_B);
    ScanOne(B, e1.regions, WRITE_B);
    Fares(ONE_READER, WRITE_B, e1, Verdict(Some(READ_A), true));
  }

  /** A reader of range C waits globally behind the writer of range B. */
  const READER_LAST := Entry([A, C, B], map[A := Region(1, 0, [READ_A], [], 1), C := Region(0, 0, [], [], 1),
                                            B := Region(0, 0, [], [], 1)], [WRITE_B, READ_C])

  lemma ReaderWaitsLast()
    ensures ListsRegions(WRITER_ELSEWHERE) && ApplySpec(WRITER_ELSEWHERE, READ_C, true).1 == READER_LAST
  {
    var e1 := READER_LAST.(waiting := [WRITE_B]);
    assert [A, B][1..] == [B] && Place([B], C) == [C, B] && Place([A, B], C) == [A, C, B];
    SameEntry(GetRegionSpec(WRITER_ELSEWHERE, C), e1);
    ScanThree(A, C, B, e1.regions, READ_C);
    ScanTwo(C, B, e1.regions, READ_C);
    ScanOne(A, e1.regions, READ_C);
    ScanOne(B, e1.regions, READ_C);
    ScanOne(C, e1.regions, READ_C);
    Fares(WRITER_ELSEWHERE, READ_C, e1, Verdict(Some(WRITE_B), true));
    assert [WRITE_B] + [READ_C] == [WRITE_B, READ_C];
  }

  /** What three requests lead to. */
  lemma RunThree(a: Task, e1: Entry, b: Task, e2: Entry, c: Task, e3: Entry)
    requires ApplySpec(EMPTY_ENTRY, a, true).1 == e1
    requires ListsRegions(e1) && ApplySpec(e1, b, true).1 == e2
    requires ListsRegions(e2) && ApplySpec(e2, c, true).1 == e3
    ensures Run([ApplyOp(a, true), ApplyOp(b, true), ApplyOp(c, true)]) == e3
  {
    var one, two, three := ApplyOp(a, true), ApplyOp(b, true), ApplyOp(c, true);
    RunApply([], EMPTY_ENTRY, a, e1);
    assert [] + [one] == [one] && [one] + [two] == [one, two] && [one, two] + [three] == [one, two, three];
    RunApply([one], e1, b, e2);
    RunApply([one, two], e2, c, e3);
  }

  lemma ThenRelease(a: Op, b: Op, c: Op, e: Entry, t: Task, e': Entry)
    requires Run([a, b, c]) == e
    requires Core(e) ==> ReleaseSpec(e, t) == e'
    ensures Run([a, b, c, ReleaseOp(t)]) == e'
  {
    RunRelease([a, b, c], e, t);
    assert [a, b, c] + [ReleaseOp(t)] == [a, b, c, ReleaseOp(t)];
  }

  /** The second reader of range A waits for the first. */
  const READER_STAYS := Entry([A], map[A := Region(1, 0, [READ_A], [READ_A_TOO], 2)], [])

  lemma WriterLeavesRegion()
    ensures Core(READER_BEHIND) ==> ReleaseSpec(READER_BEHIND, WRITE_A) == READER_STAYS
    ensures !HeadsBlocked(READER_STAYS)
  {
    assert [WRITE_A, READ_A_TOO][1..] == [READ_A_TOO];
    SameEntry(Cancelled(READER_BEHIND, WRITE_A), READER_STAYS);
    assert A in READER_STAYS.regions;
  }

  /** The writer between two readers of one range gives up: the second reader
      sleeps on although only a reader holds the range. */
  lemma AsleepInRegion()
    ensures !HeadsBlocked(Run([ApplyOp(READ_A, true), ApplyOp(WRITE_A, true), ApplyOp(READ_A_TOO, true), ReleaseOp(WRITE_A)]))
  {
    ReaderFirst();
    WriterQueues();
    ReaderQueues();
    RunThree(READ_A, ONE_READER, WRITE_A, WRITER_WAITS, READ_A_TOO, READER_BEHIND);
    WriterLeavesRegion();
    ThenRelease(ApplyOp(READ_A, true), ApplyOp(WRITE_A, true), ApplyOp(READ_A_TOO, true), READER_BEHIND, WRITE_A, READER_STAYS);
  }

  /** The reader of range B waits and nothing holds it up. */
  const READER_FREE := Entry([A, B], map[A := Region(1, 0, [READ_A], [], 1), B := Region(0, 0, [], [], 1)], [READ_B])

  lemma NothingHoldsUp(e: Entry, t: Task)
    requires e.waiting == [t] && t.kind == Shared && forall k :: k in e.regions ==> e.regions[k].waiting == [] && e.regions[k].writers == 0
    ensures !HeadsBlocked(e)
  {
  }

  lemma WriterLeavesReader()
    ensures Core(READER_ELSEWHERE) ==> ReleaseSpec(READER_ELSEWHERE, WRITE_A) == READER_FREE
    ensures !HeadsBlocked(READER_FREE)
  {
    assert [WRITE_A][1..] == [];
    SameEntry(Cancelled(READER_ELSEWHERE, WRITE_A), READER_FREE);
    NothingHoldsUp(READER_FREE, READ_B);
  }

  /** The only writer that waits for a range gives up: a reader of another range
      sleeps on although nothing blocks it. */
  lemma AsleepBesideRegion()
    ensures !HeadsBlocked(Run([ApplyOp(READ_A, true), ApplyOp(WRITE_A, true), ApplyOp(READ_B, true), ReleaseOp(WRITE_A)]))
  {
    ReaderFirst();
    WriterQueues();
    ReaderWaitsGlobally();
    RunThree(READ_A, ONE_READER, WRITE_A, WRITER_WAITS, READ_B, READER_ELSEWHERE);
    WriterLeavesReader();
    ThenRelease(ApplyOp(READ_A, true), ApplyOp(WRITE_A, true), ApplyOp(READ_B, true), READER_ELSEWHERE, WRITE_A, READER_FREE);
  }

  /** The reader of range C waits and nothing holds it up. */
  const READER_ALONE := Entry([A, C, B], map[A := Region(1, 0, [READ_A], [], 1), C := Region(0, 0, [], [], 1),
                                             B := Region(0, 0, [], [], 0)], [READ_C])

  lemma WriterLeavesQueue()
    ensures Core(READER_LAST) ==> ReleaseSpec(READER_LAST, WRITE_B) == READER_ALONE
    ensures !HeadsBlocked(READER_ALONE)
  {
    assert [WRITE_B, READ_C][1..] == [READ_C];
    SameEntry(Cancelled(READER_LAST, WRITE_B), READER_ALONE);
    NothingHoldsUp(READER_ALONE, READ_C);
  }

  /** The first in the global queue gives up: the next sleeps on although nothing
      blocks it. */
  lemma AsleepGlobally()
    ensures !HeadsBlocked(Run([ApplyOp(READ_A, true), ApplyOp(WRITE_B, true), ApplyOp(READ_C, true), ReleaseOp(WRITE_B)]))
  {
    ReaderFirst();
    WriterWaitsGlobally();
    ReaderWaitsLast();
    RunThree(READ_A, ONE_READER, WRITE_B, WRITER_ELSEWHERE, READ_C, READER_LAST);
    WriterLeavesQueue();
    ThenRelease(ApplyOp(READ_A, true), ApplyOp(WRITE_B, true), ApplyOp(READ_C, true), READER_LAST, WRITE_B, READER_ALONE);
  }
}
