/**
 The binlog producer: record buffers arrive in any order and leave for the
 slaves in version order. A buffer covers a range of data versions; one that
 is early waits in a ring indexed by its first version, one that is far too
 early goes back to the queue.
 */
module BinlogProducer {
  import opened Wrappers

  const RING_SIZE: nat := 4096

  // a buffer of the data versions first .. Last(); id tells two buffers apart
  datatype Buffer = Buffer(first: nat, extra: nat, id: nat) {
    function Last(): nat {
      first + extra
    }
  }

  datatype State = State(
    next: nat,                     // next version to push
    slots: seq<Option<Buffer>>,    // the ring
    start: nat, end: nat,          // ring pointers: consumer and producer side
    count: int,
    queue: seq<Buffer>,            // arrived, not yet taken
    out: seq<Buffer>,              // pushed to the slave queues, oldest first
    dropped: seq<Buffer>)          // refused as older than next

  ghost predicate Shape(s: State) {
    |s.slots| == RING_SIZE && s.start < RING_SIZE && s.end < RING_SIZE
  }

  function Initial(version: nat): State {
    var p := version % RING_SIZE;
    State(version, seq(RING_SIZE, _ => None), p, p, 0, [], [], [])
  }

  // ------------------------------------------------------------ operations

  /** Reinsertion of a buffer that came too early, near its place by version. */
  function RepushAt(queue: seq<Buffer>, i: nat, rb: Buffer): seq<Buffer>
    requires i <= |queue|
    decreases |queue| - i
  {
    if i < |queue| && rb.first > queue[i].Last() then RepushAt(queue, i + 1, rb)
    else queue[..i] + [rb] + queue[i..]
  }

  function Repush(queue: seq<Buffer>, rb: Buffer): seq<Buffer> {
    if queue == [] then [rb]
    else if rb.first <= queue[0].first then [rb] + queue
    else if rb.first > queue[|queue| - 1].Last() then queue + [rb]
    else RepushAt(queue, 1, rb)
  }

  function Push(s: State, rb: Buffer): State {
    s.(out := s.out + [rb], next := s.next + (rb.Last() - rb.first + 1))
  }

  function Parked(slots: seq<Option<Buffer>>): multiset<Buffer> {
    if slots == [] then multiset{}
    else (if slots[0].Some? then multiset{slots[0].value} else multiset{}) + Parked(slots[1..])
  }

  function PopSlot(s: State): State
    requires Shape(s) && s.slots[s.start].Some?
  {
    var s1 := Push(s, s.slots[s.start].value);
    s1.(slots := s.slots[s.start := None], start := s1.next % RING_SIZE, count := s.count - 1)
  }

  /** The loop that pushes parked buffers as long as the next one is there. */
  function Drain(s: State): (s': State)
    requires Shape(s)
    ensures Shape(s')
    decreases |Parked(s.slots)|
  {
    if s.start != s.end && s.slots[s.start].Some? then
      ParkedRemove(s.slots, s.start);
      Drain(PopSlot(s))
    else s
  }

  /** Whether parking rb moves the producer pointer. */
  function Expands(s: State, rb: Buffer): bool {
    var cur, last := rb.first % RING_SIZE, rb.Last() % RING_SIZE;
    if s.start == s.end then true
    else if s.end > s.start then !(cur > s.start && last < s.end)
    else cur >= s.end && cur < s.start
  }

  function Park(s: State, rb: Buffer): State
    requires Shape(s)
  {
    s.(slots := s.slots[rb.first % RING_SIZE := Some(rb)],
       count := s.count + 1,
       end := if Expands(s, rb) then (rb.Last() + 1) % RING_SIZE else s.end)
  }

  function DealRecord(s: State, rb: Buffer): (s': State)
    requires Shape(s)
    ensures Shape(s')
  {
    if rb.first - s.next >= RING_SIZE - 1 then s.(queue := Repush(s.queue, rb))
    else if rb.first - s.next < 0 then s.(dropped := s.dropped + [rb])
    else if rb.first % RING_SIZE == s.start then
      var s1 := Push(s, rb);
      var p := s1.next % RING_SIZE;
      if s.start == s.end then s1.(start := p, end := p) else Drain(s1.(start := p))
    else if rb.Last() - s.next >= RING_SIZE - 1 then s.(queue := Repush(s.queue, rb))
    else Park(s, rb)
  }

  // ------------------------------------------------------ parked buffers

  lemma {:induction false} ParkedRemove(slots: seq<Option<Buffer>>, i: nat)
    requires i < |slots| && slots[i].Some?
    ensures Parked(slots) == Parked(slots[i := None]) + multiset{slots[i].value}
  {
    if i > 0 {
      ParkedRemove(slots[1..], i - 1);
      assert slots[i := None][1..] == slots[1..][i - 1 := None];
    } else {
      assert slots[0 := None][1..] == slots[1..];
    }
  }

  lemma {:induction false} ParkedInsert(slots: seq<Option<Buffer>>, i: nat, rb: Buffer)
    requires i < |slots| && slots[i].None?
    ensures Parked(slots[i := Some(rb)]) == Parked(slots) + multiset{rb}
  {
    ParkedRemove(slots[i := Some(rb)], i);
    assert slots[i := Some(rb)][i := None] == slots;
  }

  lemma {:induction false} ParkedMembers(slots: seq<Option<Buffer>>, b: Buffer)
    ensures b in Parked(slots) <==> Some(b) in slots
  {
    if slots != [] {
      ParkedMembers(slots[1..], b);
      assert slots == [slots[0]] + slots[1..];
    }
  }

  lemma {:induction false} ParkedEmpty(n: nat)
    ensures Parked(seq(n, _ => None)) == multiset{}
  {
    var s: seq<Option<Buffer>> := seq(n, _ => None);
    if n > 0 {
      ParkedEmpty(n - 1);
      assert s[1..] == seq(n - 1, _ => None);
    }
  }

  lemma {:induction false} RepushAtKeeps(queue: seq<Buffer>, i: nat, rb: Buffer)
    requires i <= |queue|
    ensures multiset(RepushAt(queue, i, rb)) == multiset(queue) + multiset{rb}
    decreases |queue| - i
  {
    if i < |queue| && rb.first > queue[i].Last() {
      RepushAtKeeps(queue, i + 1, rb);
    } else {
      assert queue == queue[..i] + queue[i..];
    }
  }

  lemma RepushKeeps(queue: seq<Buffer>, rb: Buffer)
    ensures multiset(Repush(queue, rb)) == multiset(queue) + multiset{rb}
  {
    if queue != [] {
      RepushAtKeeps(queue, 1, rb);
    }
  }

  // ----------------------------------------------------------- invariants

  ghost predicate Apart(b1: Buffer, b2: Buffer) {
    b1.Last() < b2.first || b2.Last() < b1.first
  }

  /** The output is a run of consecutive versions from version up to next. */
  ghost predicate Consecutive(out: seq<Buffer>, version: nat, next: nat) {
    if out == [] then version == next
    else
      var b := out[|out| - 1];
      b.Last() + 1 == next && Consecutive(out[..|out| - 1], version, b.first)
  }

  /** Every parked buffer sits in its own slot, not before next, inside the window. */
  ghost predicate ParkedOk(s: State) {
    && Shape(s)
    && s.start == s.next % RING_SIZE
    && (forall i :: 0 <= i < RING_SIZE && s.slots[i].Some? ==>
          var b := s.slots[i].value;
          b.first % RING_SIZE == i && s.next <= b.first && b.Last() - s.next < RING_SIZE - 1)
    && (forall i, j :: 0 <= i < j < RING_SIZE && s.slots[i].Some? && s.slots[j].Some? ==>
          Apart(s.slots[i].value, s.slots[j].value))
  }

  ghost predicate ApartFromParked(s: State, rb: Buffer) {
    forall i :: 0 <= i < |s.slots| && s.slots[i].Some? ==> Apart(rb, s.slots[i].value)
  }

  ghost function Held(s: State): multiset<Buffer> {
    multiset(s.out) + Parked(s.slots) + multiset(s.queue) + multiset(s.dropped)
  }

  lemma PushNext(s: State, rb: Buffer, version: nat)
    requires rb.first == s.next && Consecutive(s.out, version, s.next)
    ensures Push(s, rb).next == rb.Last() + 1 && Consecutive(Push(s, rb).out, version, rb.Last() + 1)
  {
    assert (s.out + [rb])[..|s.out|] == s.out;
  }

  /** The buffer in the consumer slot is the one that is due. */
  lemma SlotOfNext(s: State)
    requires ParkedOk(s) && s.slots[s.start].Some?
    ensures s.slots[s.start].value.first == s.next
  {
  }

  lemma PopNext(s: State)
    requires ParkedOk(s) && s.slots[s.start].Some?
    ensures ParkedOk(PopSlot(s)) && PopSlot(s).next == s.slots[s.start].value.Last() + 1
  {
    SlotOfNext(s);
    var b := s.slots[s.start].value;
    forall i | 0 <= i < RING_SIZE && i != s.start && s.slots[i].Some?
      ensures b.Last() < s.slots[i].value.first
    {
      assert Apart(b, s.slots[i].value);
    }
  }

  lemma PopHeld(s: State)
    requires Shape(s) && s.slots[s.start].Some?
    ensures Held(PopSlot(s)) == Held(s) && |Parked(PopSlot(s).slots)| < |Parked(s.slots)|
  {
    ParkedRemove(s.slots, s.start);
  }

  lemma {:induction false} DrainKeeps(s: State, version: nat)
    requires ParkedOk(s) && Consecutive(s.out, version, s.next)
    ensures var s' := Drain(s);
      && ParkedOk(s') && Consecutive(s'.out, version, s'.next) && Held(s') == Held(s)
      && s'.dropped == s.dropped
    decreases |Parked(s.slots)|
  {
    if s.start != s.end && s.slots[s.start].Some? {
      SlotOfNext(s);
      PushNext(s, s.slots[s.start].value, version);
      PopNext(s);
      PopHeld(s);
      DrainKeeps(PopSlot(s), version);
    }
  }

  lemma FreeSlot(s: State, rb: Buffer)
    requires ParkedOk(s) && ApartFromParked(s, rb)
    requires 0 <= rb.first - s.next < RING_SIZE - 1
    ensures s.slots[rb.first % RING_SIZE].None?
  {
    var i := rb.first % RING_SIZE;
  }

  lemma ParkKeeps(s: State, rb: Buffer)
    requires ParkedOk(s) && ApartFromParked(s, rb) && s.next <= rb.first
    requires rb.Last() - s.next < RING_SIZE - 1
    ensures ParkedOk(Park(s, rb)) && Held(Park(s, rb)) == Held(s) + multiset{rb}
  {
    FreeSlot(s, rb);
    ParkedInsert(s.slots, rb.first % RING_SIZE, rb);
  }

  lemma PushKeeps(s: State, rb: Buffer, version: nat)
    requires ParkedOk(s) && Consecutive(s.out, version, s.next)
    requires ApartFromParked(s, rb) && s.next == rb.first
    ensures var s1 := Push(s, rb).(start := (rb.Last() + 1) % RING_SIZE);
      && ParkedOk(s1) && s1.next == rb.Last() + 1 && Consecutive(s1.out, version, s1.next)
      && Held(s1) == Held(s) + multiset{rb}
  {
    PushNext(s, rb, version);
    forall i | 0 <= i < RING_SIZE && s.slots[i].Some?
      ensures rb.Last() < s.slots[i].value.first
    {
      assert Apart(rb, s.slots[i].value);
    }
  }

  lemma SameSlot(next: nat, v: nat)
    requires next <= v < next + RING_SIZE
    ensures v % RING_SIZE == next % RING_SIZE <==> v == next
  {
  }

  /** One buffer dealt: the output stays a gap-free run, the ring stays in
      order, and the buffer is now pushed, parked or back in the queue. */
  lemma DealKeeps(s: State, rb: Buffer, version: nat)
    requires ParkedOk(s) && Consecutive(s.out, version, s.next)
    requires ApartFromParked(s, rb) && s.next <= rb.first
    ensures var s' := DealRecord(s, rb);
      && ParkedOk(s') && Consecutive(s'.out, version, s'.next)
      && Held(s') == Held(s) + multiset{rb} && s'.dropped == s.dropped
  {
    if rb.first - s.next >= RING_SIZE - 1 {
      RepushKeeps(s.queue, rb);
    } else {
      SameSlot(s.next, rb.first);
      if rb.first == s.next {
        PushKeeps(s, rb, version);
        if s.start != s.end {
          DrainKeeps(Push(s, rb).(start := (rb.Last() + 1) % RING_SIZE), version);
        }
      } else if rb.Last() - s.next >= RING_SIZE - 1 {
        RepushKeeps(s.queue, rb);
      } else {
        ParkKeeps(s, rb);
      }
    }
  }

  // ------------------------------------------------------------ completeness

  /** The version the producer pointer stands for. */
  function WindowEnd(s: State): int {
    s.next + (s.end - s.start) % RING_SIZE
  }

  ghost predicate AllBefore(s: State, e: int) {
    forall i :: 0 <= i < |s.slots| && s.slots[i].Some? ==> s.slots[i].value.Last() < e
  }

  ghost predicate SomeReaches(s: State, e: int) {
    exists i :: 0 <= i < |s.slots| && s.slots[i].Some? && s.slots[i].value.Last() + 1 == e
  }

  ghost predicate WindowOk(s: State) {
    && ParkedOk(s)
    && s.count == |Parked(s.slots)|
    && AllBefore(s, WindowEnd(s))
    && (s.start != s.end ==> SomeReaches(s, WindowEnd(s)))
  }

  /** Between two buffers the ring never holds the version that is due. */
  ghost predicate RingOk(s: State) {
    WindowOk(s) && s.slots[s.start].None?
  }

  lemma WindowEndIs(next: nat, start: nat, end: nat, e: int)
    requires start == next % RING_SIZE && end == e % RING_SIZE && 0 <= e - next < RING_SIZE
    ensures next + (end - start) % RING_SIZE == e
  {
  }

  lemma WindowEndMod(s: State)
    requires ParkedOk(s)
    ensures WindowEnd(s) % RING_SIZE == s.end && 0 <= WindowEnd(s) - s.next < RING_SIZE
    ensures s.start == s.end <==> WindowEnd(s) == s.next
  {
  }

  lemma PopWindowEnd(s: State)
    requires ParkedOk(s) && s.start != s.end && s.slots[s.start].Some?
    requires s.slots[s.start].value.Last() < WindowEnd(s)
    ensures WindowEnd(PopSlot(s)) == WindowEnd(s)
  {
    SlotOfNext(s);
    WindowEndMod(s);
    var s' := PopSlot(s);
    WindowEndIs(s'.next, s'.start, s'.end, WindowEnd(s));
  }

  lemma PopReaches(s: State, e: int)
    requires ParkedOk(s) && s.slots[s.start].Some? && SomeReaches(s, e)
    ensures s.slots[s.start].value.Last() + 1 == e || SomeReaches(PopSlot(s), e)
  {
    var i :| 0 <= i < |s.slots| && s.slots[i].Some? && s.slots[i].value.Last() + 1 == e;
    if i != s.start {
      assert PopSlot(s).slots[i] == s.slots[i];
    }
  }

  lemma PopKeepsWindow(s: State)
    requires WindowOk(s) && s.start != s.end && s.slots[s.start].Some?
    ensures WindowOk(PopSlot(s))
  {
    PopWindowEnd(s);
    PopReaches(s, WindowEnd(s));
    PopNext(s);
    ParkedRemove(s.slots, s.start);
    WindowEndMod(PopSlot(s));
  }

  lemma {:induction false} DrainCompletes(s: State)
    requires WindowOk(s)
    ensures RingOk(Drain(s))
    decreases |Parked(s.slots)|
  {
    if s.start != s.end && s.slots[s.start].Some? {
      PopKeepsWindow(s);
      PopHeld(s);
      DrainCompletes(PopSlot(s));
    } else if s.start == s.end && s.slots[s.start].Some? {
      WindowEndMod(s);
    }
  }

  lemma PushKeepsParked(s: State, rb: Buffer)
    requires ParkedOk(s) && ApartFromParked(s, rb) && s.next == rb.first
    ensures ParkedOk(Push(s, rb).(start := (rb.Last() + 1) % RING_SIZE))
  {
    forall i | 0 <= i < RING_SIZE && s.slots[i].Some?
      ensures rb.Last() < s.slots[i].value.first
    {
      assert Apart(rb, s.slots[i].value);
    }
  }

  /** A push leaves the end of the window where it is. */
  lemma PushWindowEnd(s: State, rb: Buffer, s1: State)
    requires WindowOk(s) && ApartFromParked(s, rb) && s.next == rb.first && s.start != s.end
    requires s1 == Push(s, rb).(start := (rb.Last() + 1) % RING_SIZE)
    ensures WindowEnd(s1) == WindowEnd(s) && SomeReaches(s1, WindowEnd(s))
  {
    var e := WindowEnd(s);
    WindowEndMod(s);
    var i :| 0 <= i < |s.slots| && s.slots[i].Some? && s.slots[i].value.Last() + 1 == e;
    assert Apart(rb, s.slots[i].value);
    WindowEndIs(s1.next, s1.start, s1.end, e);
    assert s1.slots[i].Some? && s1.slots[i].value.Last() + 1 == e;
  }

  lemma PushKeepsWindow(s: State, rb: Buffer)
    requires WindowOk(s) && ApartFromParked(s, rb) && s.next == rb.first && s.start != s.end
    ensures WindowOk(Push(s, rb).(start := (rb.Last() + 1) % RING_SIZE))
  {
    PushKeepsParked(s, rb);
    PushWindowEnd(s, rb, Push(s, rb).(start := (rb.Last() + 1) % RING_SIZE));
  }

  /** The guard of the branch that misplaces the producer pointer: the window
      lies in one lap of the ring and the new buffer runs over the last slot. */
  predicate Misjudged(s: State, rb: Buffer) {
    s.end > s.start && rb.first % RING_SIZE > rb.Last() % RING_SIZE
  }

  lemma ExpandsArithmetic(s: State, rb: Buffer, e: int)
    requires s.start == s.next % RING_SIZE && s.end == e % RING_SIZE && 0 < e - s.next < RING_SIZE
    requires s.next < rb.first && rb.Last() - s.next < RING_SIZE - 1
    requires rb.Last() < e || rb.first >= e
    ensures !Misjudged(s, rb) ==> (Expands(s, rb) <==> rb.Last() >= e)
    ensures Misjudged(s, rb) ==> !Expands(s, rb) && rb.Last() >= e
  {
    ModShift(s.next, e - s.next);
    ModShift(s.next, rb.first - s.next);
    ModShift(s.next, rb.Last() - s.next);
  }

  lemma ModShift(n: int, x: int)
    requires 0 <= x < RING_SIZE
    ensures (n + x) % RING_SIZE == if n % RING_SIZE + x < RING_SIZE then n % RING_SIZE + x else n % RING_SIZE + x - RING_SIZE
  {
  }

  lemma BeyondOrInside(s: State, rb: Buffer)
    requires WindowOk(s) && ApartFromParked(s, rb) && s.start != s.end
    ensures rb.Last() < WindowEnd(s) || rb.first >= WindowEnd(s)
  {
    var i :| 0 <= i < |s.slots| && s.slots[i].Some? && s.slots[i].value.Last() + 1 == WindowEnd(s);
    assert Apart(rb, s.slots[i].value);
  }

  lemma ParkWindowEnd(s: State, rb: Buffer)
    requires WindowOk(s) && ApartFromParked(s, rb)
    requires s.next < rb.first && rb.Last() - s.next < RING_SIZE - 1
    ensures !Misjudged(s, rb) ==>
              WindowEnd(Park(s, rb)) == if rb.Last() >= WindowEnd(s) then rb.Last() + 1 else WindowEnd(s)
    ensures Misjudged(s, rb) ==> WindowEnd(Park(s, rb)) == WindowEnd(s) <= rb.Last()
  {
    var e := WindowEnd(s);
    WindowEndMod(s);
    if s.start != s.end {
      BeyondOrInside(s, rb);
      ExpandsArithmetic(s, rb, e);
    }
    var s' := Park(s, rb);
    WindowEndIs(s'.next, s'.start, s'.end, if Expands(s, rb) then rb.Last() + 1 else e);
  }

  lemma ParkKeepsRing(s: State, rb: Buffer)
    requires RingOk(s) && ApartFromParked(s, rb)
    requires s.next < rb.first && rb.Last() - s.next < RING_SIZE - 1
    requires !Misjudged(s, rb)
    ensures RingOk(Park(s, rb))
  {
    ParkKeeps(s, rb);
    ParkWindowEnd(s, rb);
    FreeSlot(s, rb);
    SameSlot(s.next, rb.first);
    var cur := rb.first % RING_SIZE;
    ParkedInsert(s.slots, cur, rb);
    var s' := Park(s, rb);
    assert s'.slots == s.slots[cur := Some(rb)];
    assert s'.slots[cur] == Some(rb);
    if rb.Last() < WindowEnd(s) {
      WindowEndMod(s);
      var i :| 0 <= i < |s.slots| && s.slots[i].Some? && s.slots[i].value.Last() + 1 == WindowEnd(s);
      assert s'.slots[i] == s.slots[i];
    }
  }

  lemma MisjudgedBreaksRing(s: State, rb: Buffer)
    requires WindowOk(s) && ApartFromParked(s, rb)
    requires s.next < rb.first && rb.Last() - s.next < RING_SIZE - 1
    requires Misjudged(s, rb)
    ensures !RingOk(Park(s, rb))
  {
    ParkWindowEnd(s, rb);
    assert Park(s, rb).slots[rb.first % RING_SIZE] == Some(rb);
  }

  /** Parking keeps the ring's promise exactly when the range is not misjudged. */
  lemma ParkExact(s: State, rb: Buffer)
    requires RingOk(s) && ApartFromParked(s, rb)
    requires s.next < rb.first && rb.Last() - s.next < RING_SIZE - 1
    ensures RingOk(Park(s, rb)) <==> !Misjudged(s, rb)
  {
    if Misjudged(s, rb) {
      MisjudgedBreaksRing(s, rb);
    } else {
      ParkKeepsRing(s, rb);
    }
  }

  lemma DealKeepsRing(s: State, rb: Buffer)
    requires RingOk(s) && ApartFromParked(s, rb) && s.next <= rb.first
    requires rb.first % RING_SIZE <= rb.Last() % RING_SIZE
    ensures RingOk(DealRecord(s, rb))
  {
    if rb.first == s.next {
      NextKeepsRing(s, rb);
    } else {
      LaterKeepsRing(s, rb);
    }
  }

  lemma LaterKeepsRing(s: State, rb: Buffer)
    requires RingOk(s) && ApartFromParked(s, rb) && s.next < rb.first
    requires rb.first % RING_SIZE <= rb.Last() % RING_SIZE
    ensures RingOk(DealRecord(s, rb))
  {
    if rb.Last() - s.next < RING_SIZE - 1 {
      SameSlot(s.next, rb.first);
      ParkKeepsRing(s, rb);
    } else if rb.first - s.next < RING_SIZE - 1 {
      SameSlot(s.next, rb.first);
    }
  }

  lemma NextKeepsRing(s: State, rb: Buffer)
    requires RingOk(s) && ApartFromParked(s, rb) && s.next == rb.first
    requires rb.first % RING_SIZE <= rb.Last() % RING_SIZE
    ensures RingOk(DealRecord(s, rb))
  {
    if s.start == s.end {
      WindowEndMod(s);
      PushKeepsParked(s, rb);
    } else {
      PushKeepsWindow(s, rb);
      DrainCompletes(Push(s, rb).(start := (rb.Last() + 1) % RING_SIZE));
    }
  }

  /** What the ring's promise means to a reader of its fields. */
  lemma RingMeaning(s: State)
    requires RingOk(s)
    ensures s.start == s.end <==> Parked(s.slots) == multiset{}
    ensures s.count == |Parked(s.slots)|
    ensures forall b :: b in Parked(s.slots) ==> b.first > s.next
  {
    WindowEndMod(s);
    forall b | b in Parked(s.slots)
      ensures b.first > s.next && s.start != s.end
    {
      ParkedMembers(s.slots, b);
      var i :| 0 <= i < |s.slots| && s.slots[i] == Some(b);
    }
    if s.start != s.end {
      var i :| 0 <= i < |s.slots| && s.slots[i].Some? && s.slots[i].value.Last() + 1 == WindowEnd(s);
      ParkedMembers(s.slots, s.slots[i].value);
    }
  }

  // ------------------------------------------------------------------- runs

  // pending is the list the producer thread has detached from the queue
  datatype System = System(state: State, pending: seq<Buffer>)

  datatype Event =
    | Arrive(rb: Buffer)  // some thread queues a buffer
    | Take                // the producer detaches the whole queue
    | Deal                // the producer deals with one detached buffer

  function Step(y: System, e: Event): (y': System)
    requires Shape(y.state)
    ensures Shape(y'.state)
  {
    match e
    case Arrive(rb) => y.(state := y.state.(queue := y.state.queue + [rb]))
    case Take =>
      if y.pending != [] then y
      else System(y.state.(queue := []), y.state.queue)
    case Deal =>
      if y.pending == [] then y
      else System(DealRecord(y.state, y.pending[0]), y.pending[1..])
  }

  function Run(version: nat, events: seq<Event>): (y: System)
    ensures Shape(y.state)
    decreases |events|
  {
    if events == [] then System(Initial(version), [])
    else Step(Run(version, events[..|events| - 1]), events[|events| - 1])
  }

  function Received(events: seq<Event>): multiset<Buffer> {
    if events == [] then multiset{}
    else
      var e := events[|events| - 1];
      Received(events[..|events| - 1]) + (if e.Arrive? then multiset{e.rb} else multiset{})
  }

  /** Each buffer received once, none before version, no two overlapping. */
  ghost predicate Family(m: multiset<Buffer>, version: nat) {
    && (forall b :: b in m ==> m[b] == 1 && version <= b.first)
    && (forall b1, b2 :: b1 in m && b2 in m && b1 != b2 ==> Apart(b1, b2))
  }

  ghost predicate SystemOk(y: System, version: nat, m: multiset<Buffer>) {
    && ParkedOk(y.state)
    && Consecutive(y.state.out, version, y.state.next)
    && y.state.dropped == []
    && Held(y.state) + multiset(y.pending) == m
  }

  lemma {:induction false} NotYetPushed(out: seq<Buffer>, version: nat, next: nat, rb: Buffer)
    requires Consecutive(out, version, next) && version <= rb.first
    requires forall b :: b in out ==> Apart(b, rb)
    ensures next <= rb.first
  {
    if out != [] {
      var b := out[|out| - 1];
      assert b in out;
      NotYetPushed(out[..|out| - 1], version, b.first, rb);
    }
  }

  lemma PendingIsNew(y: System, version: nat, m: multiset<Buffer>)
    requires SystemOk(y, version, m) && Family(m, version) && y.pending != []
    ensures y.pending[0] in m
    ensures ApartFromParked(y.state, y.pending[0]) && y.state.next <= y.pending[0].first
  {
    var s, rb := y.state, y.pending[0];
    assert rb in multiset(y.pending);
    assert m[rb] == 1 && rb !in multiset(s.out) && rb !in Parked(s.slots);
    forall i | 0 <= i < |s.slots| && s.slots[i].Some?
      ensures Apart(rb, s.slots[i].value)
    {
      ParkedMembers(s.slots, s.slots[i].value);
    }
    forall b | b in s.out
      ensures Apart(b, rb)
    {
      assert b in multiset(s.out) && b in m;
    }
    NotYetPushed(s.out, version, s.next, rb);
  }

  lemma DealStepKeeps(y: System, version: nat, m: multiset<Buffer>)
    requires SystemOk(y, version, m) && Family(m, version) && y.pending != []
    ensures SystemOk(Step(y, Deal), version, m)
  {
    PendingIsNew(y, version, m);
    DealKeeps(y.state, y.pending[0], version);
    assert y.pending == [y.pending[0]] + y.pending[1..];
  }

  lemma ArriveStepKeeps(y: System, rb: Buffer, version: nat, m: multiset<Buffer>)
    requires SystemOk(y, version, m)
    ensures SystemOk(Step(y, Arrive(rb)), version, m + multiset{rb})
  {
    assert Held(Step(y, Arrive(rb)).state) == Held(y.state) + multiset{rb};
  }

  lemma StepKeeps(y: System, e: Event, version: nat, m: multiset<Buffer>, m': multiset<Buffer>)
    requires SystemOk(y, version, m) && Family(m, version) && m' == m + if e.Arrive? then multiset{e.rb} else multiset{}
    ensures SystemOk(Step(y, e), version, m')
  {
    match e {
      case Arrive(rb) => ArriveStepKeeps(y, rb, version, m);
      case Take =>
      case Deal =>
        if y.pending != [] {
          DealStepKeeps(y, version, m);
        }
    }
  }

  lemma FamilyPrefix(m: multiset<Buffer>, m': multiset<Buffer>, version: nat)
    requires m <= m' && Family(m', version)
    ensures Family(m, version)
  {
  }

  lemma {:induction false} RunKeeps(version: nat, events: seq<Event>)
    requires Family(Received(events), version)
    ensures SystemOk(Run(version, events), version, Received(events))
    decreases |events|
  {
    if events == [] {
      ParkedEmpty(RING_SIZE);
    } else {
      var front := events[..|events| - 1];
      FamilyPrefix(Received(front), Received(events), version);
      RunKeeps(version, front);
      StepKeeps(Run(version, front), events[|events| - 1], version, Received(front), Received(events));
    }
  }

  /** For every arrival order and interleaving, what has been pushed is a run of
      consecutive versions from the starting one, and each received buffer is in
      exactly one place: pushed, parked, queued or detached; none is dropped. */
  lemma OrderedGapFreeOutput(version: nat, events: seq<Event>)
    requires Family(Received(events), version)
    ensures var y := Run(version, events);
      && Consecutive(y.state.out, version, y.state.next)
      && y.state.dropped == []
      && multiset(y.state.out) + Parked(y.state.slots) + multiset(y.state.queue) + multiset(y.pending) == Received(events)
  {
    RunKeeps(version, events);
    var y := Run(version, events);
    assert Held(y.state) == multiset(y.state.out) + Parked(y.state.slots) + multiset(y.state.queue);
  }

  lemma ArrivalKeepsRing(s: State, queue: seq<Buffer>)
    requires RingOk(s)
    ensures RingOk(s.(queue := queue))
  {
    var s' := s.(queue := queue);
    assert WindowEnd(s') == WindowEnd(s);
    if s.start != s.end {
      var i :| 0 <= i < |s.slots| && s.slots[i].Some? && s.slots[i].value.Last() + 1 == WindowEnd(s);
      assert s'.slots[i].Some?;
    }
  }

  lemma StepKeepsRing(y: System, e: Event, version: nat, m: multiset<Buffer>)
    requires SystemOk(y, version, m) && Family(m, version) && RingOk(y.state)
    requires forall b :: b in m ==> b.first % RING_SIZE <= b.Last() % RING_SIZE
    ensures RingOk(Step(y, e).state)
  {
    match e {
      case Arrive(rb) => ArrivalKeepsRing(y.state, y.state.queue + [rb]);
      case Take => ArrivalKeepsRing(y.state, []);
      case Deal =>
        if y.pending != [] {
          PendingIsNew(y, version, m);
          DealKeepsRing(y.state, y.pending[0]);
        }
    }
  }

  /** With buffers that do not run over the last slot (single-version buffers
      never do), a buffer that is due is never left in the ring. */
  lemma {:induction false} ProducerComplete(version: nat, events: seq<Event>)
    requires Family(Received(events), version)
    requires forall b :: b in Received(events) ==> b.first % RING_SIZE <= b.Last() % RING_SIZE
    ensures RingOk(Run(version, events).state)
    decreases |events|
  {
    if events == [] {
      ParkedEmpty(RING_SIZE);
    } else {
      var front := events[..|events| - 1];
      FamilyPrefix(Received(front), Received(events), version);
      ProducerComplete(version, front);
      RunKeeps(version, front);
      StepKeepsRing(Run(version, front), events[|events| - 1], version, Received(front));
    }
  }

  /** A due buffer is left in the ring. */
  ghost predicate Stalled(s: State) {
    ParkedOk(s) && s.slots[s.start].Some?
  }

  /** The due buffer stays where it is, and nothing is pushed. */
  ghost predicate StillStalled(s: State, s': State)
    requires Stalled(s)
  {
    Stalled(s') && s'.out == s.out && s'.next == s.next && s'.slots[s'.start] == s.slots[s.start]
  }

  lemma StalledDeal(s: State, rb: Buffer)
    requires Stalled(s) && ApartFromParked(s, rb) && s.next <= rb.first
    ensures StillStalled(s, DealRecord(s, rb))
  {
    SlotOfNext(s);
    assert Apart(rb, s.slots[s.start].value);
    DealKeeps(s.(out := []), rb, s.next);
    if rb.first - s.next < RING_SIZE - 1 {
      SameSlot(s.next, rb.first);
      if rb.Last() - s.next < RING_SIZE - 1 {
        ParkKeeps(s, rb);
      }
    }
  }

  lemma StalledStep(y: System, e: Event, version: nat, m: multiset<Buffer>)
    requires SystemOk(y, version, m) && Family(m, version) && Stalled(y.state)
    ensures StillStalled(y.state, Step(y, e).state)
  {
    if e.Deal? && y.pending != [] {
      PendingIsNew(y, version, m);
      StalledDeal(y.state, y.pending[0]);
    }
  }

  /** A due buffer that is left in the ring stalls the producer for good: whatever
      arrives and however it is dealt with, nothing is pushed any more. */
  lemma {:induction false} StalledForGood(version: nat, events: seq<Event>, more: seq<Event>)
    requires Family(Received(events + more), version) && Stalled(Run(version, events).state)
    ensures StillStalled(Run(version, events).state, Run(version, events + more).state)
    decreases |more|
  {
    if more == [] {
      assert events + more == events;
    } else {
      var front, last := more[..|more| - 1], more[|more| - 1];
      assert (events + more)[..|events + more| - 1] == events + front;
      FamilyPrefix(Received(events + front), Received(events + more), version);
      StalledForGood(version, events, front);
      RunKeeps(version, events + front);
      StalledStep(Run(version, events + front), last, version, Received(events + front));
    }
  }

  /** One buffer arrives, is taken and dealt with. */
  function Feed(events: seq<Event>, rb: Buffer): seq<Event> {
    events + [Arrive(rb)] + [Take] + [Deal]
  }

  lemma RunMore(version: nat, events: seq<Event>, e: Event)
    ensures Run(version, events + [e]) == Step(Run(version, events), e)
  {
    assert (events + [e])[..|events + [e]| - 1] == events;
  }

  lemma FeedDeals(version: nat, events: seq<Event>, s: State, rb: Buffer)
    requires Run(version, events) == System(s, []) && s.queue == []
    ensures Shape(s) && Run(version, Feed(events, rb)) == System(DealRecord(s, rb), [])
  {
    RunMore(version, events, Arrive(rb));
    RunMore(version, events + [Arrive(rb)], Take);
    RunMore(version, events + [Arrive(rb)] + [Take], Deal);
    assert s.(queue := [rb]).(queue := []) == s;
  }

  const B1 := Buffer(4092, 0, 1)
  const B2 := Buffer(4094, 5, 2)
  const B3 := Buffer(4090, 0, 3)
  const B4 := Buffer(4091, 0, 4)
  const B5 := Buffer(4093, 0, 5)

  lemma TwoParked(s0: State, s2: State)
    requires s0 == Initial(4090) && s2 == s0.(slots := s0.slots[4092 := Some(B1)][4094 := Some(B2)], count := 2, end := 4093)
    ensures DealRecord(s0, B1).queue == [] && DealRecord(DealRecord(s0, B1), B2) == s2
  {
    assert Park(Park(s0, B1), B2) == s2;
  }

  lemma ThreePushed(s2: State, s3: State, s5: State)
    requires Shape(s2) && s2.next == 4090 && s2.start == 4090 && s2.end == 4093 && s2.queue == [] && s2.out == []
    requires s2.slots[4092] == Some(B1) && s2.slots[4094] == Some(B2) && s2.slots[4091].None? && s2.slots[4093].None?
    requires s3 == DealRecord(s2, B3) && s5 == DealRecord(s3, B4)
    ensures s3.queue == [] && s5.queue == []
    ensures s5.next == 4093 && s5.start == 4093 && s5.end == 4093 && s5.slots[4094] == Some(B2)
  {
    assert s3 == s2.(out := [B3], next := 4091, start := 4091);
    var s4 := Push(s3, B4).(start := 4092);
    assert PopSlot(s4).start == 4093 && PopSlot(s4).slots[4094] == Some(B2);
    assert Drain(s4) == Drain(PopSlot(s4)) == PopSlot(s4);
  }

  lemma StallsAfter(events: seq<Event>, s2: State)
    requires s2 == Initial(4090).(slots := Initial(4090).slots[4092 := Some(B1)][4094 := Some(B2)], count := 2, end := 4093)
    requires Run(4090, events) == System(s2, [])
    ensures var s := Run(4090, Feed(Feed(Feed(events, B3), B4), B5)).state; s.next == 4094 && s.slots[s.start] == Some(B2)
  {
    var s3 := DealRecord(s2, B3);
    var s5 := DealRecord(s3, B4);
    ThreePushed(s2, s3, s5);
    FeedThree(events, s2, s3, s5);
    LeftBehind(s5);
  }

  lemma FeedThree(events: seq<Event>, s2: State, s3: State, s5: State)
    requires Run(4090, events) == System(s2, []) && s2.queue == [] && Shape(s2)
    requires s3 == DealRecord(s2, B3) && s3.queue == [] && s5 == DealRecord(s3, B4) && s5.queue == []
    ensures Run(4090, Feed(Feed(Feed(events, B3), B4), B5)).state == DealRecord(s5, B5)
  {
    FeedDeals(4090, events, s2, B3);
    FeedDeals(4090, Feed(events, B3), s3, B4);
    FeedDeals(4090, Feed(Feed(events, B3), B4), s5, B5);
  }

  lemma LeftBehind(s5: State)
    requires Shape(s5) && s5.next == 4093 && s5.start == 4093 && s5.end == 4093 && s5.slots[4094] == Some(B2)
    ensures var s := DealRecord(s5, B5); s.next == 4094 && s.slots[s.start] == Some(B2)
  {
  }

  /** A concrete stall: after 4092, 4094..4099, 4090, 4091 and 4093 have arrived
      for a producer that starts at 4090, version 4094 stays in the ring. */
  lemma WrapStalls()
    ensures var s := Run(4090, Feed(Feed(Feed(Feed(Feed([], B1), B2), B3), B4), B5)).state;
      s.next == 4094 && s.slots[s.start] == Some(B2)
  {
    var s0 := Initial(4090);
    var s2 := s0.(slots := s0.slots[4092 := Some(B1)][4094 := Some(B2)], count := 2, end := 4093);
    TwoParked(s0, s2);
    FeedDeals(4090, [], s0, B1);
    FeedDeals(4090, Feed([], B1), DealRecord(s0, B1), B2);
    StallsAfter(Feed(Feed([], B1), B2), s2);
  }

  // --------------------------------------------------------- the producer

  class Producer {
    const ring: array<Option<Buffer>>
    var next: nat
    var start: nat
    var end: nat
    var count: int
    var queue: seq<Buffer>
    var out: seq<Buffer>
    var dropped: seq<Buffer>

    ghost predicate Valid()
      reads this
    {
      ring.Length == RING_SIZE && start < RING_SIZE && end < RING_SIZE
    }

    ghost function View(): State
      reads this, ring
    {
      State(next, ring[..], start, end, count, queue, out, dropped)
    }

    constructor (version: nat)
      ensures Valid() && fresh(ring) && View() == Initial(version)
    {
      ring := new Option<Buffer>[RING_SIZE](_ => None);
      next, start, end, count := version, version % RING_SIZE, version % RING_SIZE, 0;
      queue, out, dropped := [], [], [];
      new;
      assert ring[..] == seq(RING_SIZE, _ => None);
    }

    /** Reinsertion by walking the queue. */
    method RepushToQueue(rb: Buffer)
      modifies this`queue
      ensures queue == Repush(old(queue), rb)
    {
      if queue == [] {
        queue := [rb];
      } else if rb.first <= queue[0].first {
        queue := [rb] + queue;
      } else if rb.first > queue[|queue| - 1].Last() {
        queue := queue + [rb];
      } else {
        var i := 1;
        while i < |queue| && rb.first > queue[i].Last()
          invariant 1 <= i <= |queue|
          invariant RepushAt(queue, i, rb) == RepushAt(queue, 1, rb)
        {
          i := i + 1;
        }
        queue := queue[..i] + [rb] + queue[i..];
      }
    }

    method PushToConsumers(rb: Buffer)
      modifies this`out, this`next
      ensures View() == Push(old(View()), rb)
    {
      out := out + [rb];
      next := next + (rb.Last() - rb.first + 1);
    }

    method DrainRing()
      requires Valid()
      modifies this, ring
      ensures Valid() && View() == Drain(old(View()))
    {
      while start != end && ring[start].Some?
        invariant Valid() && Drain(View()) == Drain(old(View()))
        decreases |Parked(ring[..])|
      {
        PopHeld(View());
        var current := start;
        PushToConsumers(ring[current].value);
        ring[current] := None;
        start := next % RING_SIZE;
        count := count - 1;
      }
    }

    /** One record buffer: push it and what follows, park it, or put it back. */
    method DealWith(rb: Buffer)
      requires Valid()
      modifies this, ring
      ensures Valid() && View() == DealRecord(old(View()), rb)
    {
      var distance := rb.first - next;
      if distance >= RING_SIZE - 1 {
        RepushToQueue(rb);
        return;
      } else if distance < 0 {
        dropped := dropped + [rb];
        return;
      }
      var current := rb.first % RING_SIZE;
      if current == start {
        PushToConsumers(rb);
        if start == end {
          start, end := next % RING_SIZE, next % RING_SIZE;
          return;
        }
        start := next % RING_SIZE;
        DrainRing();
        return;
      }
      distance := rb.Last() - next;
      if distance >= RING_SIZE - 1 {
        RepushToQueue(rb);
        return;
      }
      ring[current] := Some(rb);
      count := count + 1;
      var expand: bool;
      if start == end {
        expand := true;
      } else if end > start {
        var last := rb.Last() % RING_SIZE;
        expand := !(current > start && last < end);
      } else {
        expand := current >= end && current < start;
      }
      if expand {
        end := (rb.Last() + 1) % RING_SIZE;
      }
    }
  }
}
