/**
 What the binlog producer gets done: a buffer that is due is pushed, and when
 nothing more arrives, taking and dealing with the queue again and again pushes
 everything up to the first version that no buffer brought.
 */
module BinlogProgress {
  import opened Wrappers
  import opened BinlogProducer

  // ------------------------------------------------------------------- one buffer

  /** More may have been pushed, nothing else has been done to what was. */
  ghost predicate Advances(s: State, s': State) {
    s.out <= s'.out && s.next <= s'.next
  }

  lemma {:induction false} DrainAdvances(s: State)
    requires Shape(s)
    ensures Advances(s, Drain(s)) && Drain(s).queue == s.queue && Drain(s).dropped == s.dropped
    decreases |Parked(s.slots)|
  {
    if s.start != s.end && s.slots[s.start].Some? {
      ParkedRemove(s.slots, s.start);
      DrainAdvances(PopSlot(s));
    }
  }

  /** A buffer that is due is pushed at once, and it stays out of the queue. */
  lemma DueIsPushed(s: State, rb: Buffer)
    requires ParkedOk(s) && ApartFromParked(s, rb) && rb.first == s.next
    ensures var s' := DealRecord(s, rb);
      s.out + [rb] <= s'.out && s'.next > rb.Last() && s'.queue == s.queue && s'.dropped == s.dropped
  {
    var s1 := Push(s, rb).(start := (rb.Last() + 1) % RING_SIZE);
    assert s1.next == rb.Last() + 1;
    DrainAdvances(s1);
  }

  /** A buffer that is not due yet pushes nothing: it is parked or goes back. */
  lemma EarlyWaits(s: State, rb: Buffer)
    requires ParkedOk(s) && s.next < rb.first
    ensures DealRecord(s, rb).out == s.out && DealRecord(s, rb).next == s.next
  {
    if rb.first - s.next < RING_SIZE - 1 {
      SameSlot(s.next, rb.first);
    }
  }

  ghost predicate InOrder(queue: seq<Buffer>) {
    forall i, j :: 0 <= i < j < |queue| ==> queue[i].Last() < queue[j].first
  }

  lemma {:induction false} RepushAtPlace(queue: seq<Buffer>, i: nat, rb: Buffer)
    requires InOrder(queue) && i <= |queue| && (forall b :: b in queue ==> Apart(b, rb))
    requires forall j :: 0 <= j < i ==> queue[j].Last() < rb.first
    ensures InOrder(RepushAt(queue, i, rb))
    decreases |queue| - i
  {
    if i < |queue| && rb.first > queue[i].Last() {
      RepushAtPlace(queue, i + 1, rb);
    } else if i < |queue| {
      assert queue[i] in queue;
      assert rb.Last() < queue[i].first;
      assert forall j :: i <= j < |queue| ==> rb.Last() < queue[j].first;
    }
  }

  /** Going back to a queue in version order keeps that order. */
  lemma RepushInOrder(queue: seq<Buffer>, rb: Buffer)
    requires InOrder(queue) && forall b :: b in queue ==> Apart(b, rb)
    ensures InOrder(Repush(queue, rb))
  {
    if queue != [] {
      assert queue[0] in queue && queue[|queue| - 1] in queue;
      if rb.first > queue[0].first && !(rb.first > queue[|queue| - 1].Last()) {
        RepushAtPlace(queue, 1, rb);
      }
    }
  }

  /** What becomes of a buffer, by its versions: one that is too far ahead goes
      back to its place in the queue, one whose first version is past is dropped, one that is due
      is pushed, and any other is parked in the slot of its first version. */
  lemma DealOutcome(s: State, rb: Buffer, s': State)
    requires ParkedOk(s) && ApartFromParked(s, rb) && s' == DealRecord(s, rb)
    ensures rb.first < s.next ==> s' == s.(dropped := s.dropped + [rb])
    ensures rb.first == s.next ==> s.out + [rb] <= s'.out && s'.next > rb.Last() && s'.queue == s.queue && s'.dropped == s.dropped
    ensures rb.first > s.next && rb.Last() - s.next >= RING_SIZE - 1 ==>
              && s'.(queue := s.queue) == s && multiset(s'.queue) == multiset(s.queue) + multiset{rb}
              && (InOrder(s.queue) && (forall b :: b in s.queue ==> Apart(b, rb)) ==> InOrder(s'.queue))
    ensures rb.first > s.next && rb.Last() - s.next < RING_SIZE - 1 ==>
              && s'.out == s.out && s'.next == s.next && s'.queue == s.queue && s'.dropped == s.dropped
              && s.slots[rb.first % RING_SIZE].None? && s'.slots == s.slots[rb.first % RING_SIZE := Some(rb)]
  {
    if rb.first == s.next {
      DueIsPushed(s, rb);
    } else if rb.first > s.next {
      RepushKeeps(s.queue, rb);
      if InOrder(s.queue) && forall b :: b in s.queue ==> Apart(b, rb) {
        RepushInOrder(s.queue, rb);
      }
      if rb.first - s.next < RING_SIZE - 1 {
        SameSlot(s.next, rb.first);
        FreeSlot(s, rb);
      }
    }
  }

  // ---------------------------------------------------------- the whole detached list

  ghost predicate Unwrapped(m: multiset<Buffer>) {
    forall b :: b in m ==> b.first % RING_SIZE <= b.Last() % RING_SIZE
  }

  /** The buffers of a run are apart, none is early, and none wraps. */
  ghost predicate Fine(version: nat, events: seq<Event>) {
    Family(Received(events), version) && Unwrapped(Received(events))
  }

  /** What one turn does to the first of the detached buffers. */
  ghost predicate Turn(y: System, y': System) {
    if y.pending == [] then y' == y
    else
      && y'.pending == y.pending[1..] && Advances(y.state, y'.state)
      && (y.pending[0].first == y.state.next ==> y.state.out + [y.pending[0]] <= y'.state.out)
      && (y.pending[0].first != y.state.next ==> y'.state.out == y.state.out && y'.state.next == y.state.next)
  }

  lemma TurnOf(version: nat, events: seq<Event>, y: System, y': System)
    requires Fine(version, events) && y == Run(version, events) && y' == Step(y, Deal)
    ensures Turn(y, y')
  {
    if y.pending != [] {
      var m := Received(events);
      RunKeeps(version, events);
      PendingIsNew(y, version, m);
      if y.pending[0].first == y.state.next {
        DueIsPushed(y.state, y.pending[0]);
      } else {
        EarlyWaits(y.state, y.pending[0]);
      }
    }
  }

  /** The events, and then n turns. */
  function Dealing(events: seq<Event>, n: nat): seq<Event> {
    if n == 0 then events else Dealing(events, n - 1) + [Deal]
  }

  lemma {:induction false} DealingFine(version: nat, events: seq<Event>, n: nat)
    requires Fine(version, events)
    ensures Fine(version, Dealing(events, n)) && Received(Dealing(events, n)) == Received(events)
  {
    if n > 0 {
      DealingFine(version, events, n - 1);
      var front := Dealing(events, n - 1);
      assert (front + [Deal])[..|front|] == front;
    }
  }

  lemma NextTurn(version: nat, events: seq<Event>, n: nat, y: System, y': System)
    requires Fine(version, events) && y == Run(version, Dealing(events, n)) && y' == Run(version, Dealing(events, n + 1))
    ensures Turn(y, y')
  {
    DealingFine(version, events, n);
    RunMore(version, Dealing(events, n), Deal);
    TurnOf(version, Dealing(events, n), y, y');
  }

  /** After n turns the detached list is that much shorter, and nothing that was
      pushed has been taken back. */
  ghost predicate AfterTurns(y: System, y': System, n: nat) {
    y'.pending == (if n <= |y.pending| then y.pending[n..] else []) && Advances(y.state, y'.state)
  }

  lemma OneMoreTurn(y: System, y1: System, y': System, n: nat)
    requires AfterTurns(y, y1, n) && Turn(y1, y')
    ensures AfterTurns(y, y', n + 1)
  {
    if n < |y.pending| {
      assert y.pending[n..][1..] == y.pending[n + 1..];
    }
  }

  lemma {:induction false} TurnsAdvance(ys: seq<System>, n: nat)
    requires n < |ys| && forall i {:trigger Turn(ys[i], ys[i + 1])} :: 0 <= i < |ys| - 1 ==> Turn(ys[i], ys[i + 1])
    ensures AfterTurns(ys[0], ys[n], n)
    decreases n
  {
    if n > 0 {
      TurnsAdvance(ys, n - 1);
      var i := n - 1;
      assert Turn(ys[i], ys[i + 1]);
      OneMoreTurn(ys[0], ys[i], ys[n], i);
    }
  }

  /** The states from turn to turn. */
  ghost predicate StatesOf(version: nat, events: seq<Event>, ys: seq<System>) {
    forall i {:trigger ys[i]} :: 0 <= i < |ys| ==> ys[i] == Run(version, Dealing(events, i))
  }

  lemma TurnAt(version: nat, events: seq<Event>, ys: seq<System>, i: nat)
    requires Fine(version, events) && StatesOf(version, events, ys) && i + 1 < |ys|
    ensures Turn(ys[i], ys[i + 1])
  {
    NextTurn(version, events, i, ys[i], ys[i + 1]);
  }

  lemma DealingTurns(version: nat, events: seq<Event>, ys: seq<System>)
    requires Fine(version, events) && StatesOf(version, events, ys)
    ensures forall i {:trigger Turn(ys[i], ys[i + 1])} :: 0 <= i < |ys| - 1 ==> Turn(ys[i], ys[i + 1])
  {
    forall i {:trigger Turn(ys[i], ys[i + 1])} | 0 <= i < |ys| - 1 {
      TurnAt(version, events, ys, i);
    }
  }

  lemma DealingAdvances(version: nat, events: seq<Event>, n: nat, y: System, y': System)
    requires Fine(version, events) && y == Run(version, events) && y' == Run(version, Dealing(events, n))
    ensures AfterTurns(y, y', n)
  {
    var ys := seq(n + 1, i requires 0 <= i <= n => Run(version, Dealing(events, i)));
    DealingTurns(version, events, ys);
    TurnsAdvance(ys, n);
    assert ys[0] == y && ys[n] == y';
  }

  lemma OnlyOneDue(y: System, version: nat, m: multiset<Buffer>, b: Buffer)
    requires multiset(y.pending) <= m && Family(m, version) && b in y.pending && b.first == y.state.next
    ensures y.pending[0] == b || y.pending[0].first != y.state.next
  {
    assert b in multiset(y.pending) && y.pending[0] in multiset(y.pending);
  }

  lemma OneIsDue(version: nat, events: seq<Event>, y: System, b: Buffer)
    requires Fine(version, events) && y == Run(version, events) && b in y.pending && b.first == y.state.next
    ensures y.pending[0] == b || y.pending[0].first != y.state.next
  {
    RunKeeps(version, events);
    OnlyOneDue(y, version, Received(events), b);
  }

  /** The due buffer is still due. */
  ghost predicate StillDue(y: System, y': System, b: Buffer) {
    b in y'.pending && b.first == y'.state.next && y'.state.out == y.state.out
  }

  ghost predicate Pushed(y: System, y': System, b: Buffer) {
    y.state.out + [b] <= y'.state.out
  }

  lemma DueTurn(y: System, y1: System, y': System, b: Buffer)
    requires Turn(y1, y') && (StillDue(y, y1, b) || Pushed(y, y1, b))
    requires StillDue(y, y1, b) ==> y1.pending[0] == b || y1.pending[0].first != y1.state.next
    ensures StillDue(y, y', b) || Pushed(y, y', b)
  {
  }

  lemma {:induction false} TurnsPush(ys: seq<System>, b: Buffer, n: nat)
    requires n < |ys| && StillDue(ys[0], ys[0], b) && forall i {:trigger Turn(ys[i], ys[i + 1])} :: 0 <= i < |ys| - 1 ==> Turn(ys[i], ys[i + 1])
    requires forall i :: 0 <= i < |ys| && StillDue(ys[0], ys[i], b) ==> ys[i].pending[0] == b || ys[i].pending[0].first != ys[i].state.next
    ensures StillDue(ys[0], ys[n], b) || Pushed(ys[0], ys[n], b)
    decreases n
  {
    if n > 0 {
      TurnsPush(ys, b, n - 1);
      var i := n - 1;
      assert Turn(ys[i], ys[i + 1]);
      DueTurn(ys[0], ys[i], ys[n], b);
    }
  }

  /** Among the detached buffers, the one that is due is pushed when its turn
      comes. */
  lemma DueGetsPushed(version: nat, events: seq<Event>, n: nat, b: Buffer, y: System, y': System)
    requires Fine(version, events) && y == Run(version, events) && y' == Run(version, Dealing(events, n))
    requires b in y.pending && b.first == y.state.next
    ensures StillDue(y, y', b) || Pushed(y, y', b)
  {
    var ys := seq(n + 1, i requires 0 <= i <= n => Run(version, Dealing(events, i)));
    DealingTurns(version, events, ys);
    assert ys[0] == y && ys[n] == y';
    forall i | 0 <= i < |ys| && StillDue(ys[0], ys[i], b)
      ensures ys[i].pending[0] == b || ys[i].pending[0].first != ys[i].state.next
    {
      DealingFine(version, events, i);
      OneIsDue(version, Dealing(events, i), ys[i], b);
    }
    TurnsPush(ys, b, n);
  }

  // ------------------------------------------------------------------ round after round

  ghost predicate Covered(m: multiset<Buffer>, v: nat) {
    exists b :: b in m && b.first <= v <= b.Last()
  }

  /** Version v is the first from the starting one on that no buffer brought. */
  ghost predicate FirstGap(m: multiset<Buffer>, version: nat, v: nat) {
    version <= v && !Covered(m, v) && forall u :: version <= u < v ==> Covered(m, u)
  }

  lemma {:induction false} OutCovers(out: seq<Buffer>, version: nat, next: nat, m: multiset<Buffer>, v: nat)
    requires Consecutive(out, version, next) && (forall b :: b in out ==> b in m) && version <= v < next
    ensures Covered(m, v)
  {
    if out != [] {
      var b := out[|out| - 1];
      assert b in out;
      if v < b.first {
        OutCovers(out[..|out| - 1], version, b.first, m, v);
      }
    }
  }

  lemma {:induction false} OutIsBelow(out: seq<Buffer>, version: nat, next: nat, b: Buffer)
    requires Consecutive(out, version, next) && b in out
    ensures version <= next && b.Last() < next
  {
    var c := out[|out| - 1];
    var front := out[..|out| - 1];
    if b != c {
      assert b in front;
      OutIsBelow(front, version, c.first, b);
    } else if front != [] {
      OutIsBelow(front, version, c.first, front[|front| - 1]);
    }
  }

  /** Whoever brought the due version has been received and not pushed; it waits
      in the queue, in the detached list or in the ring, where it is due. */
  lemma DueIsSomewhere(y: System, version: nat, m: multiset<Buffer>, b: Buffer)
    requires SystemOk(y, version, m) && Family(m, version) && b in m && b.first <= y.state.next <= b.Last()
    ensures b.first == y.state.next && (b in y.pending || b in y.state.queue || y.state.slots[y.state.start] == Some(b))
  {
    var s := y.state;
    if b in s.out {
      OutIsBelow(s.out, version, s.next, b);
      assert false;
    }
    forall c | c in s.out
      ensures Apart(c, b)
    {
      assert c in multiset(s.out) && c in m;
    }
    NotYetPushed(s.out, version, s.next, b);
    if b !in y.pending && b !in s.queue {
      assert b in Parked(s.slots);
      ParkedMembers(s.slots, b);
      var i :| 0 <= i < |s.slots| && s.slots[i] == Some(b);
    }
  }

  lemma GapUnlessDue(y: System, version: nat, m: multiset<Buffer>)
    requires SystemOk(y, version, m)
    ensures version <= y.state.next && (forall u :: version <= u < y.state.next ==> Covered(m, u))
  {
    var s := y.state;
    forall b | b in s.out
      ensures b in m
    {
      assert b in multiset(s.out);
    }
    if s.out != [] {
      OutIsBelow(s.out, version, s.next, s.out[0]);
    }
    forall u | version <= u < s.next
      ensures Covered(m, u)
    {
      OutCovers(s.out, version, s.next, m, u);
    }
  }

  /** With nothing queued or detached, the producer has come to the first version
      that no buffer brought, if and only if no due buffer is stuck in the ring. */
  lemma NextIsFirstGap(version: nat, events: seq<Event>)
    requires Family(Received(events), version)
    requires Run(version, events).state.queue == [] && Run(version, events).pending == []
    ensures FirstGap(Received(events), version, Run(version, events).state.next) <==> !Stalled(Run(version, events).state)
  {
    RunKeeps(version, events);
    var y, m := Run(version, events), Received(events);
    GapUnlessDue(y, version, m);
    if Stalled(y.state) {
      var b := y.state.slots[y.state.start].value;
      SlotOfNext(y.state);
      ParkedMembers(y.state.slots, b);
      assert b in m;
    } else if Covered(m, y.state.next) {
      var b :| b in m && b.first <= y.state.next <= b.Last();
      DueIsSomewhere(y, version, m, b);
    }
  }

  /** The events, and then n times: the queue is detached and k turns are taken. */
  function Rounds(events: seq<Event>, k: nat, n: nat): seq<Event> {
    if n == 0 then events else Dealing(Rounds(events, k, n - 1) + [Take], k)
  }

  lemma TakeFine(version: nat, events: seq<Event>)
    requires Fine(version, events)
    ensures Fine(version, events + [Take]) && Received(events + [Take]) == Received(events)
  {
    assert (events + [Take])[..|events|] == events;
  }

  lemma {:induction false} RoundsFine(version: nat, events: seq<Event>, k: nat, n: nat)
    requires Fine(version, events)
    ensures Fine(version, Rounds(events, k, n)) && Received(Rounds(events, k, n)) == Received(events)
    decreases n
  {
    if n > 0 {
      RoundsFine(version, events, k, n - 1);
      TakeFine(version, Rounds(events, k, n - 1));
      DealingFine(version, Rounds(events, k, n - 1) + [Take], k);
    }
  }

  lemma TakeIs(version: nat, events: seq<Event>, y: System, y1: System)
    requires y == Run(version, events) && y1 == Run(version, events + [Take]) && y.pending == []
    ensures y1 == System(y.state.(queue := []), y.state.queue)
  {
    RunMore(version, events, Take);
  }

  lemma QueueFits(version: nat, events: seq<Event>, y: System)
    requires Fine(version, events) && y == Run(version, events)
    ensures |y.state.queue| <= |Received(events)| && |y.state.out| <= |Received(events)| && |y.pending| <= |Received(events)|
  {
    var s, m := y.state, Received(events);
    RunKeeps(version, events);
    assert m == multiset(s.out) + Parked(s.slots) + multiset(s.queue) + multiset(s.dropped) + multiset(y.pending);
    assert |multiset(s.out)| == |s.out| && |multiset(s.queue)| == |s.queue| && |multiset(y.pending)| == |y.pending|;
    assert |m| == |multiset(s.out)| + |Parked(s.slots)| + |multiset(s.queue)| + |multiset(s.dropped)| + |multiset(y.pending)|;
  }

  /** A round leaves nothing detached, and pushes something if the due version has
      been brought. */
  lemma RoundPushes(version: nat, events: seq<Event>, k: nat, y: System, y': System)
    requires Fine(version, events) && |Received(events)| <= k
    requires y == Run(version, events) && y' == Run(version, Dealing(events + [Take], k)) && y.pending == []
    ensures y'.pending == [] && y.state.next <= y'.state.next && |y.state.out| <= |y'.state.out|
    ensures Covered(Received(events), y.state.next) ==> |y.state.out| < |y'.state.out|
  {
    var m, y1 := Received(events), Run(version, events + [Take]);
    TakeFine(version, events);
    TakeIs(version, events, y, y1);
    QueueFits(version, events, y);
    DealingAdvances(version, events + [Take], k, y1, y');
    if Covered(m, y.state.next) {
      var b :| b in m && b.first <= y.state.next <= b.Last();
      RunKeeps(version, events);
      ProducerComplete(version, events);
      DueIsSomewhere(y, version, m, b);
      DueGetsPushed(version, events + [Take], k, b, y1, y');
    }
  }

  lemma NeverPastGap(version: nat, events: seq<Event>, events': seq<Event>, v: nat)
    requires Fine(version, events') && Received(events') == Received(events)
    requires version <= v < Run(version, events').state.next
    ensures Covered(Received(events), v)
  {
    RunKeeps(version, events');
    GapUnlessDue(Run(version, events'), version, Received(events'));
  }

  /** What a round does, as long as the due version has been brought. */
  ghost predicate Rounded(m: multiset<Buffer>, y: System, y': System) {
    y.pending == [] ==>
      && y'.pending == []
      && (Covered(m, y'.state.next) ==> Covered(m, y.state.next) && |y.state.out| < |y'.state.out|)
  }

  lemma NextRound(version: nat, events: seq<Event>, k: nat, n: nat, y: System, y': System)
    requires Fine(version, events) && |Received(events)| <= k
    requires y == Run(version, Rounds(events, k, n)) && y' == Run(version, Rounds(events, k, n + 1))
    ensures Rounded(Received(events), y, y')
  {
    if y.pending == [] {
      var front := Rounds(events, k, n);
      RoundsFine(version, events, k, n);
      RoundsFine(version, events, k, n + 1);
      RoundPushes(version, front, k, y, y');
      if y.state.next < y'.state.next {
        RunKeeps(version, front);
        GapUnlessDue(y, version, Received(events));
        NeverPastGap(version, events, Rounds(events, k, n + 1), y.state.next);
      }
    }
  }

  /** Every round pushes more until the due version has not been brought. */
  lemma {:induction false} RoundsPush(m: multiset<Buffer>, ys: seq<System>, n: nat)
    requires n < |ys| && ys[0].pending == []
    requires forall i {:trigger Rounded(m, ys[i], ys[i + 1])} :: 0 <= i < |ys| - 1 ==> Rounded(m, ys[i], ys[i + 1])
    ensures ys[n].pending == [] && (Covered(m, ys[n].state.next) ==> |ys[n].state.out| >= n)
    decreases n
  {
    if n > 0 {
      RoundsPush(m, ys, n - 1);
      var i := n - 1;
      assert Rounded(m, ys[i], ys[i + 1]);
    }
  }

  lemma RoundsFill(version: nat, events: seq<Event>, k: nat)
    requires Fine(version, events) && k == |Received(events)| && Run(version, events).pending == []
    ensures FirstGap(Received(events), version, Run(version, Rounds(events, k, k + 1)).state.next)
  {
    var m, more := Received(events), Rounds(events, k, k + 1);
    var ys := seq(k + 2, i requires 0 <= i <= k + 1 => Run(version, Rounds(events, k, i)));
    forall i {:trigger Rounded(m, ys[i], ys[i + 1])} | 0 <= i < k + 1
      ensures Rounded(m, ys[i], ys[i + 1])
    {
      NextRound(version, events, k, i, ys[i], ys[i + 1]);
    }
    RoundsPush(m, ys, k + 1);
    RoundsFine(version, events, k, k + 1);
    QueueFits(version, more, ys[k + 1]);
    RunKeeps(version, more);
    GapUnlessDue(ys[k + 1], version, m);
  }

  /** Whatever arrived, in whatever order and however far the producer is: once
      nothing more arrives, dealing with the rest of the detached list and then
      with the queue, once more than there are buffers at most, pushes everything
      up to the first version that no buffer brought. */
  lemma EverythingDueIsPushed(version: nat, events: seq<Event>, k: nat)
    requires Fine(version, events) && k == |Received(events)|
    ensures FirstGap(Received(events), version, Run(version, Rounds(Dealing(events, k), k, k + 1)).state.next)
  {
    var dealt := Dealing(events, k);
    DealingFine(version, events, k);
    QueueFits(version, events, Run(version, events));
    DealingAdvances(version, events, k, Run(version, events), Run(version, dealt));
    RoundsFill(version, dealt, k);
  }
}
