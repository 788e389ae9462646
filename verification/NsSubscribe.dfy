/**
 Namespace-change subscription: updaters change a namespace's used bytes and
 then notify the subscriber; the subscriber's own thread moves notified
 namespaces from the holding queue to the sending queue and sends them.

 Two flags per namespace tell whether it is in either queue. They are tested
 and set atomically, but an updater and the subscriber interleave freely
 between any two atomic actions, so each atomic action is one event here.
 */
module NsSubscribe {

  /** What the subscriber's thread is doing. */
  datatype Pc =
    | Idle
    | Moving(todo: seq<nat>, chain: seq<nat>, marked: bool)  // holding to sending
    | Sending(batch: seq<nat>, copied: bool)                 // filling a response

  datatype State = State(
    used: seq<int>,           // used bytes of each namespace
    sent: seq<int>,           // last value sent, initially 0
    pending: multiset<nat>,   // updates whose notification has not started
    pushing: set<nat>,        // flagged by an updater, not yet in the queue
    holdFlag: set<nat>,
    sendFlag: set<nat>,
    holding: seq<nat>,
    sending: seq<nat>,
    pc: Pc)

  datatype Event =
    | Update(ns: nat, inc: int)  // used bytes change
    | Notify(ns: nat)            // test-and-set of the holding flag
    | Enqueue(ns: nat)           // the flagged entry reaches the holding queue
    | Fetch                      // a fetch request starts
    | Mark                       // test-and-set of the sending flag
    | Unhold                     // the holding flag is cleared
    | Append                     // the collected chain reaches the sending queue
    | Copy                       // used bytes are copied into the response
    | Unsend                     // the sending flag is cleared
    | Finish                     // the response is full or complete

  /** A subscriber that has just registered: everything is still to be notified. */
  function Initial(used: seq<int>): State {
    State(used, seq(|used|, _ => 0), multiset(seq(|used|, x => x)), {}, {}, {}, [], [], Idle)
  }

  function Step(s: State, e: Event): State
    requires |s.sent| == |s.used|
  {
    match e
    case Update(x, inc) =>
      if x < |s.used| then s.(used := s.used[x := s.used[x] + inc], pending := s.pending + multiset{x}) else s
    case Notify(x) =>
      if x !in s.pending then s
      else if x in s.holdFlag then s.(pending := s.pending - multiset{x})
      else s.(pending := s.pending - multiset{x}, holdFlag := s.holdFlag + {x}, pushing := s.pushing + {x})
    case Enqueue(x) =>
      if x in s.pushing then s.(pushing := s.pushing - {x}, holding := s.holding + [x]) else s
    case Fetch =>
      if !s.pc.Idle? then s
      else if s.sending == [] then s.(holding := [], pc := Moving(s.holding, [], false))
      else s.(sending := [], pc := Sending(s.sending, false))
    case Mark =>
      if s.pc.Moving? && s.pc.todo != [] && !s.pc.marked then
        var x := s.pc.todo[0];
        if x in s.sendFlag then s.(pc := s.pc.(marked := true))
        else s.(sendFlag := s.sendFlag + {x}, pc := s.pc.(chain := s.pc.chain + [x], marked := true))
      else s
    case Unhold =>
      if s.pc.Moving? && s.pc.todo != [] && s.pc.marked then
        s.(holdFlag := s.holdFlag - {s.pc.todo[0]}, pc := Moving(s.pc.todo[1..], s.pc.chain, false))
      else s
    case Append =>
      if s.pc.Moving? && s.pc.todo == [] then
        s.(sending := [], pc := Sending(s.sending + s.pc.chain, false))
      else s
    case Copy =>
      if s.pc.Sending? && s.pc.batch != [] && !s.pc.copied && s.pc.batch[0] < |s.used| then
        var x := s.pc.batch[0];
        s.(sent := s.sent[x := s.used[x]], pc := s.pc.(copied := true))
      else s
    case Unsend =>
      if s.pc.Sending? && s.pc.batch != [] && s.pc.copied then
        s.(sendFlag := s.sendFlag - {s.pc.batch[0]}, pc := Sending(s.pc.batch[1..], false))
      else s
    case Finish =>
      if s.pc.Sending? && !s.pc.copied then s.(sending := s.pc.batch + s.sending, pc := Idle) else s
  }

  function Run(used: seq<int>, events: seq<Event>): (s: State)
    ensures |s.sent| == |s.used| == |used|
    decreases |events|
  {
    if events == [] then Initial(used) else Step(Run(used, events[..|events| - 1]), events[|events| - 1])
  }

  // -------------------------------------------------------------- invariant

  function Todo(pc: Pc): seq<nat> {
    if pc.Moving? then pc.todo else []
  }

  function InTransit(pc: Pc): seq<nat> {
    match pc
    case Idle => []
    case Moving(_, chain, _) => chain
    case Sending(batch, _) => batch
  }

  /** A flag is set exactly for the entries that are somewhere in that queue's
      care, and each of those is there once. */
  ghost predicate HoldMatches(s: State) {
    multiset(s.holding) + multiset(s.pushing) + multiset(Todo(s.pc)) == multiset(s.holdFlag)
  }

  ghost predicate SendMatches(s: State) {
    multiset(s.sending) + multiset(InTransit(s.pc)) == multiset(s.sendFlag)
  }

  ghost predicate PcOk(s: State) {
    && (s.pc.Moving? && s.pc.marked ==> s.pc.todo != [] && s.pc.todo[0] in s.sendFlag)
    && (s.pc.Sending? && s.pc.copied ==> s.pc.batch != [])
  }

  ghost predicate FlagsMatch(s: State) {
    HoldMatches(s) && SendMatches(s) && PcOk(s)
  }

  ghost predicate Fresh(s: State, x: nat)
    requires x < |s.used| && |s.sent| == |s.used|
  {
    s.used[x] == s.sent[x] || x in s.pending || x in s.holdFlag
  }

  ghost predicate Tracked(s: State, x: nat)
    requires x < |s.used| && |s.sent| == |s.used|
  {
    || Fresh(s, x)
    || (x in s.sendFlag && !(s.pc.Sending? && s.pc.copied && s.pc.batch != [] && s.pc.batch[0] == x))
  }

  ghost predicate Bounded(s: State) {
    && |s.sent| == |s.used|
    && (forall x :: x in s.pending || x in s.holdFlag || x in s.sendFlag ==> x < |s.used|)
  }

  ghost predicate Inv(s: State) {
    && Bounded(s)
    && FlagsMatch(s)
    && (forall x :: 0 <= x < |s.used| ==> Tracked(s, x))
  }

  lemma SetFlag(flag: set<nat>, x: nat)
    requires x !in flag
    ensures multiset(flag + {x}) == multiset(flag) + multiset{x}
  {
  }

  lemma ClearFlag(flag: set<nat>, x: nat)
    requires x in flag
    ensures multiset(flag - {x}) == multiset(flag) - multiset{x}
  {
  }

  lemma HeadIsFlagged(q: seq<nat>, rest: multiset<nat>, flag: set<nat>)
    requires q != [] && multiset(q) + rest == multiset(flag)
    ensures q[0] in flag && q[0] !in q[1..] && q[0] !in rest
    ensures multiset(q[1..]) + rest == multiset(flag - {q[0]})
  {
    assert q == [q[0]] + q[1..];
    assert multiset(q) == multiset{q[0]} + multiset(q[1..]);
    assert q[0] in multiset(flag) && multiset(flag)[q[0]] == 1;
    ClearFlag(flag, q[0]);
    assert multiset(q[1..]) + rest == multiset(flag) - multiset{q[0]};
  }

  lemma PushingIsFlagged(s: State)
    requires HoldMatches(s)
    ensures s.pushing <= s.holdFlag
  {
    forall x | x in s.pushing
      ensures x in s.holdFlag
    {
      assert x in multiset(s.pushing);
      assert x in multiset(s.holdFlag);
    }
  }

  lemma NotifyKeepsHold(s: State, x: nat)
    requires HoldMatches(s) && x !in s.holdFlag
    ensures HoldMatches(s.(holdFlag := s.holdFlag + {x}, pushing := s.pushing + {x}))
  {
    SetFlag(s.holdFlag, x);
    PushingIsFlagged(s);
    SetFlag(s.pushing, x);
  }

  lemma EnqueueKeepsHold(s: State, x: nat)
    requires HoldMatches(s) && x in s.pushing
    ensures HoldMatches(s.(pushing := s.pushing - {x}, holding := s.holding + [x]))
  {
    ClearFlag(s.pushing, x);
    assert multiset(s.holding + [x]) == multiset(s.holding) + multiset{x};
  }

  lemma UnholdKeepsHold(s: State)
    requires HoldMatches(s) && |s.sent| == |s.used|
    ensures HoldMatches(Step(s, Unhold))
  {
    if s.pc.Moving? && s.pc.todo != [] {
      HeadIsFlagged(s.pc.todo, multiset(s.holding) + multiset(s.pushing), s.holdFlag);
    }
  }

  lemma OthersKeepHold(s: State, e: Event)
    requires HoldMatches(s) && |s.sent| == |s.used| && !e.Notify? && !e.Enqueue? && !e.Unhold?
    ensures HoldMatches(Step(s, e))
  {
  }

  lemma StepKeepsHold(s: State, e: Event)
    requires HoldMatches(s) && |s.sent| == |s.used|
    ensures HoldMatches(Step(s, e))
  {
    match e {
      case Notify(x) =>
        if x !in s.holdFlag {
          NotifyKeepsHold(s, x);
        }
      case Enqueue(x) =>
        if x in s.pushing {
          EnqueueKeepsHold(s, x);
        }
      case Unhold => UnholdKeepsHold(s);
      case _ => OthersKeepHold(s, e);
    }
  }

  lemma MarkKeepsSend(s: State)
    requires SendMatches(s) && |s.sent| == |s.used|
    ensures SendMatches(Step(s, Mark))
  {
    if s.pc.Moving? && s.pc.todo != [] && s.pc.todo[0] !in s.sendFlag {
      SetFlag(s.sendFlag, s.pc.todo[0]);
    }
  }

  lemma UnsendKeepsSend(s: State)
    requires SendMatches(s) && |s.sent| == |s.used|
    ensures SendMatches(Step(s, Unsend))
  {
    if s.pc.Sending? && s.pc.batch != [] {
      HeadIsFlagged(s.pc.batch, multiset(s.sending), s.sendFlag);
    }
  }

  lemma OthersKeepSend(s: State, e: Event)
    requires SendMatches(s) && |s.sent| == |s.used| && !e.Mark? && !e.Unsend?
    ensures SendMatches(Step(s, e))
  {
  }

  lemma StepKeepsSend(s: State, e: Event)
    requires SendMatches(s) && |s.sent| == |s.used|
    ensures SendMatches(Step(s, e))
  {
    match e {
      case Mark => MarkKeepsSend(s);
      case Unsend => UnsendKeepsSend(s);
      case _ => OthersKeepSend(s, e);
    }
  }

  lemma StepKeepsFlags(s: State, e: Event)
    requires FlagsMatch(s) && |s.sent| == |s.used|
    ensures FlagsMatch(Step(s, e))
  {
    StepKeepsHold(s, e);
    StepKeepsSend(s, e);
    assert PcOk(Step(s, e));
  }

  lemma StepKeepsBounds(s: State, e: Event)
    requires Bounded(s) && FlagsMatch(s)
    ensures Bounded(Step(s, e))
  {
    if e.Mark? && s.pc.Moving? && s.pc.todo != [] {
      HeadIsFlagged(s.pc.todo, multiset(s.holding) + multiset(s.pushing), s.holdFlag);
    }
  }

  /** Copying the current value makes the head of the batch current; clearing
      its flag afterwards is safe because a later update notifies again. */
  lemma SendKeepsTracked(s: State, e: Event, x: nat)
    requires Bounded(s) && SendMatches(s) && x < |s.used| && Tracked(s, x)
    requires e.Copy? || e.Unsend?
    ensures |Step(s, e).used| == |s.used| == |Step(s, e).sent| && Tracked(Step(s, e), x)
  {
    if s.pc.Sending? && s.pc.batch != [] {
      HeadIsFlagged(s.pc.batch, multiset(s.sending), s.sendFlag);
    }
  }

  lemma MoveKeepsTracked(s: State, e: Event, x: nat)
    requires Bounded(s) && PcOk(s) && x < |s.used| && Tracked(s, x)
    requires e.Fetch? || e.Mark? || e.Unhold? || e.Append? || e.Finish?
    ensures |Step(s, e).used| == |s.used| == |Step(s, e).sent| && Tracked(Step(s, e), x)
  {
  }

  lemma UpdaterKeepsTracked(s: State, e: Event, x: nat)
    requires Bounded(s) && x < |s.used| && Tracked(s, x)
    requires e.Update? || e.Notify? || e.Enqueue?
    ensures |Step(s, e).used| == |s.used| == |Step(s, e).sent| && Tracked(Step(s, e), x)
  {
  }

  lemma StepKeepsTracked(s: State, e: Event, x: nat)
    requires Inv(s) && x < |s.used|
    ensures |Step(s, e).used| == |s.used| == |Step(s, e).sent| && Tracked(Step(s, e), x)
  {
    assert Tracked(s, x);
    if e.Copy? || e.Unsend? {
      SendKeepsTracked(s, e, x);
    } else if e.Update? || e.Notify? || e.Enqueue? {
      UpdaterKeepsTracked(s, e, x);
    } else {
      MoveKeepsTracked(s, e, x);
    }
  }

  lemma StepKeepsInv(s: State, e: Event)
    requires Inv(s)
    ensures Inv(Step(s, e))
  {
    StepKeepsFlags(s, e);
    StepKeepsBounds(s, e);
    forall x | 0 <= x < |Step(s, e).used|
      ensures Tracked(Step(s, e), x)
    {
      StepKeepsTracked(s, e, x);
    }
  }

  lemma {:induction false} RunKeepsInv(used: seq<int>, events: seq<Event>)
    ensures Inv(Run(used, events))
    decreases |events|
  {
    if events == [] {
      var s := Initial(used);
      forall x | 0 <= x < |used|
        ensures x in s.pending
      {
        assert seq(|used|, i => i)[x] == x;
      }
      assert forall x :: x in s.pending ==> x in seq(|used|, i => i);
    } else {
      RunKeepsInv(used, events[..|events| - 1]);
      StepKeepsInv(Run(used, events[..|events| - 1]), events[|events| - 1]);
    }
  }

  /** A namespace whose used bytes differ from the last value sent still has a
      notification to come, is on its way into the holding queue, is in one of the
      queues, or is in transit. */
  ghost predicate StillToSend(s: State, x: nat) {
    x in s.pending || x in s.pushing || x in s.holding || x in s.sending || x in Todo(s.pc) || x in InTransit(s.pc)
  }

  lemma TrackedIsQueued(s: State, x: nat)
    requires Inv(s) && x < |s.used| && s.used[x] != s.sent[x]
    ensures StillToSend(s, x)
  {
    assert Tracked(s, x);
    if x in s.holdFlag {
      assert x in multiset(s.holdFlag);
      assert x in multiset(s.holding) || x in multiset(s.pushing) || x in multiset(Todo(s.pc));
    } else if x in s.sendFlag {
      assert x in multiset(s.sendFlag);
      assert x in multiset(s.sending) || x in multiset(InTransit(s.pc));
    }
  }

  /** No lost update: so it is in every interleaving. */
  lemma NoLostUpdate(used: seq<int>, events: seq<Event>, x: nat)
    requires x < |used|
    ensures var s := Run(used, events);
      s.used[x] != s.sent[x] ==>
        x in s.pending || x in s.pushing || x in s.holding || x in s.sending || x in Todo(s.pc) || x in InTransit(s.pc)
  {
    RunKeepsInv(used, events);
    if Run(used, events).used[x] != Run(used, events).sent[x] {
      TrackedIsQueued(Run(used, events), x);
    }
  }

  /** Once nothing is left to notify, move or send, the subscriber has the
      current value of every namespace. */
  lemma QuiescentIsCurrent(used: seq<int>, events: seq<Event>)
    requires var s := Run(used, events);
      s.pending == multiset{} && s.pushing == {} && s.holding == [] && s.sending == [] && s.pc == Idle
    ensures Run(used, events).sent == Run(used, events).used
  {
    forall x | 0 <= x < |used|
      ensures Run(used, events).used[x] == Run(used, events).sent[x]
    {
      NoLostUpdate(used, events, x);
    }
  }

  /** No namespace is ever twice in the queues: a response is never padded with
      stale copies of the same namespace. */
  lemma NoDuplicateEntries(used: seq<int>, events: seq<Event>, x: nat)
    ensures var s := Run(used, events);
      && multiset(s.holding)[x] <= 1 && multiset(s.sending)[x] <= 1
      && (x in s.sending ==> x !in InTransit(s.pc))
  {
    RunKeepsInv(used, events);
    var s := Run(used, events);
    assert multiset(s.holdFlag)[x] <= 1 && multiset(s.sendFlag)[x] <= 1;
    assert multiset(s.sending)[x] + multiset(InTransit(s.pc))[x] == multiset(s.sendFlag)[x];
    assert multiset(s.holding)[x] + multiset(s.pushing)[x] + multiset(Todo(s.pc))[x] == multiset(s.holdFlag)[x];
  }

  // ---------------------------------------------- the subscriber's own thread

  function RunFrom(s: State, events: seq<Event>): (s': State)
    requires |s.sent| == |s.used|
    ensures |s'.sent| == |s'.used| == |s.used|
    decreases |events|
  {
    if events == [] then s else Step(RunFrom(s, events[..|events| - 1]), events[|events| - 1])
  }

  lemma RunOneMore(s: State, events: seq<Event>, e: Event)
    requires |s.sent| == |s.used|
    ensures RunFrom(s, events + [e]) == Step(RunFrom(s, events), e)
  {
    assert (events + [e])[..|events|] == events;
  }

  lemma {:induction false} RunOn(s: State, events: seq<Event>, more: seq<Event>)
    requires |s.sent| == |s.used|
    ensures RunFrom(s, events + more) == RunFrom(RunFrom(s, events), more)
    decreases |more|
  {
    if more == [] {
      assert events + more == events;
    } else {
      var n := |more| - 1;
      RunOn(s, events, more[..n]);
      assert (events + more)[..|events + more| - 1] == events + more[..n];
    }
  }

  lemma {:induction false} RunFromKeepsInv(s: State, events: seq<Event>)
    requires Inv(s)
    ensures Inv(RunFrom(s, events))
    decreases |events|
  {
    if events != [] {
      RunFromKeepsInv(s, events[..|events| - 1]);
      StepKeepsInv(RunFrom(s, events[..|events| - 1]), events[|events| - 1]);
    }
  }

  /** Steps of the subscriber's thread, not of an updater. */
  predicate Own(e: Event) {
    !e.Update? && !e.Notify? && !e.Enqueue?
  }

  ghost predicate AllOwn(events: seq<Event>) {
    forall i :: 0 <= i < |events| ==> Own(events[i])
  }

  /** The entries of q that are not flagged yet, in order. */
  function Unflagged(q: seq<nat>, flag: set<nat>): seq<nat> {
    if q == [] then []
    else if q[0] in flag then Unflagged(q[1..], flag)
    else [q[0]] + Unflagged(q[1..], flag + {q[0]})
  }

  lemma RunTwoMore(s: State, events: seq<Event>, a: Event, b: Event)
    requires |s.sent| == |s.used|
    ensures RunFrom(s, events + [a, b]) == Step(Step(RunFrom(s, events), a), b)
  {
    RunOneMore(s, events, a);
    RunOneMore(s, events + [a], b);
    assert events + [a] + [b] == events + [a, b];
  }

  /** One held entry: its sending flag is set, its holding flag cleared. */
  function Moved(s: State, x: nat, todo: seq<nat>): State
    requires s.pc.Moving?
  {
    s.(holdFlag := s.holdFlag - {x},
       sendFlag := if x in s.sendFlag then s.sendFlag else s.sendFlag + {x},
       pc := Moving(todo, if x in s.sendFlag then s.pc.chain else s.pc.chain + [x], false))
  }

  lemma MoveSteps(s: State)
    requires |s.sent| == |s.used| && s.pc.Moving? && s.pc.todo != [] && !s.pc.marked
    ensures Step(Step(s, Mark), Unhold) == Moved(s, s.pc.todo[0], s.pc.todo[1..])
  {
  }

  lemma MoveOne(s0: State, events: seq<Event>, s: State)
    requires |s0.sent| == |s0.used| && s == RunFrom(s0, events) && s.pc.Moving? && s.pc.todo != [] && !s.pc.marked
    ensures RunFrom(s0, events + [Mark, Unhold]) == Moved(s, s.pc.todo[0], s.pc.todo[1..])
  {
    RunTwoMore(s0, events, Mark, Unhold);
    MoveSteps(s);
  }

  /** One entry sent: its value is copied, its sending flag cleared. */
  function Sent(s: State, x: nat, batch: seq<nat>): State
    requires x < |s.used| == |s.sent|
  {
    s.(sent := s.sent[x := s.used[x]], sendFlag := s.sendFlag - {x}, pc := Sending(batch, false))
  }

  lemma SendSteps(s: State)
    requires |s.sent| == |s.used| && s.pc.Sending? && s.pc.batch != [] && !s.pc.copied && s.pc.batch[0] < |s.used|
    ensures Step(Step(s, Copy), Unsend) == Sent(s, s.pc.batch[0], s.pc.batch[1..])
  {
  }

  lemma SendOne(s0: State, events: seq<Event>, s: State)
    requires |s0.sent| == |s0.used| && s == RunFrom(s0, events) && s.pc.Sending? && s.pc.batch != [] && !s.pc.copied
    requires s.pc.batch[0] < |s.used|
    ensures RunFrom(s0, events + [Copy, Unsend]) == Sent(s, s.pc.batch[0], s.pc.batch[1..])
  {
    RunTwoMore(s0, events, Copy, Unsend);
    SendSteps(s);
  }

  /** One more step of a run, with the state it leads to. */
  lemma StepOn(s0: State, events: seq<Event>, s: State, e: Event, s': State)
    requires |s0.sent| == |s0.used| == |s.sent| == |s.used| && s == RunFrom(s0, events) && s' == Step(s, e)
    ensures RunFrom(s0, events + [e]) == s'
  {
    RunOneMore(s0, events, e);
  }

  lemma FinishStep(s: State)
    requires |s.sent| == |s.used| && s.pc.Sending? && !s.pc.copied
    ensures Step(s, Finish) == s.(sending := s.pc.batch + s.sending, pc := Idle)
  {
  }

  lemma AppendStep(s: State)
    requires |s.sent| == |s.used| && s.pc.Moving? && s.pc.todo == []
    ensures Step(s, Append) == s.(sending := [], pc := Sending(s.sending + s.pc.chain, false))
  {
  }

  lemma FetchStep(s: State)
    requires |s.sent| == |s.used| && s.pc.Idle?
    ensures Step(s, Fetch) == if s.sending == [] then s.(holding := [], pc := Moving(s.holding, [], false))
                              else s.(sending := [], pc := Sending(s.sending, false))
  {
  }

  lemma OneMoreOwn(events: seq<Event>, e: Event)
    requires AllOwn(events) && Own(e)
    ensures AllOwn(events + [e])
  {
  }

  lemma MoreOwn(events: seq<Event>, a: Event, b: Event)
    requires AllOwn(events) && Own(a) && Own(b)
    ensures AllOwn(events + [a, b])
  {
  }

  lemma UnflaggedNext(done: seq<nat>, q: seq<nat>, flag: set<nat>, rest: seq<nat>)
    requires q != [] && rest == q[1..]
    ensures q[0] in flag ==> done + Unflagged(q, flag) == done + Unflagged(rest, flag)
    ensures q[0] !in flag ==> done + Unflagged(q, flag) == done + [q[0]] + Unflagged(rest, flag + {q[0]})
  {
  }

  lemma FetchedState(s: State, events: seq<Event>, s': State)
    requires Inv(s) && s' == RunFrom(s, events)
    ensures Inv(s') && (forall x :: 0 <= x < |s'.used| && s'.used[x] != s'.sent[x] ==> StillToSend(s', x))
    ensures s'.holding == [] && Todo(s'.pc) == [] ==> s'.holdFlag == s'.pushing
  {
    RunFromKeepsInv(s, events);
    forall x | 0 <= x < |s'.used| && s'.used[x] != s'.sent[x]
      ensures StillToSend(s', x)
    {
      TrackedIsQueued(s', x);
    }
    if s'.holding == [] && Todo(s'.pc) == [] {
      NothingHeld(s');
    }
  }

  /** The response holds the head of the queue, with values that are current and
      recorded as sent. */
  ghost predicate Answers(response: seq<(nat, int)>, queue: seq<nat>, used: seq<int>, sent: seq<int>) {
    && |response| <= |queue| && |sent| == |used|
    && forall i :: 0 <= i < |response| ==>
         response[i].0 == queue[i] < |used| && response[i].1 == used[response[i].0] == sent[response[i].0]
  }

  ghost predicate Names(response: seq<(nat, int)>, x: nat) {
    exists i :: 0 <= i < |response| && response[i].0 == x
  }

  /** Nothing was sent but what is in the response. */
  ghost predicate NoneElse(response: seq<(nat, int)>, sent: seq<int>, sent': seq<int>) {
    |sent'| == |sent| && forall x :: 0 <= x < |sent| && !Names(response, x) ==> sent'[x] == sent[x]
  }

  lemma AnswerOne(response: seq<(nat, int)>, queue: seq<nat>, used: seq<int>, sent: seq<int>, x: nat)
    requires Answers(response, queue, used, sent) && |response| < |queue| && x == queue[|response|] < |used|
    ensures Answers(response + [(x, used[x])], queue, used, sent[x := used[x]])
  {
  }

  lemma NoneElseOne(response: seq<(nat, int)>, sent0: seq<int>, sent: seq<int>, x: nat, value: int)
    requires NoneElse(response, sent0, sent) && x < |sent|
    ensures NoneElse(response + [(x, value)], sent0, sent[x := value])
  {
    var more := response + [(x, value)];
    assert more[|response|].0 == x;
    forall y | 0 <= y < |sent| && !Names(more, y)
      ensures y != x && sent[y] == sent0[y]
    {
      assert forall i :: 0 <= i < |response| ==> more[i] == response[i];
      assert !Names(response, y);
    }
  }

  lemma NothingHeld(s: State)
    requires HoldMatches(s) && s.holding == [] && Todo(s.pc) == []
    ensures s.holdFlag == s.pushing
  {
    assert multiset(s.pushing) == multiset(s.holdFlag);
    assert forall x :: x in s.pushing <==> x in multiset(s.pushing);
    assert forall x :: x in s.holdFlag <==> x in multiset(s.holdFlag);
  }

  lemma QueuedAreBounded(s: State)
    requires Inv(s)
    ensures forall x :: x in InTransit(s.pc) ==> x < |s.used|
  {
    forall x | x in InTransit(s.pc)
      ensures x in s.sendFlag
    {
      assert x in multiset(InTransit(s.pc));
      assert x in multiset(s.sendFlag);
    }
  }

  class Subscriber {
    var used: seq<int>
    var sent: seq<int>
    var holdFlag: set<nat>
    var sendFlag: set<nat>
    var holding: seq<nat>
    var sending: seq<nat>

    /** The state of the machine that these fields are, with what the updaters
        have begun and what this thread is doing. */
    ghost function At(pending: multiset<nat>, pushing: set<nat>, pc: Pc): State
      reads this
    {
      State(used, sent, pending, pushing, holdFlag, sendFlag, holding, sending, pc)
    }

    /** An updater's notification: the flag and, if it was not set, the queue. */
    method NotifyChange(x: nat, ghost pending: multiset<nat>, ghost pushing: set<nat>) returns (ghost events: seq<Event>)
      requires Inv(At(pending, pushing, Idle)) && x in pending
      modifies this`holdFlag, this`holding
      ensures events == if x in old(holdFlag) then [Notify(x)] else [Notify(x), Enqueue(x)]
      ensures At(pending - multiset{x}, pushing, Idle) == RunFrom(old(At(pending, pushing, Idle)), events)
      ensures Inv(At(pending - multiset{x}, pushing, Idle))
    {
      ghost var s := At(pending, pushing, Idle);
      events := if x in holdFlag then [Notify(x)] else [Notify(x), Enqueue(x)];
      PushingIsFlagged(s);
      RunFromKeepsInv(s, events);
      RunOneMore(s, [], Notify(x));
      RunTwoMore(s, [], Notify(x), Enqueue(x));
      assert [] + [Notify(x)] == [Notify(x)] && [] + [Notify(x), Enqueue(x)] == [Notify(x), Enqueue(x)];
      if x !in holdFlag {
        holdFlag := holdFlag + {x};
        holding := holding + [x];
        assert pushing + {x} - {x} == pushing;
      }
    }

    /** Takes what is held and gives it the sending flag, one entry after the
        other; the entries that did not have it make up the chain. */
    method CollectHeld(ghost pending: multiset<nat>, ghost pushing: set<nat>)
        returns (chain: seq<nat>, ghost events: seq<Event>)
      requires |sent| == |used|
      modifies this`holdFlag, this`sendFlag, this`holding
      ensures holding == [] && chain == Unflagged(old(holding), old(sendFlag)) && AllOwn(events)
      ensures At(pending, pushing, Moving([], chain, false)) ==
                RunFrom(old(At(pending, pushing, Moving(holding, [], false))).(holding := []), events)
    {
      var todo := holding;
      chain, events := [], [];
      holding := [];
      ghost var s0 := At(pending, pushing, Moving(todo, [], false));
      ghost var s := s0;
      while todo != []
        invariant s == At(pending, pushing, Moving(todo, chain, false)) == RunFrom(s0, events)
        invariant holding == [] && AllOwn(events)
        invariant chain + Unflagged(todo, sendFlag) == Unflagged(old(holding), old(sendFlag))
        decreases |todo|
      {
        var current := todo[0];
        MoveOne(s0, events, s);
        MoreOwn(events, Mark, Unhold);
        UnflaggedNext(chain, todo, sendFlag, todo[1..]);
        todo := todo[1..];
        s, events := Moved(s, current, todo), events + [Mark, Unhold];
        if current !in sendFlag {
          sendFlag := sendFlag + {current};
          chain := chain + [current];
        }
        holdFlag := holdFlag - {current};
      }
      assert chain + [] == chain;
    }

    /** Everything held that is not yet to be sent goes to the end of the sending
        queue. */
    method HoldingToSendingQueue(ghost pending: multiset<nat>, ghost pushing: set<nat>)
        returns (ghost chain: seq<nat>, ghost events: seq<Event>)
      requires |sent| == |used|
      modifies this`holdFlag, this`sendFlag, this`holding, this`sending
      ensures holding == [] && chain == Unflagged(old(holding), old(sendFlag)) && AllOwn(events)
      ensures sending == old(sending) + chain
      ensures At(pending, pushing, Moving([], chain, false)).(sending := old(sending)) ==
                RunFrom(old(At(pending, pushing, Moving(holding, [], false))).(holding := []), events)
    {
      var moved;
      moved, events := CollectHeld(pending, pushing);
      chain := moved;
      sending := sending + moved;
    }

    /** Sends the head of the sending queue, at most room entries, with the value
        of the moment; the rest goes back to the head of the queue. */
    method SendBatch(room: nat, ghost pending: multiset<nat>, ghost pushing: set<nat>)
        returns (response: seq<(nat, int)>, ghost events: seq<Event>)
      requires |sent| == |used| && forall x :: x in sending ==> x < |used|
      modifies this`sendFlag, this`sending, this`sent
      ensures |response| == (if |old(sending)| <= room then |old(sending)| else room)
      ensures sending == old(sending)[|response|..] && Answers(response, old(sending), used, sent)
      ensures NoneElse(response, old(sent), sent) && AllOwn(events)
      ensures At(pending, pushing, Idle) == RunFrom(old(At(pending, pushing, Sending(sending, false))).(sending := []), events)
    {
      var batch := sending;
      ghost var queue, sent0 := sending, sent;
      sending := [];
      response, events := [], [];
      ghost var s0 := At(pending, pushing, Sending(batch, false));
      ghost var s := s0;
      while batch != [] && |response| < room
        invariant s == At(pending, pushing, Sending(batch, false)) == RunFrom(s0, events)
        invariant sending == [] && AllOwn(events) && |response| <= room
        invariant Answers(response, queue, used, sent) && batch == queue[|response|..]
        invariant NoneElse(response, sent0, sent)
        decreases |batch|
      {
        var current := batch[0];
        assert current in queue;
        SendOne(s0, events, s);
        MoreOwn(events, Copy, Unsend);
        AnswerOne(response, queue, used, sent, current);
        NoneElseOne(response, sent0, sent, current, used[current]);
        response := response + [(current, used[current])];
        batch := batch[1..];
        s, events := Sent(s, current, batch), events + [Copy, Unsend];
        sent := sent[current := used[current]];
        sendFlag := sendFlag - {current};
      }
      FinishStep(s);
      StepOn(s0, events, s, Finish, s.(sending := batch + s.sending, pc := Idle));
      OneMoreOwn(events, Finish);
      events := events + [Finish];
      sending := batch + sending;
      assert batch + [] == batch;
    }

    /** Moves the held entries when there is nothing to send. */
    method PrepareBatch(ghost pending: multiset<nat>, ghost pushing: set<nat>) returns (ghost events: seq<Event>)
      requires |sent| == |used|
      modifies this`holdFlag, this`sendFlag, this`holding, this`sending
      ensures AllOwn(events)
      ensures At(pending, pushing, Sending(sending, false)).(sending := []) == RunFrom(old(At(pending, pushing, Idle)), events)
      ensures old(sending) != [] ==> sending == old(sending) && holding == old(holding) && holdFlag == old(holdFlag)
      ensures old(sending) == [] ==> sending == Unflagged(old(holding), old(sendFlag)) && holding == []
    {
      ghost var s := At(pending, pushing, Idle);
      FetchStep(s);
      StepOn(s, [], s, Fetch, Step(s, Fetch));
      events := [] + [Fetch];
      if sending == [] {
        ghost var chain, moved;
        chain, moved := HoldingToSendingQueue(pending, pushing);
        ghost var s1 := At(pending, pushing, Moving([], chain, false)).(sending := []);
        RunOn(s, events, moved);
        AppendStep(s1);
        StepOn(s, events + moved, s1, Append, s1.(pc := Sending([] + chain, false)));
        OneMoreOwn(events + moved, Append);
        events := events + moved + [Append];
        assert [] + chain == chain;
      }
    }

    /** A fetch is a run of the machine by the subscriber's own steps: it moves the
        held entries when there is nothing to send, and sends the head of the
        sending queue. Everything else stays, and no update is lost. */
    method FetchUpdates(room: nat, ghost pending: multiset<nat>, ghost pushing: set<nat>)
        returns (response: seq<(nat, int)>, isLast: bool, ghost events: seq<Event>)
      requires Inv(At(pending, pushing, Idle))
      modifies this`holdFlag, this`sendFlag, this`holding, this`sending, this`sent
      ensures At(pending, pushing, Idle) == RunFrom(old(At(pending, pushing, Idle)), events) && AllOwn(events)
      ensures Inv(At(pending, pushing, Idle))
      ensures forall x :: 0 <= x < |used| && used[x] != sent[x] ==> StillToSend(At(pending, pushing, Idle), x)
      ensures isLast <==> sending == []
      ensures old(sending) != [] ==> holding == old(holding) && holdFlag == old(holdFlag)
      ensures old(sending) == [] ==> holding == [] && holdFlag == pushing
      ensures var queue := if old(sending) != [] then old(sending) else Unflagged(old(holding), old(sendFlag));
        && |response| == (if |queue| <= room then |queue| else room)
        && sending == queue[|response|..] && Answers(response, queue, used, sent)
      ensures NoneElse(response, old(sent), sent)
    {
      ghost var s := At(pending, pushing, Idle);
      ghost var more;
      events := PrepareBatch(pending, pushing);
      RunFromKeepsInv(s, events);
      QueuedAreBounded(RunFrom(s, events));
      response, more := SendBatch(room, pending, pushing);
      RunOn(s, events, more);
      events := events + more;
      isLast := sending == [];
      FetchedState(s, events, At(pending, pushing, Idle));
    }
  }
}
