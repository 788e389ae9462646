/**
 The replay with parse threads takes in exactly what it is fed, and once it is
 fed no more, whatever its threads do next, it comes to an end with every record
 dealt with.
 */
module ReplayProgress {
  import opened Wrappers
  import opened ReplayMt

  /** The buffers that were fed while the feeding thread was ready for one. */
  function Accepted(threads: nat, bufferSize: nat, start: int, events: seq<Event>): seq<seq<Rec>> {
    if events == [] then []
    else
      var front := events[..|events| - 1];
      var e := events[|events| - 1];
      Accepted(threads, bufferSize, start, front) +
      if e.Feed? && Enabled(Run(threads, bufferSize, start, front), e) then [e.buffer] else []
  }

  /** Nothing that was accepted is lost, reordered or made up. */
  lemma {:induction false} FedIsAccepted(threads: nat, bufferSize: nat, start: int, events: seq<Event>)
    ensures Run(threads, bufferSize, start, events).fed == Accepted(threads, bufferSize, start, events)
  {
    if events != [] {
      var front, e := events[..|events| - 1], events[|events| - 1];
      FedIsAccepted(threads, bufferSize, start, front);
      var s := Run(threads, bufferSize, start, front);
      if Enabled(s, e) {
        FedGrows(s, e);
      }
    }
  }

  lemma FedGrows(s: State, e: Event)
    requires Enabled(s, e)
    ensures Step(s, e).fed == s.fed + if e.Feed? then [e.buffer] else []
  {
  }

  // ------------------------------------------------------------------ what is left to do

  function ParserWork(p: Parser): nat {
    3 * |Left(p)| + (if p.work.Some? then 1 else 0) + 2 * |p.chain|
  }

  function ParsersWork(parsers: seq<Parser>): nat {
    if parsers == [] then 0 else ParserWork(parsers[0]) + ParsersWork(parsers[1..])
  }

  /** How far the feeding thread is from being ready for a new batch. */
  function PcWork(s: State): int {
    match s.pc
    case Feeding => if Batch(s) > 0 then Batch(s) + 3 else 0
    case Collecting(i, _) => Batch(s) - i + 2
    case Waiting => 1
  }

  ghost function Work(s: State): int
    requires |s.owed| == 2
  {
    ParsersWork(s.parsers) + PcWork(s) + |s.owed[0]| + |s.owed[1]|
  }

  lemma {:induction false} SetWork(parsers: seq<Parser>, i: nat, p: Parser)
    requires i < |parsers|
    ensures ParsersWork(parsers[i := p]) == ParsersWork(parsers) - ParserWork(parsers[i]) + ParserWork(p)
  {
    if i == 0 {
      assert parsers[0 := p][1..] == parsers[1..];
    } else {
      SetWork(parsers[1..], i - 1, p);
      assert parsers[i := p][1..] == parsers[1..][i - 1 := p];
    }
  }

  lemma OneMore(jobs: set<Job>, job: Job)
    ensures |jobs + {job}| <= |jobs| + 1
  {
    if job in jobs {
      assert jobs + {job} == jobs;
    }
  }

  lemma CollectWorks(s: State, s': State)
    requires Shape(s) && Enabled(s, Collect) && s' == Step(s, Collect)
    ensures |s'.owed| == 2 && Work(s') < Work(s)
  {
    var i, p := s.pc.i, s.parsers[s.pc.i];
    if p.chain != [] {
      var slot := p.chain[0];
      SetWork(s.parsers, i, p.(chain := p.chain[1..]));
      OneMore(s.owed[s.arr], Job(slot.index, s.base + i, slot.rec));
    }
  }

  lemma ParseWorks(s: State, i: nat, s': State)
    requires Shape(s) && Enabled(s, ParseOne(i)) && s' == Step(s, ParseOne(i))
    ensures |s'.owed| == 2 && Work(s') < Work(s)
  {
    var p := s.parsers[i];
    SetWork(s.parsers, i, Parser(Some(p.work.value[1..]), p.chain + [Slot(s.elt, p.work.value[0])]));
  }

  /** Every step that takes in nothing new leaves less to do. */
  lemma StepWorks(s: State, e: Event, s': State)
    requires Shape(s) && Enabled(s, e) && !e.Feed? && s' == Step(s, e)
    ensures |s'.owed| == 2 && Work(s') < Work(s)
  {
    match e
    case ParseOne(i) => ParseWorks(s, i, s');
    case ParseDone(i) => SetWork(s.parsers, i, s.parsers[i].(work := None));
    case Flush =>
    case Collect => CollectWorks(s, s');
    case Complete(arr, job) =>
    case Switch =>
  }

  // ---------------------------------------------------------------------- the end

  /** Everything that was fed has been dealt with and completed. */
  ghost predicate Settled(s: State) {
    s.pc.Feeding? && Batch(s) == 0 && (forall j :: 0 <= j < |s.parsers| ==> s.parsers[j] == Parser(None, [])) && s.owed == [{}, {}]
  }

  /** Somebody can take a step. */
  lemma NextStep(s: State, start: int) returns (e: Event)
    requires Inv(s, start) && !Settled(s)
    ensures !e.Feed? && Enabled(s, e)
  {
    if job :| job in s.owed[0] {
      e := Complete(0, job);
    } else if job :| job in s.owed[1] {
      e := Complete(1, job);
    } else {
      match s.pc
      case Feeding =>
        e := Flush;
        if Batch(s) == 0 {
          NothingLeft(s, start);
        }
      case Collecting(i, _) =>
        var work := s.parsers[i].work;
        e := if work.None? then Collect else if work.value == [] then ParseDone(i) else ParseOne(i);
      case Waiting => e := Switch;
    }
  }

  lemma NothingLeft(s: State, start: int)
    requires Inv(s, start) && s.pc.Feeding? && Batch(s) == 0 && s.owed[0] == {} && s.owed[1] == {}
    ensures Settled(s)
  {
    forall j | 0 <= j < |s.parsers|
      ensures s.parsers[j] == Parser(None, [])
    {
      assert ParserOk(s, j);
    }
  }

  lemma NothingToDo(s: State, e: Event)
    requires Settled(s) && Enabled(s, e)
    ensures e.Feed?
  {
  }

  /** Only feeding is possible. */
  ghost predicate OnlyFeeding(s: State) {
    forall e :: Enabled(s, e) ==> e.Feed?
  }

  lemma DoneOrNext(s: State, start: int)
    requires Inv(s, start)
    ensures Settled(s) <==> OnlyFeeding(s)
  {
    if Settled(s) {
      forall e | Enabled(s, e)
        ensures e.Feed?
      {
        NothingToDo(s, e);
      }
    } else {
      var e := NextStep(s, start);
    }
  }

  /** A step that takes in nothing new leaves less to do. */
  ghost predicate LessToDo(s: State, e: Event)
    requires |s.owed| == 2 && Enabled(s, e)
  {
    |Step(s, e).owed| == 2 && 0 <= Work(Step(s, e)) < Work(s)
  }

  /** The replay never gets stuck and never goes round in circles: in every state
      of every run some thread can take a step that takes in nothing new, unless
      all is done, and each such step leaves less to do. When all is done, what was
      handed over is what the sequential replay hands over for all that was fed. */
  lemma ReplayFinishes(threads: nat, bufferSize: nat, start: int, events: seq<Event>, s: State)
    requires s == Run(threads, bufferSize, start, events)
    ensures |s.owed| == 2 && (Settled(s) <==> OnlyFeeding(s))
    ensures forall e :: Enabled(s, e) && !e.Feed? ==> LessToDo(s, e)
    ensures Settled(s) ==> s.dispatched == Filter(Flat(Accepted(threads, bufferSize, start, events)), start)
  {
    RunKeepsInv(threads, bufferSize, start, events);
    DoneOrNext(s, start);
    forall e | Enabled(s, e) && !e.Feed? {
      StepLess(s, e, start);
    }
    SettledIsSequential(threads, bufferSize, start, events, s);
  }

  lemma StepLess(s: State, e: Event, start: int)
    requires Inv(s, start) && Enabled(s, e) && !e.Feed?
    ensures LessToDo(s, e)
  {
    StepWorks(s, e, Step(s, e));
    StepKeepsInv(s, e, start);
    WorkIsNat(Step(s, e));
  }

  lemma WorkIsNat(s: State)
    requires Shape(s)
    ensures Work(s) >= 0
  {
  }

  lemma SettledIsSequential(threads: nat, bufferSize: nat, start: int, events: seq<Event>, s: State)
    requires s == Run(threads, bufferSize, start, events)
    ensures Settled(s) ==> s.dispatched == Filter(Flat(Accepted(threads, bufferSize, start, events)), start)
  {
    SameAsSequential(threads, bufferSize, start, events);
    FedIsAccepted(threads, bufferSize, start, events);
  }
}
