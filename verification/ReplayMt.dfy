/**
 Replaying the binlog with several parse threads and two record arrays, and
 replaying it in one thread: both hand the data threads the same records in the
 same order.
 */
module ReplayMt {
  import opened Wrappers

  datatype Rec = Rec(version: int, dataThread: nat)

  // ------------------------------------------------------------ the sequential replay

  /** The records with a version above all versions before them. */
  function Filter(recs: seq<Rec>, current: int): seq<Rec> {
    if recs == [] then []
    else if recs[0].version <= current then Filter(recs[1..], current)
    else [recs[0]] + Filter(recs[1..], recs[0].version)
  }

  function Current(recs: seq<Rec>, current: int): int {
    if recs == [] then current
    else if recs[0].version <= current then Current(recs[1..], current)
    else Current(recs[1..], recs[0].version)
  }

  lemma {:induction false} FilterMore(a: seq<Rec>, b: seq<Rec>, current: int)
    ensures Filter(a + b, current) == Filter(a, current) + Filter(b, Current(a, current))
    ensures Current(a + b, current) == Current(b, Current(a, current))
  {
    if a == [] {
      assert a + b == b;
    } else {
      assert (a + b)[1..] == a[1..] + b;
      FilterMore(a[1..], b, if a[0].version <= current then current else a[0].version);
    }
  }

  lemma FilterNext(a: seq<Rec>, r: Rec, current: int)
    ensures Filter(a + [r], current) == if r.version <= Current(a, current) then Filter(a, current) else Filter(a, current) + [r]
    ensures Current(a + [r], current) == if r.version <= Current(a, current) then Current(a, current) else r.version
  {
    FilterMore(a, [r], current);
    assert [r][1..] == [];
  }

  /** What is handed to the data threads is strictly increasing in version, and
      above the version replay started from. */
  lemma {:induction false} FilterIncreases(recs: seq<Rec>, current: int)
    ensures forall i :: 0 <= i < |Filter(recs, current)| ==> Filter(recs, current)[i].version > current
    ensures forall i, j :: 0 <= i < j < |Filter(recs, current)| ==> Filter(recs, current)[i].version < Filter(recs, current)[j].version
  {
    if recs != [] {
      FilterIncreases(recs[1..], if recs[0].version <= current then current else recs[0].version);
    }
  }

  /** The version of the i-th record is above all versions before it and above
      the one that replay started from. */
  predicate Passes(recs: seq<Rec>, current: int, i: nat)
    requires i < |recs|
  {
    recs[i].version > current && forall j :: 0 <= j < i ==> recs[j].version < recs[i].version
  }

  /** Those of the first n records that pass, in order. */
  function Picked(recs: seq<Rec>, current: int, n: nat): seq<Rec>
    requires n <= |recs|
  {
    if n == 0 then [] else Picked(recs, current, n - 1) + if Passes(recs, current, n - 1) then [recs[n - 1]] else []
  }

  lemma {:induction false} CurrentIsGreatest(recs: seq<Rec>, current: int, n: nat)
    requires n <= |recs|
    ensures current <= Current(recs[..n], current)
    ensures forall j :: 0 <= j < n ==> recs[j].version <= Current(recs[..n], current)
    ensures Current(recs[..n], current) == current || exists j :: 0 <= j < n && recs[j].version == Current(recs[..n], current)
  {
    if n > 0 {
      CurrentIsGreatest(recs, current, n - 1);
      assert recs[..n] == recs[..n - 1] + [recs[n - 1]];
      FilterNext(recs[..n - 1], recs[n - 1], current);
    }
  }

  /** A record is handed over if and only if its version is above the starting one
      and above all before it. */
  lemma {:induction false} FilterExact(recs: seq<Rec>, current: int, n: nat)
    requires n <= |recs|
    ensures Filter(recs[..n], current) == Picked(recs, current, n)
  {
    if n > 0 {
      FilterExact(recs, current, n - 1);
      CurrentIsGreatest(recs, current, n - 1);
      assert recs[..n] == recs[..n - 1] + [recs[n - 1]];
      FilterNext(recs[..n - 1], recs[n - 1], current);
    }
  }

  /** Of a log in version order exactly the part above the starting version is
      handed over. */
  lemma {:induction false} FilterResumes(recs: seq<Rec>, current: int, k: nat)
    requires k <= |recs| && forall i, j :: 0 <= i < j < |recs| ==> recs[i].version < recs[j].version
    requires (forall i :: 0 <= i < k ==> recs[i].version <= current) && forall i :: k <= i < |recs| ==> recs[i].version > current
    ensures Filter(recs, current) == recs[k..]
    decreases |recs|
  {
    if recs != [] {
      if k > 0 {
        FilterResumes(recs[1..], current, k - 1);
        assert recs[1..][k - 1..] == recs[k..];
      } else {
        FilterResumes(recs[1..], recs[0].version, 0);
        assert [recs[0]] + recs[1..] == recs[0..];
      }
    }
  }

  /** The single-threaded replay fills an array with the records that pass,
      hands them over and waits for them before it goes on. */
  class SequentialReplay {
    var current: int
    var skipped: nat
    var dispatched: seq<Rec>
    const size: nat

    constructor (size: nat, current: int)
      requires size > 0
      ensures this.size == size && this.current == current && skipped == 0 && dispatched == []
    {
      this.size := size;
      this.current := current;
      skipped := 0;
      dispatched := [];
    }

    method DealBuffer(recs: seq<Rec>)
      requires size > 0
      modifies this
      ensures dispatched == old(dispatched) + Filter(recs, old(current)) && current == Current(recs, old(current))
      ensures skipped + |dispatched| == old(skipped) + |old(dispatched)| + |recs|
    {
      var p := 0;
      while p < |recs|
        invariant p <= |recs| && current == Current(recs[..p], old(current))
        invariant dispatched == old(dispatched) + Filter(recs[..p], old(current))
        invariant skipped + |dispatched| == old(skipped) + |old(dispatched)| + p
        decreases |recs| - p
      {
        ghost var first := p;
        var batch: seq<Rec> := [];
        while p < |recs| && |batch| < size
          invariant first <= p <= |recs| && |batch| <= size && current == Current(recs[..p], old(current))
          invariant dispatched + batch == old(dispatched) + Filter(recs[..p], old(current))
          invariant skipped + |dispatched| + |batch| == old(skipped) + |old(dispatched)| + p
          invariant p > first || batch == []
          decreases |recs| - p
        {
          assert recs[..p + 1] == recs[..p] + [recs[p]];
          FilterNext(recs[..p], recs[p], old(current));
          if recs[p].version <= current {
            skipped := skipped + 1;
          } else {
            current := recs[p].version;
            assert dispatched + (batch + [recs[p]]) == dispatched + batch + [recs[p]];
            batch := batch + [recs[p]];
          }
          p := p + 1;
        }
        dispatched := dispatched + batch;
      }
      assert recs[..p] == recs;
    }
  }

  // ----------------------------------------------------------- the concurrent replay

  const MIN_RECORD: nat := 64

  datatype Slot = Slot(index: nat, rec: Rec)

  /** A parse thread: what is left of its buffer, if it has one, and the records
      it has parsed. */
  datatype Parser = Parser(work: Option<seq<Rec>>, chain: seq<Slot>)

  /** A record that a data thread still has to complete, the array slot it is in
      and the read buffer its strings are in. */
  datatype Job = Job(slot: nat, buffer: nat, rec: Rec)

  /** Where the feeding thread is: taking buffers, collecting the output of
      parser i after n of its records, or waiting for the other array. */
  datatype Pc = Feeding | Collecting(i: nat, n: nat) | Waiting

  datatype State = State(
    bufferSize: nat,
    parsers: seq<Parser>,
    arr: nat,                  // the array in use, 0 or 1
    elt: nat,                  // its next free slot
    owed: seq<set<Job>>,       // per array
    pc: Pc,
    current: int,
    dispatched: seq<Rec>,
    fed: seq<seq<Rec>>,        // all buffers so far
    base: nat,                 // the first buffer of this batch
    prev: nat)                 // the first buffer of the batch before; earlier ones were given back

  datatype Event =
    | Feed(buffer: seq<Rec>)
    | ParseOne(i: nat)
    | ParseDone(i: nat)
    | Flush
    | Collect
    | Complete(arr: nat, job: Job)
    | Switch

  function Init(threads: nat, bufferSize: nat, current: int): State {
    State(bufferSize, seq(threads, _ => Parser(None, [])), 0, 0, [{}, {}], Feeding, current, [], [], 0, 0)
  }

  function Batch(s: State): int {
    |s.fed| - s.base
  }

  function SetParser(s: State, i: nat, p: Parser): State
    requires i < |s.parsers|
  {
    s.(parsers := s.parsers[i := p])
  }

  predicate Enabled(s: State, e: Event) {
    match e
    case Feed(buffer) => s.pc.Feeding? && 0 <= Batch(s) < |s.parsers| && MIN_RECORD * |buffer| <= s.bufferSize
    case ParseOne(i) => i < |s.parsers| && s.parsers[i].work.Some? && s.parsers[i].work.value != []
    case ParseDone(i) => i < |s.parsers| && s.parsers[i].work == Some([])
    case Flush => s.pc.Feeding? && 0 < Batch(s)
    case Collect => s.pc.Collecting? && s.pc.i < |s.parsers| && s.pc.i < Batch(s) && s.parsers[s.pc.i].work.None? && s.arr < |s.owed|
    case Complete(arr, job) => arr < |s.owed| && job in s.owed[arr]
    case Switch => s.pc.Waiting? && s.arr < 2 && |s.owed| == 2 && s.owed[1 - s.arr] == {}
  }

  function Step(s: State, e: Event): State
    requires Enabled(s, e)
  {
    match e
    case Feed(buffer) =>
      var s1 := SetParser(s, Batch(s), s.parsers[Batch(s)].(work := Some(buffer))).(fed := s.fed + [buffer]);
      if Batch(s1) == |s.parsers| then s1.(pc := Collecting(0, 0)) else s1
    case ParseOne(i) =>
      var p := s.parsers[i];
      SetParser(s, i, Parser(Some(p.work.value[1..]), p.chain + [Slot(s.elt, p.work.value[0])])).(elt := s.elt + 1)
    case ParseDone(i) => SetParser(s, i, s.parsers[i].(work := None))
    case Flush => s.(pc := Collecting(0, 0))
    case Collect =>
      var p := s.parsers[s.pc.i];
      if p.chain == [] then s.(pc := if s.pc.i + 1 == Batch(s) then Waiting else Collecting(s.pc.i + 1, 0))
      else
        var Slot(index, rec) := p.chain[0];
        var s1 := SetParser(s, s.pc.i, p.(chain := p.chain[1..])).(pc := Collecting(s.pc.i, s.pc.n + 1));
        if rec.version <= s.current then s1
        else s1.(current := rec.version, dispatched := s.dispatched + [rec],
                 owed := s.owed[s.arr := s.owed[s.arr] + {Job(index, s.base + s.pc.i, rec)}])
    case Complete(arr, job) => s.(owed := s.owed[arr := s.owed[arr] - {job}])
    case Switch => s.(arr := 1 - s.arr, elt := 0, pc := Feeding, base := |s.fed|, prev := s.base)
  }

  function Run(threads: nat, bufferSize: nat, current: int, events: seq<Event>): State {
    if events == [] then Init(threads, bufferSize, current)
    else
      var s := Run(threads, bufferSize, current, events[..|events| - 1]);
      var e := events[|events| - 1];
      if Enabled(s, e) then Step(s, e) else s
  }

  // ------------------------------------------------------------------------ invariants

  function Left(p: Parser): seq<Rec> {
    if p.work.Some? then p.work.value else []
  }

  function Parsed(chain: seq<Slot>): seq<Rec> {
    seq(|chain|, i requires 0 <= i < |chain| => chain[i].rec)
  }

  /** How many records of its buffer parser j has handed on. */
  function Handed(s: State, j: nat): nat {
    match s.pc
    case Feeding => 0
    case Collecting(i, n) => if j < i && j < Batch(s) then |s.fed[s.base + j]| else if j == i then n else 0
    case Waiting => if j < Batch(s) then |s.fed[s.base + j]| else 0
  }

  /** The output of parser j has been collected. */
  predicate Passed(s: State, j: nat) {
    s.pc.Waiting? || (s.pc.Collecting? && j < s.pc.i)
  }

  ghost predicate ParserOk(s: State, j: nat)
    requires j < |s.parsers| && 0 <= s.base <= |s.fed|
  {
    var p := s.parsers[j];
    if j < Batch(s) then
      && Handed(s, j) <= |s.fed[s.base + j]|
      && s.fed[s.base + j][Handed(s, j)..] == Parsed(p.chain) + Left(p)
      && (Handed(s, j) > 0 || Passed(s, j) ==> p.work.None?)
    else p == Parser(None, [])
  }

  ghost predicate Shape(s: State) {
    && |s.owed| == 2 && s.arr < 2 && s.prev <= s.base <= |s.fed| && Batch(s) <= |s.parsers|
    && (s.pc.Feeding? && s.parsers != [] ==> Batch(s) < |s.parsers|)
    && (s.pc.Collecting? ==> s.pc.i < Batch(s))
    && (forall b :: 0 <= b < |s.fed| ==> MIN_RECORD * |s.fed[b]| <= s.bufferSize)
  }

  ghost predicate AllParsersOk(s: State)
    requires Shape(s)
  {
    forall j {:trigger ParserOk(s, j)} :: 0 <= j < |s.parsers| ==> ParserOk(s, j)
  }

  /** Slots that are in use lie below the next free one; the records that are
      still owed are in buffers that have not been given back. */
  ghost predicate JobsOk(s: State)
    requires Shape(s)
  {
    && (forall j, k :: 0 <= j < |s.parsers| && 0 <= k < |s.parsers[j].chain| ==> s.parsers[j].chain[k].index < s.elt)
    && (forall job :: job in s.owed[s.arr] ==> job.slot < s.elt && s.base <= job.buffer < |s.fed|)
    && (forall job :: job in s.owed[1 - s.arr] ==> s.prev <= job.buffer < s.base)
  }

  /** Slots taken by the first j parsers of the batch. */
  ghost function Taken(buffers: seq<seq<Rec>>, parsers: seq<Parser>, j: nat): int
    requires j <= |buffers| && j <= |parsers|
  {
    if j == 0 then 0 else Taken(buffers, parsers, j - 1) + |buffers[j - 1]| - |Left(parsers[j - 1])|
  }

  ghost predicate Counted(s: State)
    requires Shape(s)
  {
    s.elt == Taken(s.fed[s.base..], s.parsers, Batch(s))
  }

  function Flat(buffers: seq<seq<Rec>>): seq<Rec> {
    if buffers == [] then [] else Flat(buffers[..|buffers| - 1]) + buffers[|buffers| - 1]
  }

  /** The records the feeding thread has dealt with, in the order of the log. */
  ghost function Dealt(s: State): seq<Rec>
    requires Shape(s) && (s.pc.Collecting? ==> s.pc.n <= |s.fed[s.base + s.pc.i]|)
  {
    match s.pc
    case Feeding => Flat(s.fed[..s.base])
    case Collecting(i, n) => Flat(s.fed[..s.base + i]) + s.fed[s.base + i][..n]
    case Waiting => Flat(s.fed)
  }

  ghost predicate Placed(s: State) {
    s.pc.Collecting? ==> s.base + s.pc.i < |s.fed| && s.pc.n <= |s.fed[s.base + s.pc.i]|
  }

  ghost predicate InOrder(s: State, start: int)
    requires Shape(s) && Placed(s)
  {
    s.dispatched == Filter(Dealt(s), start) && s.current == Current(Dealt(s), start)
  }

  ghost predicate Inv(s: State, start: int) {
    && Shape(s) && AllParsersOk(s) && JobsOk(s) && Counted(s)
    && Placed(s) && InOrder(s, start)
  }

  // -------------------------------------------------------------------- counting slots

  lemma TimesNext(j: nat, b: nat)
    requires j > 0
    ensures (j - 1) * b + b == j * b
  {
  }

  ghost predicate LeftFit(buffers: seq<seq<Rec>>, parsers: seq<Parser>, j: nat, size: nat)
    requires j <= |buffers| && j <= |parsers|
  {
    forall k :: 0 <= k < j ==> |Left(parsers[k])| <= |buffers[k]| && MIN_RECORD * |buffers[k]| <= size
  }

  lemma {:induction false} TakenBound(buffers: seq<seq<Rec>>, parsers: seq<Parser>, j: nat, size: nat)
    requires j <= |buffers| && j <= |parsers| && LeftFit(buffers, parsers, j, size)
    ensures MIN_RECORD * Taken(buffers, parsers, j) <= j * size
  {
    if j > 0 {
      TakenBound(buffers, parsers, j - 1, size);
      TimesNext(j, size);
    }
  }

  lemma {:induction false} TakenRoom(buffers: seq<seq<Rec>>, parsers: seq<Parser>, i: nat, j: nat, size: nat)
    requires i < j <= |buffers| && j <= |parsers| && LeftFit(buffers, parsers, j, size) && Left(parsers[i]) != []
    ensures MIN_RECORD * (Taken(buffers, parsers, j) + 1) <= j * size
  {
    TimesNext(j, size);
    if i < j - 1 {
      TakenRoom(buffers, parsers, i, j - 1, size);
    } else {
      TakenBound(buffers, parsers, j - 1, size);
    }
  }

  lemma {:induction false} TakenSame(buffers: seq<seq<Rec>>, buffers': seq<seq<Rec>>, parsers: seq<Parser>, parsers': seq<Parser>, j: nat)
    requires j <= |buffers| && j <= |buffers'| && j <= |parsers| && j <= |parsers'|
    requires forall k :: 0 <= k < j ==> buffers'[k] == buffers[k] && |Left(parsers'[k])| == |Left(parsers[k])|
    ensures Taken(buffers', parsers', j) == Taken(buffers, parsers, j)
  {
    if j > 0 {
      TakenSame(buffers, buffers', parsers, parsers', j - 1);
    }
  }

  /** Parsing one record takes one slot. */
  lemma {:induction false} TakenOne(buffers: seq<seq<Rec>>, parsers: seq<Parser>, parsers': seq<Parser>, i: nat, j: nat)
    requires i < j <= |buffers| && j <= |parsers| == |parsers'|
    requires |Left(parsers'[i])| == |Left(parsers[i])| - 1
    requires forall k :: 0 <= k < j && k != i ==> |Left(parsers'[k])| == |Left(parsers[k])|
    ensures Taken(buffers, parsers', j) == Taken(buffers, parsers, j) + 1
  {
    if i < j - 1 {
      TakenOne(buffers, parsers, parsers', i, j - 1);
    } else {
      TakenSame(buffers, buffers, parsers, parsers', j - 1);
    }
  }

  lemma LeftFits(s: State, j: nat)
    requires Shape(s) && j < Batch(s) && ParserOk(s, j)
    ensures |Left(s.parsers[j])| <= |s.fed[s.base + j]|
  {
    assert |s.fed[s.base + j][Handed(s, j)..]| == |Parsed(s.parsers[j].chain)| + |Left(s.parsers[j])|;
  }

  lemma AllLeftFit(s: State)
    requires Shape(s) && AllParsersOk(s)
    ensures LeftFit(s.fed[s.base..], s.parsers, Batch(s), s.bufferSize)
  {
    forall k | 0 <= k < Batch(s)
      ensures |Left(s.parsers[k])| <= |s.fed[s.base..][k]| && MIN_RECORD * |s.fed[s.base..][k]| <= s.bufferSize
    {
      assert ParserOk(s, k);
      LeftFits(s, k);
    }
  }

  lemma TimesGrows(i: nat, j: nat, b: nat)
    requires i <= j
    ensures i * b <= j * b
  {
  }

  /** The number of slots that each array is given. */
  function Limit(s: State): nat {
    |s.parsers| * s.bufferSize / MIN_RECORD
  }

  lemma OnlyBusyInBatch(s: State, i: nat)
    requires Shape(s) && AllParsersOk(s) && i < |s.parsers| && s.parsers[i].work.Some?
    ensures i < Batch(s)
  {
    assert ParserOk(s, i);
  }

  /** A record is parsed into a slot inside the array that no record still owed
      and no record of a chain is in. */
  lemma SlotIsFree(s: State, start: int, i: nat)
    requires Inv(s, start) && Enabled(s, ParseOne(i))
    ensures s.elt < Limit(s)
    ensures forall job :: job in s.owed[s.arr] ==> job.slot != s.elt
    ensures forall j, k :: 0 <= j < |s.parsers| && 0 <= k < |s.parsers[j].chain| ==> s.parsers[j].chain[k].index != s.elt
  {
    OnlyBusyInBatch(s, i);
    AllLeftFit(s);
    TakenRoom(s.fed[s.base..], s.parsers, i, Batch(s), s.bufferSize);
    TimesGrows(Batch(s), |s.parsers|, s.bufferSize);
  }

  // ----------------------------------------------------------- every step keeps them

  lemma ChainPushes(chain: seq<Slot>, slot: Slot)
    ensures Parsed(chain + [slot]) == Parsed(chain) + [slot.rec]
  {
  }

  lemma ChainPops(chain: seq<Slot>)
    requires chain != []
    ensures Parsed(chain) == [chain[0].rec] + Parsed(chain[1..])
  {
  }

  lemma FeedParsers(s: State, buffer: seq<Rec>)
    requires Shape(s) && AllParsersOk(s) && Enabled(s, Feed(buffer))
    ensures Shape(Step(s, Feed(buffer))) && AllParsersOk(Step(s, Feed(buffer)))
  {
    var s' := Step(s, Feed(buffer));
    forall j | 0 <= j < |s'.parsers|
      ensures ParserOk(s', j)
    {
      assert ParserOk(s, j);
    }
  }

  lemma ParseOneParsers(s: State, i: nat)
    requires Shape(s) && AllParsersOk(s) && Enabled(s, ParseOne(i))
    ensures Shape(Step(s, ParseOne(i))) && AllParsersOk(Step(s, ParseOne(i)))
  {
    var s', p := Step(s, ParseOne(i)), s.parsers[i];
    forall j | 0 <= j < |s'.parsers|
      ensures ParserOk(s', j)
    {
      assert ParserOk(s, j);
      if j == i {
        ChainPushes(p.chain, Slot(s.elt, p.work.value[0]));
        assert Parsed(p.chain) + [p.work.value[0]] + p.work.value[1..] == Parsed(p.chain) + p.work.value;
      }
    }
  }

  lemma ParseDoneParsers(s: State, i: nat)
    requires Shape(s) && AllParsersOk(s) && Enabled(s, ParseDone(i))
    ensures Shape(Step(s, ParseDone(i))) && AllParsersOk(Step(s, ParseDone(i)))
  {
    var s' := Step(s, ParseDone(i));
    forall j | 0 <= j < |s'.parsers|
      ensures ParserOk(s', j)
    {
      assert ParserOk(s, j);
    }
  }

  /** The next record of the chain is the next record of the buffer. */
  lemma CollectHead(s: State)
    requires Shape(s) && AllParsersOk(s) && Placed(s) && Enabled(s, Collect)
    ensures var b, p := s.fed[s.base + s.pc.i], s.parsers[s.pc.i];
      if p.chain == [] then s.pc.n == |b|
      else s.pc.n < |b| && p.chain[0].rec == b[s.pc.n] && b[s.pc.n + 1..] == Parsed(p.chain[1..]) + Left(p)
  {
    var i, n := s.pc.i, s.pc.n;
    var p, b := s.parsers[i], s.fed[s.base + i];
    assert ParserOk(s, i);
    assert b[n..] == Parsed(p.chain) + [];
    if p.chain != [] {
      ChainPops(p.chain);
      assert b[n..][0] == p.chain[0].rec && b[n..][1..] == Parsed(p.chain[1..]);
      assert b[n..][1..] == b[n + 1..];
    }
  }

  lemma CollectAt(s: State, j: nat)
    requires Shape(s) && AllParsersOk(s) && Placed(s) && Enabled(s, Collect) && j < |s.parsers|
    ensures ParserOk(Step(s, Collect), j)
  {
    CollectHead(s);
    assert ParserOk(s, j);
  }

  lemma CollectParsers(s: State)
    requires Shape(s) && AllParsersOk(s) && Placed(s) && Enabled(s, Collect)
    ensures Shape(Step(s, Collect)) && AllParsersOk(Step(s, Collect)) && Placed(Step(s, Collect))
  {
    CollectHead(s);
    forall j | 0 <= j < |s.parsers|
      ensures ParserOk(Step(s, Collect), j)
    {
      CollectAt(s, j);
    }
  }

  lemma OtherParsers(s: State, e: Event)
    requires Shape(s) && AllParsersOk(s) && Enabled(s, e) && (e.Flush? || e.Complete?)
    ensures Shape(Step(s, e)) && AllParsersOk(Step(s, e)) && (Placed(s) ==> Placed(Step(s, e)))
  {
    var s' := Step(s, e);
    forall j | 0 <= j < |s'.parsers|
      ensures ParserOk(s', j)
    {
      assert ParserOk(s, j);
    }
  }

  lemma SwitchParsers(s: State)
    requires Shape(s) && AllParsersOk(s) && Enabled(s, Switch)
    ensures Shape(Step(s, Switch)) && AllParsersOk(Step(s, Switch))
  {
    var s' := Step(s, Switch);
    forall j | 0 <= j < |s'.parsers|
      ensures ParserOk(s', j)
    {
      assert ParserOk(s, j);
      if j < Batch(s) {
        assert s.fed[s.base + j][|s.fed[s.base + j]|..] == [];
        assert |Parsed(s.parsers[j].chain) + Left(s.parsers[j])| == 0;
      }
    }
  }

  lemma StepParsers(s: State, e: Event)
    requires Shape(s) && AllParsersOk(s) && Placed(s) && Enabled(s, e)
    ensures Shape(Step(s, e)) && AllParsersOk(Step(s, e)) && Placed(Step(s, e))
  {
    match e
    case Feed(buffer) => FeedParsers(s, buffer);
    case ParseOne(i) => ParseOneParsers(s, i);
    case ParseDone(i) => ParseDoneParsers(s, i);
    case Collect => CollectParsers(s);
    case Switch => SwitchParsers(s);
    case _ => OtherParsers(s, e);
  }

  lemma ParseJobs(s: State, e: Event)
    requires Shape(s) && JobsOk(s) && Enabled(s, e) && Shape(Step(s, e)) && (e.Feed? || e.ParseOne? || e.ParseDone?)
    ensures JobsOk(Step(s, e))
  {
  }

  lemma DealJobs(s: State, e: Event)
    requires Shape(s) && JobsOk(s) && Enabled(s, e) && Shape(Step(s, e)) && (e.Flush? || e.Collect? || e.Complete?)
    ensures JobsOk(Step(s, e))
  {
  }

  lemma StepJobs(s: State, e: Event)
    requires Shape(s) && JobsOk(s) && Enabled(s, e) && Shape(Step(s, e))
    requires forall j :: e.Switch? && 0 <= j < |s.parsers| ==> s.parsers[j].chain == []
    ensures JobsOk(Step(s, e))
  {
    if e.Feed? || e.ParseOne? || e.ParseDone? {
      ParseJobs(s, e);
    } else if e.Flush? || e.Collect? || e.Complete? {
      DealJobs(s, e);
    }
  }

  lemma FeedCounted(s: State, buffer: seq<Rec>)
    requires Shape(s) && AllParsersOk(s) && Counted(s) && Enabled(s, Feed(buffer)) && Shape(Step(s, Feed(buffer)))
    ensures Counted(Step(s, Feed(buffer)))
  {
    var s', n := Step(s, Feed(buffer)), Batch(s);
    assert ParserOk(s, n);
    TakenSame(s.fed[s.base..], s'.fed[s.base..], s.parsers, s'.parsers, n);
    assert s'.fed[s.base..][n] == buffer;
  }

  lemma ParseOneCounted(s: State, i: nat)
    requires Shape(s) && AllParsersOk(s) && Counted(s) && Enabled(s, ParseOne(i)) && Shape(Step(s, ParseOne(i)))
    ensures Counted(Step(s, ParseOne(i)))
  {
    OnlyBusyInBatch(s, i);
    TakenOne(s.fed[s.base..], s.parsers, Step(s, ParseOne(i)).parsers, i, Batch(s));
  }

  lemma StepCounted(s: State, e: Event)
    requires Shape(s) && AllParsersOk(s) && Counted(s) && Enabled(s, e) && Shape(Step(s, e))
    ensures Counted(Step(s, e))
  {
    match e
    case Feed(buffer) => FeedCounted(s, buffer);
    case ParseOne(i) => ParseOneCounted(s, i);
    case Switch =>
    case _ => OtherCounted(s, e);
  }

  lemma OtherCounted(s: State, e: Event)
    requires Shape(s) && Counted(s) && Enabled(s, e) && Shape(Step(s, e))
    requires e.ParseDone? || e.Flush? || e.Collect? || e.Complete?
    ensures Counted(Step(s, e))
  {
    TakenSame(s.fed[s.base..], s.fed[s.base..], s.parsers, Step(s, e).parsers, Batch(s));
  }

  lemma FlatNext(buffers: seq<seq<Rec>>, i: nat)
    requires i < |buffers|
    ensures Flat(buffers[..i + 1]) == Flat(buffers[..i]) + buffers[i]
  {
    assert buffers[..i + 1][..i] == buffers[..i];
  }

  lemma JoinOne(a: seq<Rec>, b: seq<Rec>, r: Rec)
    ensures a + (b + [r]) == a + b + [r]
  {
  }

  lemma BufferEnds(s: State, s': State)
    requires Shape(s) && AllParsersOk(s) && Placed(s) && Enabled(s, Collect) && s.parsers[s.pc.i].chain == []
    requires s' == Step(s, Collect) && Shape(s') && Placed(s')
    ensures Dealt(s') == Dealt(s)
  {
    var i := s.pc.i;
    CollectHead(s);
    assert s.fed[s.base + i][..s.pc.n] == s.fed[s.base + i];
    FlatNext(s.fed, s.base + i);
    assert s.fed[..|s.fed|] == s.fed;
    assert i + 1 < Batch(s) ==> s.fed[s.base + i + 1][..0] == [];
  }

  lemma BufferGoesOn(s: State, s': State)
    requires Shape(s) && AllParsersOk(s) && Placed(s) && Enabled(s, Collect) && s.parsers[s.pc.i].chain != []
    requires s' == Step(s, Collect) && Shape(s') && Placed(s')
    ensures Dealt(s') == Dealt(s) + [s.parsers[s.pc.i].chain[0].rec]
  {
    var n, b := s.pc.n, s.fed[s.base + s.pc.i];
    CollectHead(s);
    assert b[..n + 1] == b[..n] + [b[n]];
    JoinOne(Flat(s.fed[..s.base + s.pc.i]), b[..n], b[n]);
  }

  lemma CollectInOrder(s: State, s': State, start: int)
    requires Shape(s) && AllParsersOk(s) && Placed(s) && InOrder(s, start) && Enabled(s, Collect)
    requires s' == Step(s, Collect) && Shape(s') && Placed(s')
    ensures InOrder(s', start)
  {
    var chain := s.parsers[s.pc.i].chain;
    if chain == [] {
      BufferEnds(s, s');
    } else {
      BufferGoesOn(s, s');
      FilterNext(Dealt(s), chain[0].rec, start);
    }
  }

  lemma OtherDealt(s: State, e: Event)
    requires Shape(s) && Placed(s) && Enabled(s, e) && !e.Collect? && Shape(Step(s, e)) && Placed(Step(s, e))
    ensures Dealt(Step(s, e)) == Dealt(s)
  {
    var s' := Step(s, e);
    match e
    case Feed(buffer) =>
      assert s'.fed[..s.base] == s.fed[..s.base];
      assert s'.pc.Collecting? ==> s'.fed[s.base][..0] == [];
    case Flush => assert s.fed[s.base][..0] == [];
    case Switch => assert s.fed[..|s.fed|] == s.fed;
    case _ =>
  }

  lemma StepInOrder(s: State, e: Event, s': State, start: int)
    requires Shape(s) && AllParsersOk(s) && Placed(s) && InOrder(s, start) && Enabled(s, e)
    requires s' == Step(s, e) && Shape(s') && Placed(s')
    ensures InOrder(s', start)
  {
    if e.Collect? {
      CollectInOrder(s, s', start);
    } else {
      OtherDealt(s, e);
    }
  }

  lemma WaitingIsEmpty(s: State, j: nat)
    requires Shape(s) && AllParsersOk(s) && s.pc.Waiting? && j < |s.parsers|
    ensures s.parsers[j].chain == []
  {
    assert ParserOk(s, j);
    if j < Batch(s) {
      assert |Parsed(s.parsers[j].chain) + Left(s.parsers[j])| == 0;
    }
  }

  /** No step of any thread breaks the bookkeeping of the two arrays or the
      order of what is handed over. */
  lemma StepKeepsInv(s: State, e: Event, start: int)
    requires Inv(s, start) && Enabled(s, e)
    ensures Inv(Step(s, e), start)
  {
    StepParsers(s, e);
    if e.Switch? {
      forall j | 0 <= j < |s.parsers|
        ensures s.parsers[j].chain == []
      {
        WaitingIsEmpty(s, j);
      }
    }
    StepJobs(s, e);
    StepCounted(s, e);
    StepInOrder(s, e, Step(s, e), start);
  }

  lemma {:induction false} RunKeepsInv(threads: nat, bufferSize: nat, start: int, events: seq<Event>)
    ensures Inv(Run(threads, bufferSize, start, events), start)
  {
    if events == [] {
      var s := Run(threads, bufferSize, start, events);
      forall j | 0 <= j < |s.parsers|
        ensures ParserOk(s, j)
      {
      }
    } else {
      RunKeepsInv(threads, bufferSize, start, events[..|events| - 1]);
      var s, e := Run(threads, bufferSize, start, events[..|events| - 1]), events[|events| - 1];
      if Enabled(s, e) {
        StepKeepsInv(s, e, start);
      }
    }
  }

  lemma DealtIsPrefix(s: State)
    requires Shape(s) && Placed(s)
    ensures Dealt(s) <= Flat(s.fed)
    ensures s.pc.Waiting? || (s.pc.Feeding? && s.base == |s.fed|) ==> Dealt(s) == Flat(s.fed)
  {
    assert s.fed[..|s.fed|] == s.fed;
    if s.pc.Feeding? {
      FlatPrefix(s.fed, s.base);
    } else if s.pc.Collecting? {
      FlatNext(s.fed, s.base + s.pc.i);
      FlatPrefix(s.fed, s.base + s.pc.i + 1);
    }
  }

  /** At any moment of any run, what was handed to the data threads is what the
      sequential replay hands over for the records dealt with so far, which are
      the first records of the log; between batches these are all records fed. */
  lemma SameAsSequential(threads: nat, bufferSize: nat, start: int, events: seq<Event>)
    ensures var s := Run(threads, bufferSize, start, events);
      && Shape(s) && Placed(s) && s.dispatched == Filter(Dealt(s), start) && Dealt(s) <= Flat(s.fed)
      && (s.pc.Waiting? || (s.pc.Feeding? && s.base == |s.fed|) ==> s.dispatched == Filter(Flat(s.fed), start))
  {
    RunKeepsInv(threads, bufferSize, start, events);
    DealtIsPrefix(Run(threads, bufferSize, start, events));
  }

  lemma {:induction false} FlatPrefix(buffers: seq<seq<Rec>>, i: nat)
    requires i <= |buffers|
    ensures Flat(buffers[..i]) <= Flat(buffers)
  {
    if i == |buffers| {
      assert buffers[..i] == buffers;
    } else {
      var n := |buffers| - 1;
      FlatPrefix(buffers[..n], i);
      assert buffers[..n][..i] == buffers[..i];
    }
  }

  /** A free slot for the next record, and no owed record in a buffer that was
      given back. */
  ghost predicate Unshared(s: State) {
    && Shape(s)
    && (forall i: nat :: Enabled(s, ParseOne(i)) ==> s.elt < Limit(s) && forall job :: job in s.owed[s.arr] ==> job.slot != s.elt)
    && (forall job :: job in s.owed[0] || job in s.owed[1] ==> s.prev <= job.buffer < |s.fed|)
  }

  lemma InvUnshared(s: State, start: int)
    requires Inv(s, start)
    ensures Unshared(s)
  {
    forall i: nat | Enabled(s, ParseOne(i))
      ensures s.elt < Limit(s) && forall job :: job in s.owed[s.arr] ==> job.slot != s.elt
    {
      SlotIsFree(s, start, i);
    }
  }

  /** In any run, every record is parsed into a slot inside the array that no
      data thread still uses, and a buffer is given back only when no record in
      it is still owed. */
  lemma NothingReused(threads: nat, bufferSize: nat, start: int, events: seq<Event>)
    ensures Unshared(Run(threads, bufferSize, start, events))
  {
    RunKeepsInv(threads, bufferSize, start, events);
    InvUnshared(Run(threads, bufferSize, start, events), start);
  }
}
