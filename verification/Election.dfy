/**
 Master election: a two-phase protocol (pre-set, then commit) that several
 candidates may run at the same time.

 Servers are numbered by their place in the cluster's server array, which is
 the same on every server. Each server keeps the next master it has promised
 to accept and the master it currently follows. A round is a candidate walking
 the array twice; every call to another server is one atomic step, and steps of
 different rounds interleave freely. Calls are delivered and answered.
 */
module Election {
  import opened Wrappers

  datatype Code = Ok | Exist | Busy | NotExist

  /** One server's election variables. */
  datatype View = View(next: Option<nat>, master: Option<nat>)

  function PreSet(v: View, candidate: nat): (Code, View) {
    if v.next == None then (Ok, v.(next := Some(candidate)))
    else if v.next != Some(candidate) then (Exist, v.(next := None))
    else (Ok, v)
  }

  function Commit(v: View, candidate: nat): (Code, View) {
    if v.next == None then (Busy, v)
    else if v.next != Some(candidate) then (Busy, v.(next := None))
    else (Ok, View(None, Some(candidate)))
  }

  /** The handler for a call from another server: a server that believes it is
      master refuses and steps down. */
  function Deal(v: View, me: nat, candidate: nat, commit: bool): (Code, View) {
    if v.master == Some(me) then (Exist, v.(master := None))
    else if commit then Commit(v, candidate)
    else PreSet(v, candidate)
  }

  /** A call inside a round: a candidate calls itself directly. */
  function Call(v: View, me: nat, candidate: nat, commit: bool): (Code, View) {
    if me == candidate then (if commit then Commit(v, candidate) else PreSet(v, candidate))
    else Deal(v, me, candidate, commit)
  }

  /** Where a candidate is in its round: the index of the next server to call. */
  datatype Round = Idle | PreSetting(at: nat) | Committing(at: nat)

  datatype Cluster = Cluster(views: seq<View>, rounds: seq<Round>)

  datatype Event =
    | Start(server: nat)                // begin a round naming itself
    | Advance(server: nat)              // next call of the round
    | Unset(server: nat)                // lost master, or asked to reselect
    | Follow(server: nat, leader: nat)  // adopt a master another server reported

  function NextRound(r: Round, n: nat): Round {
    match r
    case Idle => Idle
    case PreSetting(i) => if i + 1 < n then PreSetting(i + 1) else Committing(0)
    case Committing(i) => if i + 1 < n then Committing(i + 1) else Idle
  }

  ghost predicate WellFormed(c: Cluster) {
    && |c.views| == |c.rounds|
    && (forall s :: 0 <= s < |c.rounds| && !c.rounds[s].Idle? ==> c.rounds[s].at < |c.views|)
  }

  function Step(c: Cluster, e: Event): (c': Cluster)
    requires WellFormed(c)
    ensures WellFormed(c') && |c'.views| == |c.views|
  {
    var n := |c.views|;
    match e
    case Start(s) =>
      if s < n && c.rounds[s].Idle? then c.(rounds := c.rounds[s := PreSetting(0)]) else c
    case Advance(s) =>
      if s < n && !c.rounds[s].Idle? then
        var r := c.rounds[s];
        var (code, v) := Call(c.views[r.at], r.at, s, r.Committing?);
        Cluster(c.views[r.at := v],
                c.rounds[s := if code == Ok then NextRound(r, n) else Idle])
      else c
    case Unset(s) =>
      if s < n then c.(views := c.views[s := c.views[s].(master := None)]) else c
    case Follow(s, m) =>
      if s < n && m != s then c.(views := c.views[s := c.views[s].(master := Some(m))]) else c
  }

  /** The cluster starts with no promises, no masters and no rounds. */
  function Initial(n: nat): (c: Cluster)
    ensures WellFormed(c) && |c.views| == n
  {
    Cluster(seq(n, _ => View(None, None)), seq(n, _ => Idle))
  }

  function Run(n: nat, events: seq<Event>): (c: Cluster)
    ensures WellFormed(c) && |c.views| == n
    decreases |events|
  {
    if events == [] then Initial(n)
    else Step(Run(n, events[..|events| - 1]), events[|events| - 1])
  }

  // -------------------------------------------------------------- invariant

  ghost predicate IsMaster(c: Cluster, s: nat)
    requires s < |c.views|
  {
    c.views[s].master == Some(s)
  }

  ghost predicate Promised(c: Cluster, s: nat)
    requires s < |c.views|
  {
    c.views[s].next == Some(s)
  }

  /** s has already pre-set t in its current round. */
  ghost predicate HasPreSet(c: Cluster, s: nat, t: nat)
    requires s < |c.rounds|
  {
    match c.rounds[s]
    case Idle => false
    case PreSetting(i) => i > t
    case Committing(_) => true
  }

  ghost predicate HasCommitted(c: Cluster, s: nat, t: nat)
    requires s < |c.rounds|
  {
    c.rounds[s].Committing? && c.rounds[s].at > t
  }

  /** The three facts about two candidates, the lower one first in the array. */
  ghost predicate PairOk(c: Cluster, low: nat, high: nat)
    requires low < |c.views| && high < |c.views| && |c.views| == |c.rounds|
  {
    && !(IsMaster(c, low) && IsMaster(c, high))
    && (IsMaster(c, low) && HasCommitted(c, high, low) ==> !Promised(c, high))
    && (IsMaster(c, high) && HasPreSet(c, low, high) ==> !Promised(c, low))
    && (HasCommitted(c, high, low) && HasPreSet(c, low, high) && Promised(c, low) ==> !Promised(c, high))
  }

  ghost predicate Inv(c: Cluster) {
    && WellFormed(c)
    && (forall low, high :: 0 <= low < high < |c.views| ==> PairOk(c, low, high))
  }

  lemma AdvanceKeepsPair(c: Cluster, s: nat, low: nat, high: nat)
    requires Inv(c) && low < high < |c.views| && s < |c.views|
    ensures PairOk(Step(c, Advance(s)), low, high)
  {
    assert PairOk(c, low, high);
    if !c.rounds[s].Idle? {
      var r := c.rounds[s];
      if r.at == low {
      } else if r.at == high {
      } else {
      }
    }
  }

  lemma StepKeepsInv(c: Cluster, e: Event)
    requires Inv(c)
    ensures Inv(Step(c, e))
  {
    var c' := Step(c, e);
    forall low, high | 0 <= low < high < |c'.views|
      ensures PairOk(c', low, high)
    {
      assert PairOk(c, low, high);
      if e.Advance? && e.server < |c.views| {
        AdvanceKeepsPair(c, e.server, low, high);
      }
    }
  }

  lemma {:induction false} RunKeepsInv(n: nat, events: seq<Event>)
    ensures Inv(Run(n, events))
    decreases |events|
  {
    if events != [] {
      RunKeepsInv(n, events[..|events| - 1]);
      StepKeepsInv(Run(n, events[..|events| - 1]), events[|events| - 1]);
    }
  }

  /** Election safety: at most one server considers itself master, in every
      state of every interleaving, for any number of servers. */
  lemma AtMostOneMaster(n: nat, events: seq<Event>)
    ensures forall s1, s2 :: 0 <= s1 < n && 0 <= s2 < n && IsMaster(Run(n, events), s1) && IsMaster(Run(n, events), s2) ==>
              s1 == s2
  {
    RunKeepsInv(n, events);
    var c := Run(n, events);
    forall low, high | 0 <= low < high < n
      ensures !(IsMaster(c, low) && IsMaster(c, high))
    {
      assert PairOk(c, low, high);
    }
  }

  // --------------------------------------------------- an uncontested round

  ghost predicate AllIdle(c: Cluster) {
    |c.views| == |c.rounds| && forall j :: 0 <= j < |c.rounds| ==> c.rounds[j] == Idle
  }

  /** Server j would not let s pass: it has promised to accept another, or it
      believes to be master itself. */
  predicate Obstructs(v: View, j: nat, s: nat) {
    (v.next.Some? && v.next != Some(s)) || (j != s && v.master == Some(j))
  }

  ghost predicate Quiet(c: Cluster, s: nat) {
    AllIdle(c) && s < |c.views| && forall j :: 0 <= j < |c.views| ==> !Obstructs(c.views[j], j, s)
  }

  function Advances(c: Cluster, s: nat, k: nat): (c': Cluster)
    requires WellFormed(c)
    ensures WellFormed(c') && |c'.views| == |c.views|
  {
    if k == 0 then c else Step(Advances(c, s, k - 1), Advance(s))
  }

  /** The cluster when the first k servers have taken the promise. */
  function PreSetTo(c: Cluster, s: nat, k: nat): (p: Cluster)
    requires WellFormed(c) && s < |c.views| && k <= |c.views|
    ensures WellFormed(p) && |p.views| == |c.views|
  {
    Cluster(seq(|c.views|, j requires 0 <= j < |c.views| => if j < k then c.views[j].(next := Some(s)) else c.views[j]),
            c.rounds[s := if k < |c.views| then PreSetting(k) else Committing(0)])
  }

  /** The cluster when the first k servers have committed to the candidate. */
  function CommittedTo(c: Cluster, s: nat, k: nat): (p: Cluster)
    requires WellFormed(c) && s < |c.views| && k <= |c.views|
    ensures WellFormed(p) && |p.views| == |c.views|
  {
    Cluster(seq(|c.views|, j requires 0 <= j < |c.views| => if j < k then View(None, Some(s)) else c.views[j].(next := Some(s))),
            c.rounds[s := if k < |c.views| then Committing(k) else Idle])
  }

  lemma PreSetOne(c: Cluster, s: nat, k: nat)
    requires Quiet(c, s) && k < |c.views|
    ensures Step(PreSetTo(c, s, k), Advance(s)) == PreSetTo(c, s, k + 1)
  {
    assert Call(c.views[k], k, s, false) == (Ok, c.views[k].(next := Some(s)));
    assert Step(PreSetTo(c, s, k), Advance(s)).views == PreSetTo(c, s, k + 1).views;
  }

  lemma CommitOne(c: Cluster, s: nat, k: nat)
    requires Quiet(c, s) && k < |c.views|
    ensures Step(CommittedTo(c, s, k), Advance(s)) == CommittedTo(c, s, k + 1)
  {
    assert Call(c.views[k].(next := Some(s)), k, s, true) == (Ok, View(None, Some(s)));
    assert Step(CommittedTo(c, s, k), Advance(s)).views == CommittedTo(c, s, k + 1).views;
  }

  lemma AllPreSet(c: Cluster, s: nat)
    requires WellFormed(c) && s < |c.views|
    ensures PreSetTo(c, s, |c.views|) == CommittedTo(c, s, 0)
  {
    assert PreSetTo(c, s, |c.views|).views == CommittedTo(c, s, 0).views;
  }

  /** The cluster after i calls of the round. */
  function AfterCalls(c: Cluster, s: nat, i: nat): Cluster
    requires WellFormed(c) && s < |c.views| && i <= 2 * |c.views|
  {
    if i < |c.views| then PreSetTo(c, s, i) else CommittedTo(c, s, i - |c.views|)
  }

  lemma OneCall(c: Cluster, s: nat, i: nat)
    requires Quiet(c, s) && i < 2 * |c.views|
    ensures WellFormed(AfterCalls(c, s, i)) && Step(AfterCalls(c, s, i), Advance(s)) == AfterCalls(c, s, i + 1)
  {
    if i < |c.views| {
      PreSetOne(c, s, i);
      AllPreSet(c, s);
    } else {
      CommitOne(c, s, i - |c.views|);
    }
  }

  lemma NextCall(c: Cluster, s: nat, d: Cluster, i: nat)
    requires Quiet(c, s) && WellFormed(d) && i < 2 * |c.views| && Advances(d, s, i) == AfterCalls(c, s, i)
    ensures Advances(d, s, i + 1) == AfterCalls(c, s, i + 1)
  {
    OneCall(c, s, i);
  }

  lemma {:induction false} AllCalls(c: Cluster, s: nat, d: Cluster, k: nat)
    requires Quiet(c, s) && WellFormed(d) && d == AfterCalls(c, s, 0) && k <= 2 * |c.views|
    ensures Advances(d, s, k) == AfterCalls(c, s, k)
  {
    if k > 0 {
      AllCalls(c, s, d, k - 1);
      NextCall(c, s, d, k - 1);
    }
  }

  lemma RoundIsOver(c: Cluster, s: nat, j: nat)
    requires Quiet(c, s) && j < |c.views|
    ensures var c' := AfterCalls(c, s, 2 * |c.views|);
      |c'.views| == |c.rounds| == |c'.rounds| == |c.views| && c'.views[j] == View(None, Some(s)) && c'.rounds[j] == Idle
  {
  }

  lemma RoundStarts(c: Cluster, s: nat)
    requires Quiet(c, s)
    ensures Step(c, Start(s)) == PreSetTo(c, s, 0)
  {
    assert c.views == PreSetTo(c, s, 0).views;
  }

  /** A round nobody interferes with, started when no server obstructs it, ends with every server following the candidate and no promise left. */
  lemma UncontestedRoundWins(c: Cluster, s: nat)
    requires Quiet(c, s)
    ensures var c' := Advances(Step(c, Start(s)), s, 2 * |c.views|);
      forall j :: 0 <= j < |c.views| ==> c'.views[j] == View(None, Some(s)) && c'.rounds[j] == Idle
  {
    RoundStarts(c, s);
    AllCalls(c, s, Step(c, Start(s)), 2 * |c.views|);
    forall j | 0 <= j < |c.views|
      ensures var c' := AfterCalls(c, s, 2 * |c.views|); c'.views[j] == View(None, Some(s)) && c'.rounds[j] == Idle
    {
      RoundIsOver(c, s, j);
    }
  }

  // ------------------------------------------------------ choosing the candidate

  datatype ServerStatus = ServerStatus(dataVersion: int, isMaster: bool, status: int, serverId: int)

  function Bit(b: bool): int { if b then 1 else 0 }

  function CmpStatus(s1: ServerStatus, s2: ServerStatus): int {
    if s1.dataVersion < s2.dataVersion then -1
    else if s1.dataVersion > s2.dataVersion then 1
    else if Bit(s1.isMaster) - Bit(s2.isMaster) != 0 then Bit(s1.isMaster) - Bit(s2.isMaster)
    else if s1.status - s2.status != 0 then s1.status - s2.status
    else s1.serverId - s2.serverId
  }

  lemma CmpIsTotalOrder(s1: ServerStatus, s2: ServerStatus, s3: ServerStatus)
    ensures CmpStatus(s1, s2) == 0 <==> s1 == s2
    ensures CmpStatus(s1, s2) > 0 <==> CmpStatus(s2, s1) < 0
    ensures CmpStatus(s1, s2) <= 0 && CmpStatus(s2, s3) <= 0 ==> CmpStatus(s1, s3) <= 0
  {
  }

  ghost predicate IsLast(statuses: seq<ServerStatus>, best: ServerStatus) {
    best in statuses && forall s :: s in statuses ==> CmpStatus(s, best) <= 0
  }

  /** The last element of the sorted replies. */
  method GetMaster(statuses: seq<ServerStatus>) returns (best: ServerStatus)
    requires statuses != []
    ensures IsLast(statuses, best)
    ensures forall s :: s in statuses ==> s.dataVersion <= best.dataVersion
    ensures forall s :: s in statuses && s.dataVersion == best.dataVersion && s.isMaster ==> best.isMaster
    ensures forall s :: s in statuses && s.dataVersion == best.dataVersion && s.isMaster == best.isMaster ==>
              s.status < best.status || (s.status == best.status && s.serverId <= best.serverId)
  {
    best := statuses[0];
    for i := 1 to |statuses|
      invariant best in statuses
      invariant forall j :: 0 <= j < i ==> CmpStatus(statuses[j], best) <= 0
    {
      if CmpStatus(statuses[i], best) > 0 {
        forall j | 0 <= j < i
          ensures CmpStatus(statuses[j], statuses[i]) <= 0
        {
          CmpIsTotalOrder(statuses[j], best, statuses[i]);
        }
        best := statuses[i];
      }
    }
  }

  /** Servers that collected the same replies, in any order, name the same
      candidate; so at most one of them starts a round. */
  lemma SameRepliesSameCandidate(r1: seq<ServerStatus>, r2: seq<ServerStatus>, b1: ServerStatus, b2: ServerStatus)
    requires multiset(r1) == multiset(r2)
    requires IsLast(r1, b1) && IsLast(r2, b2)
    ensures b1 == b2
  {
    assert b1 in multiset(r1) && b2 in multiset(r2);
    assert b1 in r2 && b2 in r1;
    CmpIsTotalOrder(b1, b2, b1);
  }

  // ----------------------------------------------------- one server's variables

  class ClusterServer {
    const me: nat
    var nextMaster: Option<nat>
    var master: Option<nat>
    // one flag per server of the array: the local idea of who is master
    const isMaster: array<bool>

    ghost predicate Valid()
      reads this, isMaster
    {
      && me < isMaster.Length
      && (nextMaster.Some? ==> nextMaster.value < isMaster.Length)
      && (forall j :: 0 <= j < isMaster.Length ==> (isMaster[j] <==> master == Some(j)))
    }

    ghost function ViewOf(): View
      reads this
    {
      View(nextMaster, master)
    }

    constructor (me: nat, n: nat)
      requires me < n
      ensures Valid() && this.me == me && isMaster.Length == n && fresh(isMaster)
      ensures ViewOf() == View(None, None)
    {
      this.me := me;
      nextMaster, master := None, None;
      isMaster := new bool[n](_ => false);
    }

    method PreSetMaster(candidate: nat) returns (code: Code)
      requires Valid() && candidate < isMaster.Length
      modifies this`nextMaster
      ensures Valid() && (code, ViewOf()) == PreSet(old(ViewOf()), candidate)
    {
      if nextMaster == None {
        nextMaster := Some(candidate);
      } else if nextMaster != Some(candidate) {
        nextMaster := None;
        return Exist;
      }
      return Ok;
    }

    method UnsetMaster()
      requires Valid()
      modifies this`master, isMaster
      ensures Valid() && ViewOf() == old(ViewOf()).(master := None)
    {
      if master.Some? {
        if master.value < isMaster.Length {
          isMaster[master.value] := false;
        }
        master := None;
      }
    }

    /** Switching the master pointer and refreshing every server's flag. */
    method SetMaster(newMaster: nat)
      requires Valid() && newMaster < isMaster.Length
      modifies this`master, isMaster
      ensures Valid() && ViewOf() == old(ViewOf()).(master := Some(newMaster))
    {
      if master == Some(newMaster) {
        return;
      }
      master := Some(newMaster);
      for i := 0 to isMaster.Length
        modifies isMaster
        invariant forall j :: 0 <= j < i ==> (isMaster[j] <==> j == newMaster)
      {
        var newValue := i == newMaster;
        if isMaster[i] != newValue {
          isMaster[i] := newValue;
        }
      }
    }

    method CommitMaster(candidate: nat) returns (code: Code)
      requires Valid() && candidate < isMaster.Length
      modifies this`nextMaster, this`master, isMaster
      ensures Valid() && (code, ViewOf()) == Commit(old(ViewOf()), candidate)
    {
      if nextMaster == None {
        return Busy;
      }
      if nextMaster != Some(candidate) {
        nextMaster := None;
        return Busy;
      }
      SetMaster(candidate);
      nextMaster := None;
      return Ok;
    }

    /** The request handler for both phases. */
    method DealNextMaster(candidate: nat, commit: bool) returns (code: Code)
      requires Valid()
      modifies this`nextMaster, this`master, isMaster
      ensures Valid()
      ensures candidate < isMaster.Length || old(master) == Some(me) ==>
                (code, ViewOf()) == Deal(old(ViewOf()), me, candidate, commit)
      ensures candidate >= isMaster.Length && old(master) != Some(me) ==>
                code == NotExist && ViewOf() == old(ViewOf())
    {
      if master == Some(me) {
        UnsetMaster();
        return Exist;
      }
      if candidate >= isMaster.Length {
        return NotExist;
      }
      if commit {
        code := CommitMaster(candidate);
      } else {
        code := PreSetMaster(candidate);
      }
    }
  }
}
