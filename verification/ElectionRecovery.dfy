/**
 Promises and masters that broken-off rounds have left behind do not block an
 election for good: each costs the next candidate one round.
 */
module ElectionRecovery {
  import opened Wrappers
  import opened Election

  // ----------------------------------------------------------------- one round

  /** A whole round of s that nobody else joins; once it has ended, more calls do
      nothing. */
  function RoundBy(c: Cluster, s: nat): (c': Cluster)
    requires WellFormed(c)
    ensures WellFormed(c') && |c'.views| == |c.views|
  {
    Advances(Step(c, Start(s)), s, 2 * |c.views|)
  }

  lemma IdleStep(c: Cluster, s: nat)
    requires WellFormed(c) && s < |c.views| && c.rounds[s] == Idle
    ensures Step(c, Advance(s)) == c
  {
  }

  lemma PreSetNext(c: Cluster, s: nat, k: nat)
    requires AllIdle(c) && s < |c.views| && k < |c.views| && !Obstructs(c.views[k], k, s)
    ensures Step(PreSetTo(c, s, k), Advance(s)) == PreSetTo(c, s, k + 1)
  {
    assert Call(c.views[k], k, s, false) == (Ok, c.views[k].(next := Some(s)));
    assert Step(PreSetTo(c, s, k), Advance(s)).views == PreSetTo(c, s, k + 1).views;
  }

  lemma {:induction false} PreSetCalls(c: Cluster, s: nat, k: nat)
    requires AllIdle(c) && s < |c.views| && k <= |c.views| && forall j :: 0 <= j < k ==> !Obstructs(c.views[j], j, s)
    ensures Advances(Step(c, Start(s)), s, k) == PreSetTo(c, s, k)
  {
    if k == 0 {
      assert c.views == PreSetTo(c, s, 0).views;
    } else {
      PreSetCalls(c, s, k - 1);
      PreSetNext(c, s, k - 1);
    }
  }

  /** What the refusal leaves of an obstacle: the master steps down, or the
      promise is given up. */
  function Freed(v: View, j: nat, s: nat): View {
    if j != s && v.master == Some(j) then v.(master := None) else v.(next := None)
  }

  /** The cluster after a round that server k refused. */
  function Stopped(c: Cluster, s: nat, k: nat): Cluster
    requires WellFormed(c) && s < |c.views| && k < |c.views|
  {
    Cluster(PreSetTo(c, s, k).views[k := Freed(c.views[k], k, s)], c.rounds)
  }

  lemma CallRefused(c: Cluster, s: nat, k: nat)
    requires AllIdle(c) && s < |c.views| && k < |c.views| && Obstructs(c.views[k], k, s)
    ensures Step(PreSetTo(c, s, k), Advance(s)) == Stopped(c, s, k)
  {
    assert Call(c.views[k], k, s, false) == (Exist, Freed(c.views[k], k, s));
    assert c.rounds[s := PreSetting(k)][s := Idle] == c.rounds;
  }

  /** A round goes as far as the first server that obstructs it, and removes that
      obstacle. */
  lemma RoundStops(c: Cluster, s: nat, k: nat)
    requires AllIdle(c) && s < |c.views| && k < |c.views| && Obstructs(c.views[k], k, s)
    requires forall j :: 0 <= j < k ==> !Obstructs(c.views[j], j, s)
    ensures RoundBy(c, s) == Stopped(c, s, k)
  {
    var n, d := |c.views|, Step(c, Start(s));
    PreSetCalls(c, s, k);
    CallRefused(c, s, k);
    StaysStopped(d, s, k, Stopped(c, s, k), 2 * n);
  }

  lemma {:induction false} StaysStopped(d: Cluster, s: nat, k: nat, stopped: Cluster, m: nat)
    requires WellFormed(d) && s < |d.views| && Step(Advances(d, s, k), Advance(s)) == stopped && k < m
    requires stopped.rounds[s] == Idle
    ensures Advances(d, s, m) == stopped
    decreases m
  {
    if m > k + 1 {
      StaysStopped(d, s, k, stopped, m - 1);
      IdleStep(stopped, s);
    }
  }

  /** What one call of a round does, whatever else is under way: a server that
      believes to be master steps down and ends the round; a promise to another is
      given up and ends the round; otherwise the first phase leaves a promise, and
      the second makes the promised candidate the master and ends the promise. */
  lemma CallOutcome(c: Cluster, s: nat, c': Cluster)
    requires WellFormed(c) && s < |c.views| && !c.rounds[s].Idle? && c' == Step(c, Advance(s))
    ensures var (k, n) := (c.rounds[s].at, |c.views|);
      var (v, v') := (c.views[k], c'.views[k]);
      var promised := v.next == Some(s) || (v.next == None && c.rounds[s].PreSetting?);
      && c'.views == c.views[k := v'] && (forall t :: 0 <= t < n && t != s ==> c'.rounds[t] == c.rounds[t])
      && (if k != s && v.master == Some(k) then v' == v.(master := None) && c'.rounds[s] == Idle
          else if !promised then v' == v.(next := None) && c'.rounds[s] == Idle
          else if c.rounds[s].PreSetting? then
            v' == v.(next := Some(s)) && c'.rounds[s] == if k + 1 < n then PreSetting(k + 1) else Committing(0)
          else v' == View(None, Some(s)) && c'.rounds[s] == if k + 1 < n then Committing(k + 1) else Idle)
  {
  }

  /** The answer to a call: agreement if and only if the called server is no other
      master and, now or before, has promised itself to the candidate; a missing or
      broken promise in the second phase is busy, anything else exists. */
  lemma CallAnswers(v: View, me: nat, s: nat, commit: bool)
    ensures var code := Call(v, me, s, commit).0;
      var otherMaster := me != s && v.master == Some(me);
      && (code == Ok <==> !otherMaster && (v.next == Some(s) || (v.next == None && !commit)))
      && (code == Busy <==> !otherMaster && commit && v.next != Some(s))
      && (code == Exist <==> otherMaster || (!commit && v.next.Some? && v.next != Some(s)))
  {
  }

  // -------------------------------------------------------------- counting obstacles

  function Weight(v: View, j: nat, s: nat): nat {
    (if v.next.Some? && v.next != Some(s) then 1 else 0) + (if j != s && v.master == Some(j) then 1 else 0)
  }

  /** The obstacles among the first i servers. */
  function Obstacles(views: seq<View>, s: nat, i: nat): nat
    requires i <= |views|
  {
    if i == 0 then 0 else Obstacles(views, s, i - 1) + Weight(views[i - 1], i - 1, s)
  }

  lemma {:induction false} NoObstacles(views: seq<View>, s: nat, i: nat)
    requires i <= |views|
    ensures Obstacles(views, s, i) == 0 <==> forall j :: 0 <= j < i ==> !Obstructs(views[j], j, s)
  {
    if i > 0 {
      NoObstacles(views, s, i - 1);
    }
  }

  /** Two for every other server, and one for the candidate itself, at most. */
  lemma {:induction false} FewObstacles(views: seq<View>, s: nat, i: nat)
    requires i <= |views|
    ensures Obstacles(views, s, i) <= 2 * i - (if s < i then 1 else 0)
  {
    if i > 0 {
      FewObstacles(views, s, i - 1);
    }
  }

  lemma {:induction false} OneLess(c: Cluster, s: nat, k: nat, i: nat)
    requires WellFormed(c) && s < |c.views| && k < |c.views| && i <= |c.views|
    requires Obstructs(c.views[k], k, s) && forall j :: 0 <= j < k ==> !Obstructs(c.views[j], j, s)
    ensures Obstacles(Stopped(c, s, k).views, s, i) == Obstacles(c.views, s, i) - (if k < i then 1 else 0)
  {
    if i > 0 {
      OneLess(c, s, k, i - 1);
    }
  }

  lemma FirstObstacle(c: Cluster, s: nat) returns (k: nat)
    requires Obstacles(c.views, s, |c.views|) > 0
    ensures k < |c.views| && Obstructs(c.views[k], k, s) && forall j :: 0 <= j < k ==> !Obstructs(c.views[j], j, s)
  {
    NoObstacles(c.views, s, |c.views|);
    k := 0;
    while !Obstructs(c.views[k], k, s)
      invariant k < |c.views| && forall j :: 0 <= j < k ==> !Obstructs(c.views[j], j, s)
      decreases |c.views| - k
    {
      k := k + 1;
    }
  }

  // ------------------------------------------------------------------- round after round

  /** Every server follows s, and no promise is left. */
  ghost predicate Won(c: Cluster, s: nat) {
    forall j :: 0 <= j < |c.views| ==> c.views[j] == View(None, Some(s))
  }

  /** r rounds of s, one after the other. */
  function RoundsBy(c: Cluster, s: nat, r: nat): (c': Cluster)
    requires WellFormed(c)
    ensures WellFormed(c') && |c'.views| == |c.views|
  {
    if r == 0 then c else RoundBy(RoundsBy(c, s, r - 1), s)
  }

  /** A round removes one obstacle, or wins when there is none. */
  lemma RoundRemovesOne(c: Cluster, s: nat, c': Cluster)
    requires AllIdle(c) && s < |c.views| && c' == RoundBy(c, s)
    ensures AllIdle(c') && |c'.views| == |c.views|
    ensures var n := Obstacles(c.views, s, |c.views|);
      if n > 0 then Obstacles(c'.views, s, |c.views|) == n - 1 else Won(c', s) && Obstacles(c'.views, s, |c.views|) == 0
  {
    if Obstacles(c.views, s, |c.views|) > 0 {
      var k := FirstObstacle(c, s);
      RoundStops(c, s, k);
      OneLess(c, s, k, |c.views|);
    } else {
      NoObstacles(c.views, s, |c.views|);
      RoundWins(c, s, c');
      NoObstacles(c'.views, s, |c.views|);
    }
  }

  lemma RoundWins(c: Cluster, s: nat, c': Cluster)
    requires Quiet(c, s) && c' == RoundBy(c, s)
    ensures AllIdle(c') && Won(c', s) && forall j :: 0 <= j < |c'.views| ==> !Obstructs(c'.views[j], j, s)
  {
    UncontestedRoundWins(c, s);
    assert c' == Advances(Step(c, Start(s)), s, 2 * |c.views|);
    forall j | 0 <= j < |c'.rounds|
      ensures c'.rounds[j] == Idle
    {
      assert c'.views[j] == View(None, Some(s));
    }
  }

  lemma {:induction false} RoundsRemove(c: Cluster, s: nat, r: nat, c': Cluster)
    requires AllIdle(c) && s < |c.views| && c' == RoundsBy(c, s, r)
    ensures AllIdle(c') && |c'.views| == |c.views|
    ensures var n := Obstacles(c.views, s, |c.views|);
      && Obstacles(c'.views, s, |c.views|) == (if r <= n then n - r else 0)
      && (r > n ==> Won(c', s))
    decreases r
  {
    if r > 0 {
      var c1 := RoundsBy(c, s, r - 1);
      RoundsRemove(c, s, r - 1, c1);
      RoundRemovesOne(c1, s, c');
    }
  }

  /** Recovery: whatever promises and masters are left over when no round is under
      way, every round of a candidate that goes on alone removes one of them, and
      the round after that wins. There are fewer than two for each server. */
  lemma Recovery(c: Cluster, s: nat, r: nat)
    requires AllIdle(c) && s < |c.views|
    ensures WellFormed(c)
    ensures var n := Obstacles(c.views, s, |c.views|);
      && n < 2 * |c.views|
      && (r > n ==> Won(RoundsBy(c, s, r), s))
      && (r < n ==> !Won(RoundsBy(c, s, r), s))
  {
    var c' := RoundsBy(c, s, r);
    RoundsRemove(c, s, r, c');
    FewObstacles(c.views, s, |c.views|);
    if Won(c', s) {
      NoObstacles(c'.views, s, |c.views|);
    }
  }
}
