/** A pedestrian that has Mtx crosses, whatever arrives behind it: new calls queue at Mtx.

    Threads waiting for Mtx do not count here, so a state is looked at with them at rest. */
module CrossWalkService {
  import opened Machines
  import opened Options
  import opened Fairness
  import opened CrossWalk

  predicate Queueing(p: Pc) { p.CarLockMtx? || p.WalkLockMtx? }

  function AtRest(p: Pc): Pc { if Queueing(p) then Idle else p }

  function WithoutQueue(s: State): State { s.(pc := map t | t in s.pc :: AtRest(s.pc[t])) }

  /** Between taking Mtx and the return of PedestrianStartCrossRoad. */
  predicate Walking(p: Pc) { p.WalkRaise? || FlagRaised(p) }

  ghost predicate OnItsWay(threads: set<Tid>, p: Tid, s: State) {
    Inv(s) && s.pc.Keys == threads && p in threads && s.mtx == Some(p) && (Walking(s.pc[p]) || s.pc[p].Crossing?)
  }

  lemma WithoutQueueLocks(s: State)
    requires MtxOk(s) && RoadMtxOk(s) && CvOk(s)
    ensures MtxOk(WithoutQueue(s)) && RoadMtxOk(WithoutQueue(s)) && CvOk(WithoutQueue(s))
  {}

  lemma WithoutQueueRoad(s: State)
    requires CountOk(s) && Quiet(s)
    ensures CountOk(WithoutQueue(s)) && Quiet(WithoutQueue(s))
  {
    assert OnRoad(WithoutQueue(s)) == OnRoad(s);
  }

  lemma WithoutQueueInv(s: State)
    requires Inv(s)
    ensures Inv(WithoutQueue(s))
  {
    WithoutQueueLocks(s);
    WithoutQueueRoad(s);
    assert FlagOk(WithoutQueue(s)) && NoLostWakeup(WithoutQueue(s));
  }

  /** With Mtx taken the queue does not move, and the others move as if it were not there. */
  lemma StepWithoutQueue(s: State, t: Tid)
    requires s.mtx.Some? && t in s.pc
    ensures Enabled(s, t) <==> Enabled(WithoutQueue(s), t)
    ensures WithoutQueue(Do(s, Step(t))) == Advance(WithoutQueue(s), t)
  {
    if Enabled(s, t) {
      PcMove(s, t);
      PcMove(WithoutQueue(s), t);
      assert WithoutQueue(Take(s, t)).pc == Take(WithoutQueue(s), t).pc;
    }
  }

  lemma CallsJoinTheQueue(s: State, a: Action)
    requires !a.Step?
    ensures WithoutQueue(Do(s, a)) == WithoutQueue(s)
  {
    assert WithoutQueue(Do(s, a)).pc == WithoutQueue(s).pc;
  }

  ghost function RoadRank(s: State): nat { Rank(WithoutQueue(s)) }

  lemma StaysOnItsWay(threads: set<Tid>, p: Tid, s: State, a: Action)
    requires OnItsWay(threads, p, s) && !s.pc[p].Crossing?
    ensures OnItsWay(threads, p, Do(s, a))
  {
    DoKeepsInv(s, a);
    if a.Step? && Enabled(s, a.t) { PcMove(s, a.t); }
  }

  /** A step that brings the crossing nearer. */
  ghost predicate Moves(s: State, a: Action) {
    a.Step? && Enabled(WithoutQueue(s), a.t) && !Spin(WithoutQueue(s), a.t)
  }

  lemma RoadRankFalls(threads: set<Tid>, p: Tid, s: State, a: Action)
    requires OnItsWay(threads, p, s)
    ensures RoadRank(Do(s, a)) <= RoadRank(s)
    ensures RoadRank(Do(s, a)) < RoadRank(s) <==> Moves(s, a)
  {
    if !a.Step? {
      CallsJoinTheQueue(s, a);
    } else if a.t in s.pc {
      StepWithoutQueue(s, a.t);
      WithoutQueueInv(s);
      if Enabled(WithoutQueue(s), a.t) { AdvanceRank(WithoutQueue(s), a.t); }
    }
  }

  lemma MovesSurvive(threads: set<Tid>, p: Tid, s: State, a: Action, u: Action)
    requires OnItsWay(threads, p, s) && Moves(s, a) && !Moves(s, u)
    ensures Moves(Do(s, u), a)
  {
    if !u.Step? {
      CallsJoinTheQueue(s, u);
    } else if u.t in s.pc {
      StepWithoutQueue(s, u.t);
      WithoutQueueInv(s);
      SpinsDoNotDisable(WithoutQueue(s), a.t, u.t);
    }
  }

  lemma SomeoneMoves(threads: set<Tid>, p: Tid, s: State) returns (t: Tid)
    requires OnItsWay(threads, p, s)
    ensures t in threads && Moves(s, Step(t))
  {
    WithoutQueueInv(s);
    assert !WithoutQueue(s).pc[p].Idle?;
    t := SomeoneAdvances(WithoutQueue(s));
  }

  function StepsOf(threads: set<Tid>): set<Action> { set t | t in threads :: Step(t) }

  lemma RoadRankIsFair(threads: set<Tid>, p: Tid)
    ensures RankedUntil(Do, (s: State) => OnItsWay(threads, p, s), (s: State) => IsCrossing(s, p), RoadRank)
    ensures NeverStuck(Do, (s: State) => OnItsWay(threads, p, s), (s: State) => IsCrossing(s, p), RoadRank, StepsOf(threads))
  {
    forall s: State, a: Action | OnItsWay(threads, p, s) && !IsCrossing(s, p)
      ensures OnItsWay(threads, p, Do(s, a)) && RoadRank(Do(s, a)) <= RoadRank(s)
    {
      StaysOnItsWay(threads, p, s, a);
      RoadRankFalls(threads, p, s, a);
    }
    forall s: State, a: Action | OnItsWay(threads, p, s) ensures Useful(Do, RoadRank, s, a) <==> Moves(s, a) {
      RoadRankFalls(threads, p, s, a);
    }
    forall s: State, a: Action, u: Action | OnItsWay(threads, p, s) && !IsCrossing(s, p) && Useful(Do, RoadRank, s, a)
                                            && RoadRank(Do(s, u)) == RoadRank(s)
      ensures Useful(Do, RoadRank, Do(s, u), a)
    {
      MovesSurvive(threads, p, s, a, u);
      assert OnItsWay(threads, p, Do(s, u));
    }
    forall s: State | OnItsWay(threads, p, s) && !IsCrossing(s, p)
      ensures exists a :: a in StepsOf(threads) && Useful(Do, RoadRank, s, a)
    {
      var t := SomeoneMoves(threads, p, s);
      assert Step(t) in StepsOf(threads) && Useful(Do, RoadRank, s, Step(t));
    }
  }

  /** Whatever calls arrive meanwhile, a pedestrian that has Mtx crosses under every fair schedule. */
  lemma PedestrianCrosses(init: State, schedule: seq<Action>, p: Tid, f: nat -> Action) returns (k: nat)
    requires Init(init) && Fair(f, StepsOf(init.pc.Keys))
    requires var s := Run(Do, init, schedule); p in s.pc && Walking(s.pc[p])
    ensures IsCrossing(After(Do, f, Run(Do, init, schedule), k), p)
  {
    var s, threads := Run(Do, init, schedule), init.pc.Keys;
    ReachableInv(init, schedule);
    SameThreads(init, schedule);
    RoadRankIsFair(threads, p);
    k := FairRunsReach(Do, (x: State) => OnItsWay(threads, p, x), (x: State) => IsCrossing(x, p), RoadRank, StepsOf(threads), f, s, 0);
  }
}
