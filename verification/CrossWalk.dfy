/** EN_ThreadCrossWalk: many cars share the road, one pedestrian crosses it alone.

    One step is one mutex, atomic or condition-variable operation.  The condition variable is
    its wait set `cv`; a thread at `Asleep` that is no longer in `cv` has been notified. */
module CrossWalk {
  import opened Machines
  import opened Options
  import opened Sums
  import opened Fairness

  /** The operation a thread performs next. */
  datatype Pc =
    | Idle
    // CarStartCrossRoad
    | CarLockMtx | CarLockRoad | CarAdd | CarUnlockRoad | CarUnlockMtx
    | Driving
    // CarStopCrossRoad
    | StopLockRoad | StopSub | StopTest | StopPoll | StopNotify | StopUnlock
    // PedestrianStartCrossRoad
    | WalkLockMtx | WalkRaise | WalkTest | WalkSleep | Asleep | WalkLower
    // PedestrianStopCrossRoad unlocks Mtx
    | Crossing

  datatype State = State(
    mtx: Option<Tid>,
    roadMtx: Option<Tid>,
    roadCounter: int,
    isCondVarWaiting: bool,
    cv: set<Tid>,
    pc: map<Tid, Pc>)
  {
    function At(t: Tid, next: Pc): State { this.(pc := pc[t := next]) }
  }

  /** A thread outside the object calls one of the two entry operations, or takes the step it stands at. */
  datatype Action = CallCar(t: Tid) | CallPedestrian(t: Tid) | Step(t: Tid)

  predicate Init(s: State) {
    && s.mtx == None && s.roadMtx == None && s.roadCounter == 0
    && !s.isCondVarWaiting && s.cv == {}
    && forall t | t in s.pc :: s.pc[t] == Idle
  }

  /** Mutex acquisition and waiting are the only operations that can block. */
  predicate Enabled(s: State, t: Tid) {
    && t in s.pc
    && match s.pc[t]
       case Idle => false
       case CarLockMtx => s.mtx == None
       case WalkLockMtx => s.mtx == None
       case CarLockRoad => s.roadMtx == None
       case StopLockRoad => s.roadMtx == None
       case Asleep => t !in s.cv
       case _ => true
  }

  /** Where thread control goes from `p`. */
  function Next(s: State, p: Pc): Pc {
    match p
    case Idle => Idle
    case CarLockMtx => CarLockRoad
    case CarLockRoad => CarAdd
    case CarAdd => CarUnlockRoad
    case CarUnlockRoad => CarUnlockMtx
    case CarUnlockMtx => Driving
    case Driving => StopLockRoad
    case StopLockRoad => StopSub
    case StopSub => StopTest
    case StopTest => if s.roadCounter == 0 then StopPoll else StopUnlock
    case StopPoll => if s.isCondVarWaiting then StopNotify else StopUnlock
    case StopNotify => StopPoll
    case StopUnlock => Idle
    case WalkLockMtx => WalkRaise
    case WalkRaise => WalkTest
    case WalkTest => if s.roadCounter > 0 then WalkSleep else WalkLower
    case WalkSleep => Asleep
    case Asleep => WalkLower
    case WalkLower => Crossing
    case Crossing => Idle
  }

  /** What the operation of `t` at `p` does to the shared fields. */
  function Effect(s: State, t: Tid, p: Pc): State {
    match p
    case CarLockMtx => s.(mtx := Some(t))
    case CarLockRoad => s.(roadMtx := Some(t))
    case CarAdd => s.(roadCounter := s.roadCounter + 1)
    case CarUnlockRoad => s.(roadMtx := None)
    case CarUnlockMtx => s.(mtx := None)
    case StopLockRoad => s.(roadMtx := Some(t))
    case StopSub => s.(roadCounter := s.roadCounter - 1)
    case StopNotify => s.(cv := {})
    case StopUnlock => s.(roadMtx := None)
    case WalkLockMtx => s.(mtx := Some(t))
    case WalkRaise => s.(isCondVarWaiting := true)
    case WalkSleep => s.(cv := s.cv + {t})
    case WalkLower => s.(isCondVarWaiting := false)
    case Crossing => s.(mtx := None)
    case _ => s
  }

  function Take(s: State, t: Tid): State
    requires Enabled(s, t)
  {
    Effect(s, t, s.pc[t]).(pc := s.pc[t := Next(s, s.pc[t])])
  }

  function Do(s: State, a: Action): State {
    match a
    case CallCar(t) => if t in s.pc && s.pc[t] == Idle then s.At(t, CarLockMtx) else s
    case CallPedestrian(t) => if t in s.pc && s.pc[t] == Idle then s.At(t, WalkLockMtx) else s
    case Step(t) => if Enabled(s, t) then Take(s, t) else s
  }

  // ----- the invariant

  predicate HoldsMtx(p: Pc) {
    || p.CarLockRoad? || p.CarAdd? || p.CarUnlockRoad? || p.CarUnlockMtx?
    || p.WalkRaise? || p.WalkTest? || p.WalkSleep? || p.Asleep? || p.WalkLower? || p.Crossing?
  }

  predicate HoldsRoad(p: Pc) {
    p.CarAdd? || p.CarUnlockRoad? || p.StopSub? || p.StopTest? || p.StopPoll? || p.StopNotify? || p.StopUnlock?
  }

  /** Between the increment and the decrement of the counter. */
  predicate Counted(p: Pc) {
    p.CarUnlockRoad? || p.CarUnlockMtx? || p.Driving? || p.StopLockRoad? || p.StopSub?
  }

  predicate FlagRaised(p: Pc) {
    p.WalkTest? || p.WalkSleep? || p.Asleep? || p.WalkLower?
  }

  /** In or about to enter the notify loop. */
  predicate Notifying(p: Pc) {
    p.StopTest? || p.StopPoll? || p.StopNotify?
  }

  /** The pedestrian has been let through: past the counter test, or notified. */
  predicate LetThrough(p: Pc, inCv: bool) {
    p.WalkLower? || p.Crossing? || (p.Asleep? && !inCv)
  }

  /** The pedestrian read a positive counter and has not been notified since. */
  predicate Committed(p: Pc, inCv: bool) {
    p.WalkSleep? || (p.Asleep? && inCv)
  }

  function OnRoad(s: State): set<Tid> {
    set t | t in s.pc && Counted(s.pc[t])
  }

  predicate NotifierPresent(s: State) {
    s.roadMtx.Some? && s.roadMtx.value in s.pc && Notifying(s.pc[s.roadMtx.value])
  }

  /** Mtx has one owner and its owner is where the code holds it. */
  predicate MtxOk(s: State) {
    && (s.mtx.Some? ==> s.mtx.value in s.pc)
    && forall t | t in s.pc :: HoldsMtx(s.pc[t]) <==> s.mtx == Some(t)
  }

  predicate RoadMtxOk(s: State) {
    && (s.roadMtx.Some? ==> s.roadMtx.value in s.pc)
    && forall t | t in s.pc :: HoldsRoad(s.pc[t]) <==> s.roadMtx == Some(t)
  }

  predicate CvOk(s: State) {
    forall t | t in s.cv :: t in s.pc && s.pc[t].Asleep?
  }

  predicate FlagOk(s: State) {
    s.isCondVarWaiting <==> s.mtx.Some? && s.mtx.value in s.pc && FlagRaised(s.pc[s.mtx.value])
  }

  /** Nobody polls, notifies, or walks while a car is counted. */
  predicate Quiet(s: State) {
    forall t | t in s.pc ::
      s.pc[t].StopPoll? || s.pc[t].StopNotify? || LetThrough(s.pc[t], t in s.cv) ==> s.roadCounter == 0
  }

  /** A pedestrian that will sleep, or sleeps, is still owed a notification. */
  predicate NoLostWakeup(s: State) {
    forall t | t in s.pc :: Committed(s.pc[t], t in s.cv) ==> s.roadCounter > 0 || NotifierPresent(s)
  }

  predicate Inv(s: State) {
    MtxOk(s) && RoadMtxOk(s) && CvOk(s) && FlagOk(s) && CountOk(s) && Quiet(s) && NoLostWakeup(s)
  }

  predicate CountOk(s: State) {
    s.roadCounter == |OnRoad(s)|
  }

  lemma OnRoadMove(s: State, s': State, t: Tid)
    requires t in s.pc && s'.pc.Keys == s.pc.Keys
    requires forall u | u in s.pc && u != t :: s'.pc[u] == s.pc[u]
    ensures |OnRoad(s')| == |OnRoad(s)| + (if Counted(s'.pc[t]) then 1 else 0) - (if Counted(s.pc[t]) then 1 else 0)
    ensures forall u | u in OnRoad(s) && u != t :: u in OnRoad(s')
  {
    var others := OnRoad(s) - {t};
    assert OnRoad(s) == if Counted(s.pc[t]) then others + {t} else others;
    assert OnRoad(s') == if Counted(s'.pc[t]) then others + {t} else others;
  }

  lemma InitInv(s: State)
    requires Init(s)
    ensures Inv(s)
  {
    assert OnRoad(s) == {};
  }

  lemma TakeKeepsMtx(s: State, t: Tid)
    requires MtxOk(s) && Enabled(s, t)
    ensures MtxOk(Take(s, t))
  {
  }

  lemma TakeKeepsRoadMtx(s: State, t: Tid)
    requires RoadMtxOk(s) && Enabled(s, t)
    ensures RoadMtxOk(Take(s, t))
  {
  }

  lemma TakeKeepsCv(s: State, t: Tid)
    requires CvOk(s) && Enabled(s, t)
    ensures CvOk(Take(s, t))
  {
  }

  lemma TakeKeepsFlag(s: State, t: Tid)
    requires MtxOk(s) && FlagOk(s) && Enabled(s, t)
    ensures FlagOk(Take(s, t))
  {
  }

  lemma TakeKeepsCount(s: State, t: Tid)
    requires CountOk(s) && Enabled(s, t)
    ensures CountOk(Take(s, t))
  {
    OnRoadMove(s, Take(s, t), t);
  }

  lemma TakeKeepsQuiet(s: State, t: Tid)
    requires Inv(s) && Enabled(s, t)
    ensures Quiet(Take(s, t))
  {
    if s.pc[t].StopSub? {
      assert t in OnRoad(s);
    }
  }

  lemma TakeKeepsWakeup(s: State, t: Tid)
    requires Inv(s) && Enabled(s, t)
    ensures NoLostWakeup(Take(s, t))
  {
    if s.pc[t].StopSub? {
      assert t in OnRoad(s);
    }
  }

  lemma TakeKeepsInv(s: State, t: Tid)
    requires Inv(s) && Enabled(s, t)
    ensures Inv(Take(s, t))
  {
    TakeKeepsMtx(s, t);
    TakeKeepsRoadMtx(s, t);
    TakeKeepsCv(s, t);
    TakeKeepsFlag(s, t);
    TakeKeepsCount(s, t);
    TakeKeepsQuiet(s, t);
    TakeKeepsWakeup(s, t);
  }

  lemma ArriveKeepsInv(s: State, t: Tid, entry: Pc)
    requires Inv(s) && t in s.pc && s.pc[t].Idle?
    requires entry.CarLockMtx? || entry.WalkLockMtx?
    ensures Inv(s.At(t, entry))
  {
    var s' := s.At(t, entry);
    OnRoadMove(s, s', t);
    assert MtxOk(s') && RoadMtxOk(s') && FlagOk(s');
    assert CvOk(s') && CountOk(s');
    assert Quiet(s') && NoLostWakeup(s');
  }

  lemma DoKeepsInv(s: State, a: Action)
    requires Inv(s)
    ensures Inv(Do(s, a))
  {
    match a
    case Step(t) => if Enabled(s, t) { TakeKeepsInv(s, t); }
    case CallCar(t) => if t in s.pc && s.pc[t].Idle? { ArriveKeepsInv(s, t, CarLockMtx); }
    case CallPedestrian(t) => if t in s.pc && s.pc[t].Idle? { ArriveKeepsInv(s, t, WalkLockMtx); }
  }

  /** Every reachable state, for any number of threads and any interleaving. */
  lemma ReachableInv(init: State, schedule: seq<Action>)
    requires Init(init)
    ensures Inv(Run(Do, init, schedule))
  {
    InitInv(init);
    forall s, a | Inv(s) ensures Inv(Do(s, a)) { DoKeepsInv(s, a); }
    InvariantOfRuns(Do, Inv, init, schedule);
  }

  // ----- exclusion

  /** A car between CarStartCrossRoad's return and CarStopCrossRoad's call. */
  predicate IsDriving(s: State, t: Tid) { t in s.pc && s.pc[t].Driving? }

  predicate IsCrossing(s: State, t: Tid) { t in s.pc && s.pc[t].Crossing? }

  /** While a pedestrian crosses no car is on the road and no other pedestrian crosses. */
  lemma Exclusion(init: State, schedule: seq<Action>, p: Tid, t: Tid)
    requires Init(init)
    requires IsCrossing(Run(Do, init, schedule), p)
    ensures !IsDriving(Run(Do, init, schedule), t)
    ensures IsCrossing(Run(Do, init, schedule), t) ==> t == p
  {
    ReachableInv(init, schedule);
    var s := Run(Do, init, schedule);
    assert IsDriving(s, t) ==> t in OnRoad(s);
  }

  // ----- progress: with no new arrivals every fair run empties the road

  /** One more than the most steps left on the way to Idle, notify loop aside. */
  function Weight(p: Pc): nat {
    match p
    case Idle => 0
    case CarLockMtx => 13
    case CarLockRoad => 12
    case CarAdd => 11
    case CarUnlockRoad => 10
    case CarUnlockMtx => 9
    case Driving => 8
    case StopLockRoad => 7
    case StopSub => 6
    case StopTest => 5
    case StopPoll => 4
    case StopNotify => 4
    case StopUnlock => 3
    case WalkLockMtx => 8
    case WalkRaise => 7
    case WalkTest => 6
    case WalkSleep => 5
    case Asleep => 3
    case WalkLower => 2
    case Crossing => 1
  }

  ghost function Weights(s: State): map<Tid, nat> {
    map t | t in s.pc :: Weight(s.pc[t])
  }

  /** Whether the car in the notify loop still has a step that changes something. */
  ghost function LoopWork(s: State): nat {
    if s.roadMtx.None? || s.roadMtx.value !in s.pc then 0
    else if s.pc[s.roadMtx.value].StopPoll? && s.cv != {} then 1
    else if s.pc[s.roadMtx.value].StopNotify? && s.cv == {} && !s.isCondVarWaiting then 1
    else 0
  }

  ghost function Work(s: State): nat {
    Total(Weights(s)) + |s.cv|
  }

  ghost function Rank(s: State): nat {
    2 * Work(s) + LoopWork(s)
  }

  function Advance(s: State, t: Tid): State { Do(s, Step(t)) }

  /** The two moves around the notify loop that change no mutex, counter, flag or wait set. */
  predicate Circles(s: State, t: Tid) {
    && t in s.pc
    && ((s.pc[t].StopPoll? && s.isCondVarWaiting) || (s.pc[t].StopNotify? && s.cv == {}))
  }

  lemma WeightsMove(s: State, s': State, t: Tid, p: Pc)
    requires t in s.pc && s'.pc == s.pc[t := p]
    ensures Total(Weights(s')) == Total(Weights(s)) - Weight(s.pc[t]) + Weight(p)
  {
    TotalUpdate(Weights(s), Weights(s'), t);
  }

  lemma CvMove(s: State, t: Tid)
    requires Enabled(s, t) && CvOk(s)
    ensures |Take(s, t).cv| == |s.cv| + (if s.pc[t].WalkSleep? then 1 else if s.pc[t].StopNotify? then -|s.cv| else 0)
    ensures |s.cv| == 0 <==> s.cv == {}
  {
  }

  lemma PcMove(s: State, t: Tid)
    requires Enabled(s, t)
    ensures Take(s, t).pc == s.pc[t := Next(s, s.pc[t])]
  {
  }

  lemma WeightFalls(s: State, t: Tid)
    requires Enabled(s, t)
    ensures Circles(s, t) && s.cv == {} ==> Weight(Take(s, t).pc[t]) == Weight(s.pc[t])
    ensures s.pc[t].WalkSleep? ==> Weight(Take(s, t).pc[t]) == Weight(s.pc[t]) - 2
    ensures !Circles(s, t) && !s.pc[t].StopNotify? ==> Weight(Take(s, t).pc[t]) < Weight(s.pc[t])
  {
  }

  lemma AdvanceWork(s: State, t: Tid)
    requires Enabled(s, t) && CvOk(s)
    ensures Circles(s, t) ==> Work(Advance(s, t)) == Work(s)
    ensures !Circles(s, t) ==> Work(Advance(s, t)) < Work(s)
  {
    var p, p' := s.pc[t], Take(s, t).pc[t];
    CvMove(s, t);
    WeightFalls(s, t);
    PcMove(s, t);
    WeightsMove(s, Take(s, t), t, p');
  }

  /** Polling and notifying without effect: the only steps that lower nothing. */
  predicate Spin(s: State, t: Tid) {
    Circles(s, t) && s.isCondVarWaiting && s.cv == {}
  }

  lemma AdvanceRank(s: State, t: Tid)
    requires Inv(s) && Enabled(s, t)
    ensures Spin(s, t) ==> Rank(Advance(s, t)) == Rank(s)
    ensures !Spin(s, t) ==> Rank(Advance(s, t)) < Rank(s)
  {
    AdvanceWork(s, t);
    if Circles(s, t) {
      assert s.roadMtx == Some(t);
    }
  }

  /** No thread is inside a call, on the road or crossing. */
  predicate AllIdle(s: State) {
    forall t | t in s.pc :: s.pc[t].Idle?
  }

  /** In every unfinished state some thread can take a step that is not a spin. */
  lemma SomeoneAdvances(s: State) returns (t: Tid)
    requires Inv(s) && !AllIdle(s)
    ensures Enabled(s, t) && !Spin(s, t)
  {
    if s.roadMtx.Some? && !Spin(s, s.roadMtx.value) {
      t := s.roadMtx.value;
    } else if s.mtx.Some? && !(s.pc[s.mtx.value].Asleep? && s.mtx.value in s.cv) {
      t := s.mtx.value;
      if s.pc[t].CarLockRoad? && s.roadMtx.Some? {
        assert false;
      }
    } else if s.mtx.Some? {
      assert s.roadMtx.None? && s.roadCounter > 0;
      t :| t in OnRoad(s);
      assert !HoldsRoad(s.pc[t]) && !HoldsMtx(s.pc[t]);
    } else {
      t :| t in s.pc && !s.pc[t].Idle?;
    }
  }

  /** A thread that can make progress still can after any spin or blocked attempt of another. */
  lemma SpinsDoNotDisable(s: State, t: Tid, u: Tid)
    requires Inv(s) && Enabled(s, t) && !Spin(s, t)
    requires Enabled(s, u) ==> Spin(s, u)
    ensures Enabled(Advance(s, u), t) && !Spin(Advance(s, u), t)
  {
  }

  ghost predicate Live(threads: set<Tid>, s: State) {
    Inv(s) && s.pc.Keys == threads
  }

  lemma RankIsFair(threads: set<Tid>)
    ensures Ranked(Advance, (s: State) => Live(threads, s), Rank)
    ensures NeverStuck(Advance, (s: State) => Live(threads, s), AllIdle, Rank, threads)
  {
    forall s: State, t: Tid | Live(threads, s)
      ensures Live(threads, Advance(s, t)) && Rank(Advance(s, t)) <= Rank(s)
      ensures Rank(Advance(s, t)) < Rank(s) <==> Enabled(s, t) && !Spin(s, t)
    {
      DoKeepsInv(s, Step(t));
      if Enabled(s, t) { AdvanceRank(s, t); PcMove(s, t); }
    }
    forall s: State, t: Tid, u: Tid | Live(threads, s) && Useful(Advance, Rank, s, t) && Rank(Advance(s, u)) == Rank(s)
      ensures Useful(Advance, Rank, Advance(s, u), t)
    {
      SpinsDoNotDisable(s, t, u);
    }
    forall s: State | Live(threads, s) && !AllIdle(s)
      ensures exists t :: t in threads && Useful(Advance, Rank, s, t)
    {
      var t := SomeoneAdvances(s);
      assert Useful(Advance, Rank, s, t);
    }
  }

  lemma SameThreads(init: State, schedule: seq<Action>)
    ensures Run(Do, init, schedule).pc.Keys == init.pc.Keys
  {
    var keys := init.pc.Keys;
    forall s: State, a: Action | s.pc.Keys == keys ensures Do(s, a).pc.Keys == keys {
      if a.Step? && Enabled(s, a.t) { PcMove(s, a.t); }
    }
    InvariantOfRuns(Do, (x: State) => x.pc.Keys == keys, init, schedule);
  }

  /** From every reachable state, if no thread enters anew and every thread keeps being
      scheduled, all cars leave the road and all pedestrians cross. */
  lemma FairRunsDrain(init: State, schedule: seq<Action>, f: nat -> Tid)
    requires Init(init) && Fair(f, init.pc.Keys)
    ensures exists n: nat :: AllIdle(After(Advance, f, Run(Do, init, schedule), n))
  {
    var s := Run(Do, init, schedule);
    ReachableInv(init, schedule);
    SameThreads(init, schedule);
    var threads := init.pc.Keys;
    RankIsFair(threads);
    var n := FairRunsFinish(Advance, x => Live(threads, x), AllIdle, Rank, threads, f, s, 0);
  }
}
