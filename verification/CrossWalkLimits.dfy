/** What the crosswalk theorems rest on: no spurious wake-ups, and no thread entering the
    road again while it is already on it. */
module CrossWalkLimits {
  import opened Machines
  import opened Options
  import opened CrossWalk

  /** CarStartCrossRoad, run alone to its end. */
  function CarEntry(t: Tid): seq<Action> {
    [CallCar(t), Step(t), Step(t), Step(t), Step(t), Step(t)]
  }

  /** PedestrianStartCrossRoad, run alone until it sleeps. */
  function PedestrianEntry(t: Tid): seq<Action> {
    [CallPedestrian(t), Step(t), Step(t), Step(t), Step(t)]
  }

  /** Thread `t` takes the step it stands at, and reaches `next` in the state `after`. */
  lemma OneStep(s: State, t: Tid, here: Pc, rest: seq<Action>, after: State, next: Pc)
    requires t in s.pc && Enabled(s.At(t, here), t)
    requires Take(s.At(t, here), t) == after.At(t, here).At(t, next) && after.pc == s.pc
    ensures Run(Do, s.At(t, here), [Step(t)] + rest) == Run(Do, after.At(t, next), rest)
  {
    assert after.At(t, here).At(t, next) == after.At(t, next);
    RunCons(Do, s.At(t, here), Step(t), rest);
  }

  lemma CarEnters(s: State, t: Tid)
    requires t in s.pc && s.pc[t].Idle? && s.mtx == None && s.roadMtx == None
    ensures Run(Do, s, CarEntry(t)) == s.(roadCounter := s.roadCounter + 1).At(t, Driving)
  {
    var owned := s.(mtx := Some(t));
    var both := s.(mtx := Some(t), roadMtx := Some(t));
    var added := both.(roadCounter := s.roadCounter + 1);
    var released := added.(roadMtx := None);
    var e := CarEntry(t);
    assert e == [CallCar(t)] + e[1..];
    RunCons(Do, s, CallCar(t), e[1..]);
    assert e[1..] == [Step(t)] + e[2..];
    OneStep(s, t, CarLockMtx, e[2..], owned, CarLockRoad);
    assert e[2..] == [Step(t)] + e[3..];
    OneStep(owned, t, CarLockRoad, e[3..], both, CarAdd);
    assert e[3..] == [Step(t)] + e[4..];
    OneStep(both, t, CarAdd, e[4..], added, CarUnlockRoad);
    assert e[4..] == [Step(t)] + e[5..];
    OneStep(added, t, CarUnlockRoad, e[5..], released, CarUnlockMtx);
    assert e[5..] == [Step(t)] + [];
    OneStep(released, t, CarUnlockMtx, [], released.(mtx := None), Driving);
  }

  lemma PedestrianSleeps(s: State, t: Tid)
    requires t in s.pc && s.pc[t].Idle? && s.mtx == None && s.roadCounter > 0
    ensures Run(Do, s, PedestrianEntry(t))
         == s.(mtx := Some(t), isCondVarWaiting := true, cv := s.cv + {t}).At(t, Asleep)
  {
    var owned := s.(mtx := Some(t));
    var raised := owned.(isCondVarWaiting := true);
    var e := PedestrianEntry(t);
    assert e == [CallPedestrian(t)] + e[1..];
    RunCons(Do, s, CallPedestrian(t), e[1..]);
    assert e[1..] == [Step(t)] + e[2..];
    OneStep(s, t, WalkLockMtx, e[2..], owned, WalkRaise);
    assert e[2..] == [Step(t)] + e[3..];
    OneStep(owned, t, WalkRaise, e[3..], raised, WalkTest);
    assert e[3..] == [Step(t)] + e[4..];
    OneStep(raised, t, WalkTest, e[4..], raised, WalkSleep);
    assert e[4..] == [Step(t)] + [];
    OneStep(raised, t, WalkSleep, [], raised.(cv := s.cv + {t}), Asleep);
  }

  /** A car drives, then a pedestrian sleeps: a reachable state. */
  lemma CarThenSleeper(init: State, c: Tid, p: Tid)
    requires Init(init) && c in init.pc && p in init.pc && c != p
    ensures Run(Do, init, CarEntry(c) + PedestrianEntry(p))
         == init.(mtx := Some(p), roadCounter := 1, isCondVarWaiting := true, cv := {p}).At(c, Driving).At(p, Asleep)
  {
    RunConcat(Do, init, CarEntry(c), PedestrianEntry(p));
    CarEnters(init, c);
    PedestrianSleeps(init.(roadCounter := 1).At(c, Driving), p);
  }

  /** If `wait` may return without a notification, exclusion fails: the pedestrian does not
      look at the counter again. */
  lemma SpuriousWakeupBreaksExclusion(init: State, c: Tid, p: Tid)
    requires Init(init) && c in init.pc && p in init.pc && c != p
    ensures var asleep := Run(Do, init, CarEntry(c) + PedestrianEntry(p));
            && p in asleep.cv
            && IsDriving(Run(Do, asleep.(cv := asleep.cv - {p}), [Step(p), Step(p)]), c)
            && IsCrossing(Run(Do, asleep.(cv := asleep.cv - {p}), [Step(p), Step(p)]), p)
  {
    CarThenSleeper(init, c, p);
    var driving := init.(mtx := Some(p), roadCounter := 1, isCondVarWaiting := true, cv := {}).At(c, Driving);
    var asleep := Run(Do, init, CarEntry(c) + PedestrianEntry(p));
    assert asleep == driving.(cv := {p}).At(p, Asleep);
    assert {p} - {p} == {} && asleep.(cv := {p} - {p}) == driving.At(p, Asleep);
    OneStep(driving, p, Asleep, [Step(p)], driving, WalkLower);
    OneStep(driving, p, WalkLower, [], driving.(isCondVarWaiting := false), Crossing);
    assert [Step(p)] + [Step(p)] == [Step(p), Step(p)] && [Step(p)] + [] == [Step(p)];
  }

  /** The step function of a program in which car `c` does not stop. */
  function DoWithout(c: Tid): (State, Action) -> State {
    (s: State, a: Action) => if a == Step(c) then s else Do(s, a)
  }

  predicate Jammed(s: State, c: Tid, p: Tid, n: Tid) {
    && c in s.pc && s.pc[c].Driving?
    && p in s.pc && s.pc[p].Asleep? && p in s.cv
    && n in s.pc && s.pc[n].CarLockMtx?
  }

  /** A thread that drives and enters again is two threads here, `c` and `n`, of which `c`
      cannot stop before `n` is in.  With a pedestrian asleep between the two entries they jam. */
  lemma NestingIsReachable(init: State, c: Tid, p: Tid, n: Tid)
    requires Init(init) && c in init.pc && p in init.pc && n in init.pc && c != p && n != c && n != p
    ensures var s := Run(Do, init, CarEntry(c) + PedestrianEntry(p) + [CallCar(n)]); Jammed(s, c, p, n) && OnRoad(s) == {c}
  {
    CarThenSleeper(init, c, p);
    RunSnoc(Do, init, CarEntry(c) + PedestrianEntry(p), CallCar(n));
  }

  /** From then on, under every schedule, nothing changes for the three, no pedestrian crosses
      and no car comes onto the road: whoever wants in waits for Mtx, which the sleeper keeps. */
  lemma NestedCarBlocks(init: State, schedule: seq<Action>, later: seq<Action>, c: Tid, p: Tid, n: Tid)
    requires Init(init) && Jammed(Run(Do, init, schedule), c, p, n)
    ensures var before := Run(Do, init, schedule);
            var s := Run(DoWithout(c), before, later);
            && Jammed(s, c, p, n) && s.mtx == Some(p) && OnRoad(s) <= OnRoad(before)
            && (forall t :: !IsCrossing(s, t))
  {
    ReachableInv(init, schedule);
    var before := Run(Do, init, schedule);
    var step := DoWithout(c);
    var stuck := (s: State) => Inv(s) && Jammed(s, c, p, n) && OnRoad(s) <= OnRoad(before);
    forall s: State, a: Action | stuck(s) ensures stuck(step(s, a)) {
      if a != Step(c) {
        DoKeepsInv(s, a);
        JamStays(s, a, c, p, n);
      }
    }
    InvariantOfRuns(step, stuck, before, later);
    JamIsClosed(Run(step, before, later), c, p, n);
  }

  /** In a jam the sleeper holds Mtx, so nobody is past it. */
  lemma JamIsClosed(s: State, c: Tid, p: Tid, n: Tid)
    requires Inv(s) && Jammed(s, c, p, n)
    ensures s.mtx == Some(p) && forall t | t in s.pc && t != p :: !HoldsMtx(s.pc[t])
  {
    assert HoldsMtx(s.pc[p]);
  }

  lemma JamStays(s: State, a: Action, c: Tid, p: Tid, n: Tid)
    requires Inv(s) && Jammed(s, c, p, n) && a != Step(c)
    ensures Jammed(Do(s, a), c, p, n) && OnRoad(Do(s, a)) <= OnRoad(s)
  {
    JamIsClosed(s, c, p, n);
    assert c in OnRoad(s);
    if a.Step? && Enabled(s, a.t) {
      PcMove(s, a.t);
    }
  }
}
