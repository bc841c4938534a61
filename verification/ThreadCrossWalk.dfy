/** The object as the source writes it: four operations on shared fields.

    A call of a method below performs the next operation of thread `t` inside that member
    function, or blocks, which leaves everything as it was. */
module ThreadCrossWalkObject {
  import opened Machines
  import opened Options
  import opened CrossWalk

  lemma DrivingMeans(s: State, t: Tid)
    requires Inv(s) && t in s.pc
    ensures s.pc[t].Driving? ==> s.roadCounter > 0 && forall u | u in s.pc :: !s.pc[u].Crossing?
  {
    if s.pc[t].Driving? { assert t in OnRoad(s); }
  }

  predicate AloneOnTheRoad(pc: map<Tid, Pc>, t: Tid) {
    forall u | u in pc && u != t :: !pc[u].Crossing? && !pc[u].Driving?
  }

  lemma CrossingMeans(s: State, t: Tid)
    requires Inv(s) && t in s.pc
    ensures s.pc[t].Crossing? ==> s.roadCounter == 0 && AloneOnTheRoad(s.pc, t)
  {
    if u :| u in s.pc && s.pc[u].Driving? { assert u in OnRoad(s); }
  }

  lemma OffTheRoadMeans(s: State, t: Tid)
    requires Inv(s) && t in s.pc
    ensures var s' := Do(s, Step(t));
            s.pc[t].StopUnlock? && s'.roadCounter == 0 ==> forall u | u in s'.pc :: !Committed(s'.pc[u], u in s'.cv)
  {
    DoKeepsInv(s, Step(t));
  }

  class ThreadCrossWalk {
    var Mtx: Option<Tid>
    var RoadMtx: Option<Tid>
    var RoadCounter: int
    var IsCondVarWaiting: bool
    var Cv: set<Tid>
    var pc: map<Tid, Pc>

    function View(): State
      reads this
    {
      State(Mtx, RoadMtx, RoadCounter, IsCondVarWaiting, Cv, pc)
    }

    ghost predicate Valid()
      reads this
    {
      Inv(View())
    }

    constructor (threads: set<Tid>)
      ensures Init(View()) && Valid() && pc.Keys == threads
    {
      Mtx, RoadMtx, RoadCounter, IsCondVarWaiting, Cv := None, None, 0, false, {};
      pc := map t | t in threads :: Idle;
      new;
      InitInv(View());
    }

    method CarStartCrossRoad(t: Tid)
      requires Valid() && t in pc
      requires pc[t].Idle? || pc[t].CarLockMtx? || pc[t].CarLockRoad? || pc[t].CarAdd? || pc[t].CarUnlockRoad? || pc[t].CarUnlockMtx?
      modifies this
      ensures View() == Do(old(View()), if old(pc[t]).Idle? then CallCar(t) else Step(t))
      ensures Valid()
      // the call returns with the car counted and nobody crossing
      ensures pc[t].Driving? ==> RoadCounter > 0 && forall u | u in pc :: !pc[u].Crossing?
    {
      DoKeepsInv(View(), if pc[t].Idle? then CallCar(t) else Step(t));
      DrivingMeans(Do(View(), if pc[t].Idle? then CallCar(t) else Step(t)), t);
      match pc[t] {
        case Idle => pc := pc[t := CarLockMtx];
        case CarLockMtx => if Mtx == None { Mtx := Some(t); pc := pc[t := CarLockRoad]; }
        case CarLockRoad => if RoadMtx == None { RoadMtx := Some(t); pc := pc[t := CarAdd]; }
        case CarAdd => RoadCounter := RoadCounter + 1; pc := pc[t := CarUnlockRoad];
        case CarUnlockRoad => RoadMtx := None; pc := pc[t := CarUnlockMtx];
        case CarUnlockMtx => Mtx := None; pc := pc[t := Driving];
      }
    }

    method CarStopCrossRoad(t: Tid)
      requires Valid() && t in pc
      requires pc[t].Driving? || pc[t].StopLockRoad? || pc[t].StopSub? || pc[t].StopTest? || pc[t].StopPoll? || pc[t].StopNotify? || pc[t].StopUnlock?
      modifies this
      ensures View() == Do(old(View()), Step(t)) && Valid()
      // cv.notify_all is only ever reached with an empty road
      ensures old(pc[t]).StopNotify? ==> RoadCounter == 0
      // the last car off the road leaves no pedestrian asleep
      ensures pc[t].Idle? && RoadCounter == 0 ==> forall u | u in pc :: !Committed(pc[u], u in Cv)
    {
      DoKeepsInv(View(), Step(t));
      OffTheRoadMeans(View(), t);
      match pc[t] {
        case Driving => pc := pc[t := StopLockRoad];
        case StopLockRoad => if RoadMtx == None { RoadMtx := Some(t); pc := pc[t := StopSub]; }
        case StopSub => RoadCounter := RoadCounter - 1; pc := pc[t := StopTest];
        case StopTest | StopPoll | StopNotify => LetPedestrianGo(t);
        case StopUnlock => RoadMtx := None; pc := pc[t := Idle];
      }
    }

    /** With the road empty, notify until no pedestrian waits. */
    method LetPedestrianGo(t: Tid)
      requires t in pc && (pc[t].StopTest? || pc[t].StopPoll? || pc[t].StopNotify?)
      modifies this`Cv, this`pc
      ensures View() == Do(old(View()), Step(t))
    {
      match pc[t] {
        case StopTest => if RoadCounter == 0 { pc := pc[t := StopPoll]; } else { pc := pc[t := StopUnlock]; }
        case StopPoll => if IsCondVarWaiting { pc := pc[t := StopNotify]; } else { pc := pc[t := StopUnlock]; }
        case StopNotify => Cv := {}; pc := pc[t := StopPoll];
      }
    }

    method PedestrianStartCrossRoad(t: Tid)
      requires Valid() && t in pc
      requires pc[t].Idle? || pc[t].WalkLockMtx? || pc[t].WalkRaise? || pc[t].WalkTest? || pc[t].WalkSleep? || pc[t].Asleep? || pc[t].WalkLower?
      modifies this
      ensures View() == Do(old(View()), if old(pc[t]).Idle? then CallPedestrian(t) else Step(t))
      ensures Valid()
      // the call returns only with an empty road
      ensures pc[t].Crossing? ==> RoadCounter == 0 && AloneOnTheRoad(pc, t)
    {
      ghost var a := if pc[t].Idle? then CallPedestrian(t) else Step(t);
      DoKeepsInv(View(), a);
      CrossingMeans(Do(View(), a), t);
      match pc[t] {
        case Idle => pc := pc[t := WalkLockMtx];
        case WalkLockMtx => if Mtx == None { Mtx := Some(t); pc := pc[t := WalkRaise]; }
        case WalkRaise => IsCondVarWaiting := true; pc := pc[t := WalkTest];
        case WalkTest | WalkSleep | Asleep => WaitForEmptyRoad(t);
        case WalkLower => IsCondVarWaiting := false; pc := pc[t := Crossing];
      }
    }

    /** One test of the counter, and one wait when it is positive. */
    method WaitForEmptyRoad(t: Tid)
      requires t in pc && (pc[t].WalkTest? || pc[t].WalkSleep? || pc[t].Asleep?)
      modifies this`Cv, this`pc
      ensures View() == Do(old(View()), Step(t))
    {
      match pc[t] {
        case WalkTest => if RoadCounter > 0 { pc := pc[t := WalkSleep]; } else { pc := pc[t := WalkLower]; }
        case WalkSleep => Cv := Cv + {t}; pc := pc[t := Asleep];
        case Asleep => if t !in Cv { pc := pc[t := WalkLower]; }
      }
    }

    method PedestrianStopCrossRoad(t: Tid)
      requires Valid() && t in pc && pc[t].Crossing?
      modifies this
      ensures View() == Do(old(View()), Step(t)) && Valid()
      // no car has come onto the road since the call returned
      ensures Mtx == None && RoadCounter == 0
    {
      DoKeepsInv(View(), Step(t));
      CrossingMeans(View(), t);
      Mtx := None;
      pc := pc[t := Idle];
    }
  }
}
