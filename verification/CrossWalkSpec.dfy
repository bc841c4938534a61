/** What the crosswalk is for: cars share the road, a pedestrian has it alone.

    The step machine of `CrossWalk` is shown to refine this lock, so its users can be
    reasoned about with the lock's two guards instead of mutexes and notify loops. */
module CrossWalkSpec {
  import opened Options

  /** `T` names the threads. */
  datatype Lock<T(==)> = Lock(cars: set<T>, pedestrian: Option<T>)

  predicate CarMayEnter<T(==)>(l: Lock<T>) { l.pedestrian == None }

  predicate PedestrianMayEnter<T(==)>(l: Lock<T>) { l.pedestrian == None && l.cars == {} }

  /** Thread `t` enters or leaves, as a car or as the pedestrian. */
  predicate Moves<T(==)>(l: Lock<T>, t: T, l': Lock<T>) {
    || (CarMayEnter(l) && t !in l.cars && l' == l.(cars := l.cars + {t}))
    || (t in l.cars && l' == l.(cars := l.cars - {t}))
    || (PedestrianMayEnter(l) && l' == l.(pedestrian := Some(t)))
    || (l.pedestrian == Some(t) && l' == l.(pedestrian := None))
  }
}

/** The crosswalk refines the lock, how it behaves when called alone, and which of the
    assumptions it rests on cannot be dropped. */
module CrossWalkRefinement {
  import opened Machines
  import opened Options
  import opened CrossWalkSpec
  import opened CrossWalk

  function Walker(s: State): Option<Tid> {
    if s.mtx.Some? && s.mtx.value in s.pc && LetThrough(s.pc[s.mtx.value], s.mtx.value in s.cv) then s.mtx else None
  }

  function Abs(s: State): Lock<Tid> {
    Lock(OnRoad(s), Walker(s))
  }

  lemma InitAbs(s: State)
    requires Init(s)
    ensures Abs(s) == Lock({}, None)
  {
    assert OnRoad(s) == {};
  }

  /** The car steps that change the abstract lock. */
  lemma CarRefines(s: State, t: Tid)
    requires Inv(s) && Enabled(s, t) && (s.pc[t].CarAdd? || s.pc[t].StopSub?)
    ensures Moves(Abs(s), t, Abs(Take(s, t)))
  {
    if s.pc[t].CarAdd? {
      assert OnRoad(Take(s, t)) == OnRoad(s) + {t};
    } else {
      assert OnRoad(Take(s, t)) == OnRoad(s) - {t};
      assert t in OnRoad(s);
    }
  }

  lemma OnRoadSame(s: State, t: Tid)
    requires Enabled(s, t) && !s.pc[t].CarAdd? && !s.pc[t].StopSub?
    ensures OnRoad(Take(s, t)) == OnRoad(s)
  {
    PcMove(s, t);
  }

  /** Notifying lets in the sleeper that holds Mtx, and nobody else. */
  lemma NotifyRefines(s: State, t: Tid)
    requires Inv(s) && Enabled(s, t) && s.pc[t].StopNotify?
    ensures Walker(Take(s, t)) == (if s.mtx.Some? && s.mtx.value in s.cv then s.mtx else Walker(s))
  {
  }

  lemma WalkRefines(s: State, t: Tid)
    requires Inv(s) && Enabled(s, t) && !s.pc[t].StopNotify?
    ensures Walker(Take(s, t)) == Walker(s)
         || (Walker(s) == None && s.roadCounter == 0 && Walker(Take(s, t)) == Some(t))
         || (Walker(s) == Some(t) && Walker(Take(s, t)) == None)
  {
  }

  /** Every step of the crosswalk is a move of the lock or changes nothing in it; a
      notification lets in the pedestrian it wakes. */
  lemma StepRefines(s: State, t: Tid)
    requires Inv(s) && Enabled(s, t)
    ensures Abs(Take(s, t)) == Abs(s)
         || Moves(Abs(s), t, Abs(Take(s, t)))
         || (s.pc[t].StopNotify? && s.mtx.Some? && s.mtx.value in s.cv && Moves(Abs(s), s.mtx.value, Abs(Take(s, t))))
  {
    if s.pc[t].CarAdd? || s.pc[t].StopSub? {
      CarRefines(s, t);
    } else {
      OnRoadSame(s, t);
      if s.pc[t].StopNotify? { NotifyRefines(s, t); } else { WalkRefines(s, t); }
      assert s.roadCounter == 0 ==> OnRoad(s) == {};
    }
  }

  /** The two calls themselves leave the lock alone. */
  lemma CallsRefine(s: State, a: Action)
    requires Inv(s) && !a.Step?
    ensures Abs(Do(s, a)) == Abs(s)
  {
    assert OnRoad(Do(s, a)) == OnRoad(s);
  }

  /** A thread inside a car or pedestrian section holds the lock in that role. */
  lemma SectionsAreLocked(init: State, schedule: seq<Action>, t: Tid)
    requires Init(init)
    ensures var s := Run(Do, init, schedule);
            && (IsDriving(s, t) ==> t in Abs(s).cars)
            && (IsCrossing(s, t) ==> Abs(s) == Lock({}, Some(t)))
  {
    ReachableInv(init, schedule);
  }
}
