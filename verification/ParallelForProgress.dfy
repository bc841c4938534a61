/** When `operator()` returns: exactly when it waits before the last worker notifies. */
module ParallelForProgress {
  import opened Machines
  import opened Sums
  import opened Fairness
  import opened ParallelFor

  // ----- the notification that comes too early

  /** After the one notify_all no worker is left that could call it again; before it, with all
      workers counted, the last one is on its way to it. */
  predicate NotifyOk(s: State) {
    && (s.notified ==> forall k | 0 <= k < |s.workers| :: s.workers[k].pc.UnlockFinishing? || s.workers[k].pc.Exited?)
    && (s.endedThreads == |s.workers| > 0 && !s.notified ==>
          s.finishingMutex.Some? && s.finishingMutex.value < |s.workers| && OnItsWay(s.workers[s.finishingMutex.value].pc))
  }

  predicate OnItsWay(p: Pc) { p.UnlockStepAtEnd? || p.TestEnded? || p.Notify? }

  predicate FullInv(s: State) { Inv(s) && NotifyOk(s) }

  lemma TakeKeepsNotify(s: State, k: nat)
    requires Inv(s) && NotifyOk(s) && Enabled(s, k)
    ensures NotifyOk(Take(s, k))
  {
    AllEnded(s);
    AllEnded(Take(s, k));
    EndedMove(s, Take(s, k), k);
  }

  lemma OpKeepsNotify(s: State)
    requires Inv(s) && NotifyOk(s)
    ensures NotifyOk(DoOp(s)) && |DoOp(s).workers| == |s.workers|
  {
  }

  lemma DoKeepsFullInv(s: State, a: Action)
    requires FullInv(s)
    ensures FullInv(Do(s, a)) && |Do(s, a).workers| == |s.workers|
  {
    DoKeepsInv(s, a);
    match a
    case OpStep => OpKeepsNotify(s);
    case WorkerStep(k) => if Enabled(s, k) { TakeKeepsNotify(s, k); }
  }

  lemma ReachableFullInv(init: State, schedule: seq<Action>)
    requires Init(init)
    ensures FullInv(Run(Do, init, schedule)) && |Run(Do, init, schedule).workers| == |init.workers|
  {
    assert EndedSet(init) == {};
    var inv := (s: State) => FullInv(s) && |s.workers| == |init.workers|;
    forall s: State, a: Action | inv(s) ensures inv(Do(s, a)) { DoKeepsFullInv(s, a); }
    InvariantOfRuns(Do, inv, init, schedule);
  }

  /** notify_all has been called, and not while `operator()` was waiting. */
  predicate Missed(s: State) {
    s.notified && (s.op.Spawning? || s.op.StartWait? || s.op.Asleep?)
  }

  /** Then `operator()` never returns. */
  lemma MissedNotificationBlocks(s: State, schedule: seq<Action>)
    requires FullInv(s) && Missed(s)
    ensures Missed(Run(Do, s, schedule))
  {
    var inv := (s: State) => FullInv(s) && Missed(s);
    forall s: State, a: Action | inv(s) ensures inv(Do(s, a)) { DoKeepsFullInv(s, a); MissedStays(s, a); }
    InvariantOfRuns(Do, inv, s, schedule);
  }

  lemma MissedStays(s: State, a: Action)
    requires NotifyOk(s) && Missed(s)
    ensures Missed(Do(s, a))
  {
  }

  // ----- progress

  function Weight(p: Pc): nat {
    match p
    case NotSpawned => 12
    case LockStep => 11
    case ReadPos => 10
    case TestPos => 9
    case Increment => 8
    case UnlockStep => 13
    case Body => 12
    case LockFinishing => 6
    case CountEnd => 5
    case UnlockStepAtEnd => 4
    case TestEnded => 3
    case Notify => 2
    case UnlockFinishing => 1
    case Exited => 0
  }

  function OpWeight(p: OpPc): nat {
    match p
    case Spawning(_) => 4
    case StartWait => 3
    case Asleep => 2
    case Woken => 1
    case Returned => 0
  }

  ghost function Weights(s: State): map<Tid, nat> {
    map k | k in Upto(|s.workers|) :: Weight(s.workers[k].pc)
  }

  /** What is left to do; a position not taken yet is worth more than one round of the loop. */
  ghost function Rank(s: State): nat {
    Total(Weights(s)) + 8 * (if s.pos <= s.end then s.end - s.pos else 0) + OpWeight(s.op)
  }

  /** Thread `k` below the number of workers is a worker, every other name is the caller. */
  function Advance(s: State, t: Tid): State {
    if t < |s.workers| then Do(s, WorkerStep(t)) else Do(s, OpStep)
  }

  lemma WeightsMove(s: State, s': State, k: nat)
    requires k < |s.workers| == |s'.workers|
    requires forall j | 0 <= j < |s.workers| && j != k :: s'.workers[j] == s.workers[j]
    ensures Total(Weights(s')) == Total(Weights(s)) - Weight(s.workers[k].pc) + Weight(s'.workers[k].pc)
  {
    TotalUpdate(Weights(s), Weights(s'), k);
  }

  lemma TakeShape(s: State, k: nat)
    requires Enabled(s, k)
    ensures var s' := Take(s, k);
            && |s'.workers| == |s.workers| && s'.workers[k].pc == Next(s, s.workers[k])
            && s'.end == s.end && s'.pos == (if s.workers[k].pc.Increment? then s.pos + 1 else s.pos)
            && OpWeight(s'.op) <= OpWeight(s.op)
  {
  }

  lemma WeightNext(s: State, w: Worker)
    requires !w.pc.NotSpawned? && !w.pc.Exited?
    ensures Weight(Next(s, w)) < Weight(w.pc) + (if w.pc.Increment? then 8 else 0)
  {
  }

  lemma TakeFalls(s: State, k: nat)
    requires PosOk(s) && Enabled(s, k)
    ensures Rank(Take(s, k)) < Rank(s)
  {
    WeightsMove(s, Take(s, k), k);
    TakeShape(s, k);
    WeightNext(s, s.workers[k]);
  }

  lemma OpFalls(s: State)
    requires SpawnOk(s)
    ensures DoOp(s) == s || Rank(DoOp(s)) < Rank(s)
  {
    if s.op.Spawning? && s.op.next < |s.workers| { WeightsMove(s, DoOp(s), s.op.next); }
    else { assert DoOp(s).workers == s.workers; }
  }

  lemma AdvanceFalls(s: State, t: Tid)
    requires FullInv(s)
    ensures Advance(s, t) == s || Rank(Advance(s, t)) < Rank(s)
  {
    if t >= |s.workers| { OpFalls(s); }
    else if Enabled(s, t) { TakeFalls(s, t); }
  }

  /** `operator()` has returned, or sleeps with nobody left to wake it. */
  predicate Settled(s: State) {
    s.op.Returned? || (s.op.Asleep? && forall k | 0 <= k < |s.workers| :: s.workers[k].pc.Exited?)
  }

  /** Once all are created, some worker that has not ended can take a step. */
  lemma SomeWorkerAdvances(s: State) returns (k: nat)
    requires FullInv(s) && exists j :: 0 <= j < |s.workers| && !s.workers[j].pc.Exited?
    requires forall j | 0 <= j < |s.workers| :: !s.workers[j].pc.NotSpawned?
    ensures Enabled(s, k)
  {
    if s.finishingMutex.Some? {
      k := s.finishingMutex.value;
    } else if s.stepMutex.Some? {
      k := s.stepMutex.value;
    } else {
      k :| 0 <= k < |s.workers| && !s.workers[k].pc.Exited?;
    }
  }

  lemma SomeoneAdvances(s: State) returns (t: Tid)
    requires FullInv(s) && !Settled(s)
    ensures t <= |s.workers| && Advance(s, t) != s
  {
    if s.op.Asleep? {
      t := SomeWorkerAdvances(s);
      assert Take(s, t).workers[t].pc != s.workers[t].pc;
    } else {
      t := |s.workers|;
    }
  }

  ghost predicate Live(n: nat, s: State) { FullInv(s) && |s.workers| == n }

  lemma RankIsFair(n: nat)
    ensures Ranked(Advance, (s: State) => Live(n, s), Rank)
    ensures NeverStuck(Advance, (s: State) => Live(n, s), Settled, Rank, Upto(n + 1))
  {
    forall s: State, t: Tid | Live(n, s)
      ensures Live(n, Advance(s, t)) && Rank(Advance(s, t)) <= Rank(s)
      ensures Rank(Advance(s, t)) < Rank(s) <==> Advance(s, t) != s
    {
      if t < |s.workers| { DoKeepsFullInv(s, WorkerStep(t)); } else { DoKeepsFullInv(s, OpStep); }
      AdvanceFalls(s, t);
    }
    forall s: State | Live(n, s) && !Settled(s)
      ensures exists t :: t in Upto(n + 1) && Useful(Advance, Rank, s, t)
    {
      var t := SomeoneAdvances(s);
      assert Useful(Advance, Rank, s, t);
    }
  }

  /** Every fair run settles, whatever the number of workers. */
  lemma FairRunsSettle(s: State, f: nat -> Tid) returns (n: nat)
    requires FullInv(s) && Fair(f, Upto(|s.workers| + 1))
    ensures Settled(After(Advance, f, s, n)) && FullInv(After(Advance, f, s, n))
  {
    var m := |s.workers|;
    RankIsFair(m);
    n := FairRunsFinish(Advance, (x: State) => Live(m, x), Settled, Rank, Upto(m + 1), f, s, 0);
    AfterInv(Advance, (x: State) => Live(m, x), Rank, f, s, n);
  }

  predicate InTime(s: State) {
    (s.op.Asleep? && !s.notified) || s.op.Woken? || s.op.Returned?
  }

  lemma AdvanceStaysInTime(s: State, t: Tid)
    requires InTime(s)
    ensures InTime(Advance(s, t)) && |Advance(s, t).workers| == |s.workers|
  {}

  lemma {:induction false} StaysInTime(s: State, f: nat -> Tid, n: nat)
    requires InTime(s)
    ensures InTime(After(Advance, f, s, n)) && |After(Advance, f, s, n).workers| == |s.workers|
  {
    if n > 0 {
      StaysInTime(s, f, n - 1);
      AdvanceStaysInTime(After(Advance, f, s, n - 1), f(n - 1));
    }
  }

  /** If `operator()` is asleep before notify_all is called, every fair run makes it return;
      with `MissedNotificationBlocks`, it returns exactly then. */
  lemma WaitingInTimeReturns(s: State, f: nat -> Tid)
    requires FullInv(s) && |s.workers| > 0 && s.op.Asleep? && !s.notified && Fair(f, Upto(|s.workers| + 1))
    ensures exists n: nat :: After(Advance, f, s, n).op.Returned?
  {
    var n := FairRunsSettle(s, f);
    StaysInTime(s, f, n);
    AllEnded(After(Advance, f, s, n));
  }

  // ----- until operator() waits

  predicate NotWaiting(p: OpPc) { p.Spawning? || p.StartWait? }

  /** The caller creates the rest of the threads, and no worker moves meanwhile. */
  lemma {:induction false} SpawnsAll(s: State) returns (q: seq<Action>)
    requires FullInv(s) && NotWaiting(s.op)
    ensures var s' := Run(Do, s, q);
            && FullInv(s') && NotWaiting(s'.op) && |s'.workers| == |s.workers|
            && forall k | 0 <= k < |s'.workers| :: !s'.workers[k].pc.NotSpawned?
    decreases if s.op.Spawning? then |s.workers| - s.op.next else 0
  {
    q := [];
    if s.op.Spawning? && s.op.next < |s.workers| {
      DoKeepsFullInv(s, OpStep);
      var rest := SpawnsAll(DoOp(s));
      RunCons(Do, s, OpStep, rest);
      q := [OpStep] + rest;
    }
  }

  lemma TakeLeavesOp(s: State, k: nat)
    requires Enabled(s, k) && NotWaiting(s.op) && (forall j | 0 <= j < |s.workers| :: !s.workers[j].pc.NotSpawned?)
    ensures Take(s, k).op == s.op && forall j | 0 <= j < |s.workers| :: !Take(s, k).workers[j].pc.NotSpawned?
  {}

  /** The workers do all there is to do, and the caller does not move meanwhile. */
  lemma {:induction false} WorkersFinish(s: State) returns (q: seq<Action>)
    requires FullInv(s) && NotWaiting(s.op) && forall k | 0 <= k < |s.workers| :: !s.workers[k].pc.NotSpawned?
    ensures var s' := Run(Do, s, q);
            && FullInv(s') && s'.op == s.op && |s'.workers| == |s.workers|
            && forall k | 0 <= k < |s'.workers| :: s'.workers[k].pc.Exited?
    decreases Rank(s)
  {
    q := [];
    if exists j :: 0 <= j < |s.workers| && !s.workers[j].pc.Exited? {
      var k := SomeWorkerAdvances(s);
      DoKeepsFullInv(s, WorkerStep(k));
      TakeFalls(s, k);
      TakeLeavesOp(s, k);
      var rest := WorkersFinish(Take(s, k));
      RunCons(Do, s, WorkerStep(k), rest);
      q := [WorkerStep(k)] + rest;
    }
  }

  /** Until `operator()` waits, the notification can come too early: from every state before
      that, whatever the range and the number of workers, some schedule misses it, and by
      `MissedNotificationBlocks` `operator()` then never returns. */
  lemma MissedIsReachable(s: State) returns (q: seq<Action>)
    requires FullInv(s) && NotWaiting(s.op) && |s.workers| > 0
    ensures Missed(Run(Do, s, q)) && FullInv(Run(Do, s, q))
  {
    var spawns := SpawnsAll(s);
    var spawned := Run(Do, s, spawns);
    var works := WorkersFinish(spawned);
    RunConcat(Do, s, spawns, works);
    q := spawns + works;
    AllEnded(Run(Do, spawned, works));
  }

  /** A loop that has just begun is such a state. */
  lemma EveryLoopCanMiss(init: State) returns (q: seq<Action>)
    requires Init(init) && |init.workers| > 0
    ensures Missed(Run(Do, init, q))
  {
    assert EndedSet(init) == {};
    q := MissedIsReachable(init);
  }
}
