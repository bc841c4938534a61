/** EN_ParallelFor: `operator()` and the workers that share its position.

    Positions are integers from `start` up to `end`.  `done` collects the positions whose body
    call has completed, and `notified` tells that some worker has called notify_all. */
module ParallelFor {
  import opened Machines
  import opened Options

  datatype Pc =
    | NotSpawned
    | LockStep | ReadPos | TestPos | Increment | UnlockStep | Body
    | LockFinishing | CountEnd | UnlockStepAtEnd | TestEnded | Notify | UnlockFinishing
    | Exited

  datatype OpPc = Spawning(next: nat) | StartWait | Asleep | Woken | Returned

  datatype Worker = Worker(pc: Pc, local: int)

  datatype State = State(
    pos: int, start: int, end: int,
    stepMutex: Option<nat>,
    finishingMutex: Option<nat>,
    endedThreads: int,
    workers: seq<Worker>,
    op: OpPc,
    done: multiset<int>,
    notified: bool)

  datatype Action = OpStep | WorkerStep(k: nat)

  /** `operator()` has set its fields and is about to create the threads. */
  predicate Init(s: State) {
    && s.pos == s.start <= s.end && s.stepMutex == None && s.finishingMutex == None && s.endedThreads == 0
    && s.op == Spawning(0) && s.done == multiset{} && !s.notified
    && forall k | 0 <= k < |s.workers| :: s.workers[k].pc.NotSpawned?
  }

  predicate Enabled(s: State, k: nat) {
    && k < |s.workers|
    && match s.workers[k].pc
       case NotSpawned => false
       case LockStep => s.stepMutex == None
       case LockFinishing => s.finishingMutex == None
       case Exited => false
       case _ => true
  }

  function Next(s: State, w: Worker): Pc {
    match w.pc
    case NotSpawned => NotSpawned
    case LockStep => ReadPos
    case ReadPos => TestPos
    case TestPos => if s.pos != s.end then Increment else LockFinishing
    case Increment => UnlockStep
    case UnlockStep => Body
    case Body => LockStep
    case LockFinishing => CountEnd
    case CountEnd => UnlockStepAtEnd
    case UnlockStepAtEnd => TestEnded
    case TestEnded => if s.endedThreads >= |s.workers| then Notify else UnlockFinishing
    case Notify => UnlockFinishing
    case UnlockFinishing => Exited
    case Exited => Exited
  }

  function Effect(s: State, k: nat, w: Worker): State {
    match w.pc
    case LockStep => s.(stepMutex := Some(k))
    case Increment => s.(pos := s.pos + 1)
    case UnlockStep => s.(stepMutex := None)
    case Body => s.(done := s.done + multiset{w.local})
    case LockFinishing => s.(finishingMutex := Some(k))
    case CountEnd => s.(endedThreads := s.endedThreads + 1)
    case UnlockStepAtEnd => s.(stepMutex := None)
    case Notify => s.(op := if s.op.Asleep? then Woken else s.op, notified := true)
    case UnlockFinishing => s.(finishingMutex := None)
    case _ => s
  }

  function Take(s: State, k: nat): State
    requires Enabled(s, k)
  {
    var w := s.workers[k];
    var w' := Worker(Next(s, w), if w.pc.ReadPos? then s.pos else w.local);
    Effect(s, k, w).(workers := s.workers[k := w'])
  }

  function DoOp(s: State): State {
    match s.op
    case Spawning(i) =>
      if i < |s.workers| then s.(op := Spawning(i + 1), workers := s.workers[i := Worker(LockStep, s.workers[i].local)])
      else s.(op := StartWait)
    case StartWait => s.(op := Asleep)
    case Asleep => s
    case Woken => s.(op := Returned)
    case Returned => s
  }

  function Do(s: State, a: Action): State {
    match a
    case OpStep => DoOp(s)
    case WorkerStep(k) => if Enabled(s, k) then Take(s, k) else s
  }

  // ----- the invariant

  predicate HoldsStep(p: Pc) {
    || p.ReadPos? || p.TestPos? || p.Increment? || p.UnlockStep? || p.LockFinishing? || p.CountEnd? || p.UnlockStepAtEnd?
  }

  predicate HoldsFinishing(p: Pc) {
    p.CountEnd? || p.UnlockStepAtEnd? || p.TestEnded? || p.Notify? || p.UnlockFinishing?
  }

  /** Counted in endedThreads. */
  predicate Ended(p: Pc) {
    p.UnlockStepAtEnd? || p.TestEnded? || p.Notify? || p.UnlockFinishing? || p.Exited?
  }

  /** Has taken its local position out of the shared one and not completed the body for it. */
  predicate Busy(p: Pc) {
    p.UnlockStep? || p.Body?
  }

  predicate LocksOk(s: State) {
    && (forall k | 0 <= k < |s.workers| :: HoldsStep(s.workers[k].pc) <==> s.stepMutex == Some(k))
    && (forall k | 0 <= k < |s.workers| :: HoldsFinishing(s.workers[k].pc) <==> s.finishingMutex == Some(k))
    && (s.stepMutex.Some? ==> s.stepMutex.value < |s.workers|)
    && (s.finishingMutex.Some? ==> s.finishingMutex.value < |s.workers|)
  }

  predicate PosOk(s: State) {
    && s.start <= s.pos <= s.end
    && (forall k | 0 <= k < |s.workers| :: s.workers[k].pc.TestPos? || s.workers[k].pc.Increment? ==> s.workers[k].local == s.pos)
    && (forall k | 0 <= k < |s.workers| :: s.workers[k].pc.Increment? ==> s.pos < s.end)
    && (forall k | 0 <= k < |s.workers| ::
          s.workers[k].pc.LockFinishing? || s.workers[k].pc.CountEnd? || Ended(s.workers[k].pc) ==> s.pos == s.end)
  }

  /** Worker `k` is busy with position `q`. */
  predicate BusyWith(ws: seq<Worker>, k: int, q: int) {
    0 <= k < |ws| && Busy(ws[k].pc) && ws[k].local == q
  }

  /** Every completed position was taken and is completed once. */
  predicate DoneOk(s: State) {
    forall q | q in s.done :: s.done[q] == 1 && s.start <= q < s.pos
  }

  /** A worker is busy with a position that was taken and is not completed. */
  predicate BusyOk(s: State) {
    forall k | 0 <= k < |s.workers| :: Busy(s.workers[k].pc) ==> s.start <= s.workers[k].local < s.pos && s.workers[k].local !in s.done
  }

  /** No two workers are busy with the same position. */
  predicate ApartOk(s: State) {
    forall k, j | 0 <= k < j < |s.workers| :: Busy(s.workers[k].pc) && Busy(s.workers[j].pc) ==> s.workers[k].local != s.workers[j].local
  }

  /** Every position taken so far is completed once, or one worker is busy with it. */
  predicate BodiesOk(s: State) {
    DoneOk(s) && BusyOk(s) && ApartOk(s)
  }

  predicate NoneLost(s: State) {
    forall q | s.start <= q < s.pos :: q in s.done || exists k | 0 <= k < |s.workers| :: BusyWith(s.workers, k, q)
  }

  function EndedSet(s: State): set<nat> {
    set k | 0 <= k < |s.workers| && Ended(s.workers[k].pc)
  }

  predicate SpawnOk(s: State) {
    && (s.op.Spawning? ==> s.op.next <= |s.workers|)
    && (forall k | 0 <= k < |s.workers| :: s.workers[k].pc.NotSpawned? <==> s.op.Spawning? && s.op.next <= k)
  }

  /** notify_all is called only when every worker has been counted. */
  predicate EndOk(s: State) {
    && s.endedThreads == |EndedSet(s)|
    && (forall k | 0 <= k < |s.workers| :: s.workers[k].pc.Notify? ==> s.endedThreads == |s.workers|)
    && (s.notified ==> s.endedThreads == |s.workers| && |s.workers| > 0)
    && (s.op.Woken? || s.op.Returned? ==> s.notified)
  }

  predicate Inv(s: State) {
    LocksOk(s) && PosOk(s) && BodiesOk(s) && NoneLost(s) && SpawnOk(s) && EndOk(s)
  }

  lemma EndedMove(s: State, s': State, k: nat)
    requires k < |s.workers| == |s'.workers|
    requires forall j | 0 <= j < |s.workers| && j != k :: s'.workers[j] == s.workers[j]
    ensures |EndedSet(s')| == |EndedSet(s)| + (if Ended(s'.workers[k].pc) then 1 else 0) - (if Ended(s.workers[k].pc) then 1 else 0)
  {
    var others := EndedSet(s) - {k};
    assert EndedSet(s) == if Ended(s.workers[k].pc) then others + {k} else others;
    assert EndedSet(s') == if Ended(s'.workers[k].pc) then others + {k} else others;
  }

  function Upto(n: nat): (r: set<nat>)
    ensures |r| == n && forall k: nat :: k in r <==> k < n
  {
    if n == 0 then {} else Upto(n - 1) + {n - 1}
  }

  /** The count reaches the number of workers exactly when all have ended. */
  lemma AllEnded(s: State)
    ensures |EndedSet(s)| <= |s.workers|
    ensures |EndedSet(s)| == |s.workers| <==> forall k | 0 <= k < |s.workers| :: Ended(s.workers[k].pc)
  {
    var rest := Upto(|s.workers|) - EndedSet(s);
    assert Upto(|s.workers|) == EndedSet(s) + rest;
    assert (forall k | 0 <= k < |s.workers| :: Ended(s.workers[k].pc)) ==> EndedSet(s) == Upto(|s.workers|);
    if k :| 0 <= k < |s.workers| && !Ended(s.workers[k].pc) { assert k in rest; }
  }

  lemma TakeKeepsLocks(s: State, k: nat)
    requires LocksOk(s) && Enabled(s, k)
    ensures LocksOk(Take(s, k))
  {
  }

  lemma TakeKeepsPos(s: State, k: nat)
    requires LocksOk(s) && PosOk(s) && Enabled(s, k)
    ensures PosOk(Take(s, k))
  {
  }

  lemma TakeKeepsDone(s: State, k: nat)
    requires PosOk(s) && DoneOk(s) && BusyOk(s) && Enabled(s, k)
    ensures DoneOk(Take(s, k))
  {
  }

  lemma TakeKeepsBusy(s: State, k: nat)
    requires PosOk(s) && BodiesOk(s) && Enabled(s, k)
    ensures BusyOk(Take(s, k))
  {
  }

  lemma TakeKeepsApart(s: State, k: nat)
    requires PosOk(s) && BusyOk(s) && ApartOk(s) && Enabled(s, k)
    ensures ApartOk(Take(s, k))
  {
  }

  lemma TakeKeepsBodies(s: State, k: nat)
    requires LocksOk(s) && PosOk(s) && BodiesOk(s) && Enabled(s, k)
    ensures BodiesOk(Take(s, k))
  {
    TakeKeepsDone(s, k);
    TakeKeepsBusy(s, k);
    TakeKeepsApart(s, k);
  }

  lemma TakeKeepsNoneLost(s: State, k: nat)
    requires PosOk(s) && NoneLost(s) && Enabled(s, k)
    ensures NoneLost(Take(s, k))
  {
    var s' := Take(s, k);
    forall q | s'.start <= q < s'.pos
      ensures q in s'.done || exists j | 0 <= j < |s'.workers| :: BusyWith(s'.workers, j, q)
    {
      if s.workers[k].pc.Increment? && q == s.pos {
        assert BusyWith(s'.workers, k, q);
      } else if q !in s'.done {
        var j :| 0 <= j < |s.workers| && BusyWith(s.workers, j, q);
        assert BusyWith(s'.workers, j, q);
      }
    }
  }

  lemma TakeKeepsEnd(s: State, k: nat)
    requires EndOk(s) && SpawnOk(s) && Enabled(s, k)
    ensures EndOk(Take(s, k)) && SpawnOk(Take(s, k))
  {
    EndedMove(s, Take(s, k), k);
    AllEnded(s);
    AllEnded(Take(s, k));
  }

  lemma OpKeepsLocks(s: State)
    requires LocksOk(s) && SpawnOk(s)
    ensures LocksOk(DoOp(s))
  {
  }

  lemma OpKeepsPos(s: State)
    requires PosOk(s) && SpawnOk(s)
    ensures PosOk(DoOp(s))
  {
  }

  lemma OpKeepsBodies(s: State)
    requires BodiesOk(s) && SpawnOk(s)
    ensures BodiesOk(DoOp(s))
  {
  }

  lemma OpKeepsNoneLost(s: State)
    requires NoneLost(s) && SpawnOk(s)
    ensures NoneLost(DoOp(s))
  {
    var s' := DoOp(s);
    forall q | s'.start <= q < s'.pos
      ensures q in s'.done || exists j | 0 <= j < |s'.workers| :: BusyWith(s'.workers, j, q)
    {
      if q !in s'.done {
        var j :| 0 <= j < |s.workers| && BusyWith(s.workers, j, q);
        assert BusyWith(s'.workers, j, q);
      }
    }
  }

  lemma OpKeepsEnd(s: State)
    requires EndOk(s) && SpawnOk(s)
    ensures EndOk(DoOp(s)) && SpawnOk(DoOp(s))
  {
    if s.op.Spawning? && s.op.next < |s.workers| { EndedMove(s, DoOp(s), s.op.next); }
    else { assert EndedSet(DoOp(s)) == EndedSet(s); }
  }

  lemma DoKeepsInv(s: State, a: Action)
    requires Inv(s)
    ensures Inv(Do(s, a))
  {
    match a
    case OpStep => OpKeepsLocks(s); OpKeepsPos(s); OpKeepsBodies(s); OpKeepsNoneLost(s); OpKeepsEnd(s);
    case WorkerStep(k) =>
      if Enabled(s, k) {
        TakeKeepsLocks(s, k);
        TakeKeepsPos(s, k);
        TakeKeepsBodies(s, k);
        TakeKeepsNoneLost(s, k);
        TakeKeepsEnd(s, k);
      }
  }

  lemma ReachableInv(init: State, schedule: seq<Action>)
    requires Init(init)
    ensures Inv(Run(Do, init, schedule))
  {
    assert EndedSet(init) == {};
    forall s: State, a: Action | Inv(s) ensures Inv(Do(s, a)) { DoKeepsInv(s, a); }
    InvariantOfRuns(Do, Inv, init, schedule);
  }

  lemma ReturnedMeansDoneOnce(s: State, q: int)
    requires Inv(s)
    ensures s.op.Returned? ==>
              && s.done[q] == (if s.start <= q < s.end then 1 else 0)
              && forall k | 0 <= k < |s.workers| :: Ended(s.workers[k].pc)
  {
    if s.op.Returned? {
      AllEnded(s);
      assert Ended(s.workers[0].pc);
      assert forall k | 0 <= k < |s.workers| :: !BusyWith(s.workers, k, q);
    }
  }

  /** If `operator()` returns, the body has completed exactly once for every position from
      start up to end and for no other, and no worker reads or writes the shared position
      again, for any number of workers and any interleaving. */
  lemma ReturnMeansAllDoneOnce(init: State, schedule: seq<Action>, q: int)
    requires Init(init)
    ensures var s := Run(Do, init, schedule);
            s.op.Returned? ==>
              && s.done[q] == (if s.start <= q < s.end then 1 else 0)
              && forall k | 0 <= k < |s.workers| :: Ended(s.workers[k].pc)
  {
    ReachableInv(init, schedule);
    ReturnedMeansDoneOnce(Run(Do, init, schedule), q);
  }
}
