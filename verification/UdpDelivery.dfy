/** While nobody shuts the UDP server down every message that was pushed comes to the handler.

    The receiver may take and leave a worker's mutex for ever, so the worker has to be given its
    turn in the strong sense: if it can step again and again, it steps again. */
module UdpDelivery {
  import opened Machines
  import opened Options
  import opened Fairness
  import opened UdpServer

  /** The server with nobody calling Shutdown. */
  function DoRunning(s: State, a: Action): State {
    if a.ShutdownStores? || a.HandlerShutsDown? then s else Do(s, a)
  }

  predicate Working(p: Pc) { !p.ShutStore? && !p.ShutOpen? && !p.Returned? }

  ghost predicate Running(s: State) {
    Inv(s) && !s.isShutdown && forall j | 0 <= j < |s.workers| :: Working(s.workers[j].pc)
  }

  /** The `k`-th message pushed to worker `i` is `text`. */
  ghost predicate Queued(i: nat, k: nat, text: string, s: State) {
    Running(s) && i < |s.workers| && k < Count(s.workers[i]) && s.workers[i].pushed.messages[k] == text
  }

  predicate IsHandled(i: nat, k: nat, s: State) {
    i < |s.workers| && |s.workers[i].log| > k
  }

  /** How far it is to the next call of the handler. */
  function Distance(p: Pc): nat {
    match p
    case Handle => 1
    case ReadAddress => 2
    case ReadMessage => 3
    case ReadTime => 4
    case Check => 5
    case Top => 6
    case UnlockMutex => 6
    case Blocked => 7
    case PopTime => 7
    case Close => 8
    case PopAddress => 8
    case PopMessage => 9
    case LockMutex => 10
    case _ => 11
  }

  /** What worker `i` has left to do before the handler has been given message `k`. */
  function ToDo(w: Worker, k: nat): nat {
    if |w.log| > k then 0 else 12 * (k + 1 - |w.log|) + Distance(w.pc)
  }

  function Left(i: nat, k: nat, s: State): nat { if i < |s.workers| then ToDo(s.workers[i], k) else 0 }

  predicate CanStep(i: nat, s: State) { i < |s.workers| && WorkerEnabled(s.workers[i]) }

  // ----- steps

  lemma WorkStaysWorking(w: Worker, n: nat)
    requires WorkerEnabled(w) && Working(w.pc)
    ensures Working(Work(w, false, n).pc)
  {}

  lemma StaysWorking(s: State, a: Action)
    requires !s.isShutdown && forall j | 0 <= j < |s.workers| :: Working(s.workers[j].pc)
    ensures var s' := DoRunning(s, a);
            !s'.isShutdown && |s'.workers| == |s.workers| && forall j | 0 <= j < |s.workers| :: Working(s'.workers[j].pc)
  {
    if a.WorkerStep? && a.i < |s.workers| && WorkerEnabled(s.workers[a.i]) {
      assert Do(s, a) == Worked(s, a.i);
      WorkStaysWorking(s.workers[a.i], |s.workers|);
    }
  }

  lemma StaysRunning(s: State, a: Action)
    requires Running(s)
    ensures Running(DoRunning(s, a)) && |DoRunning(s, a).workers| == |s.workers|
  {
    DoKeepsInv(s, a);
    StaysWorking(s, a);
  }

  /** Only its own step moves a worker; pushing only adds. */
  lemma OthersLeaveWorker(s: State, a: Action, i: nat)
    requires Running(s) && i < |s.workers| && (a == WorkerStep(i) ==> !WorkerEnabled(s.workers[i]))
    ensures |DoRunning(s, a).workers| == |s.workers|
    ensures DoRunning(s, a).workers[i].pc == s.workers[i].pc && DoRunning(s, a).workers[i].log == s.workers[i].log
    ensures s.workers[i].pushed.messages <= DoRunning(s, a).workers[i].pushed.messages
  {}

  lemma OwnStep(s: State, i: nat)
    requires Running(s) && i < |s.workers| && WorkerEnabled(s.workers[i])
    ensures DoRunning(s, WorkerStep(i)) == Worked(s, i)
    ensures DoRunning(s, WorkerStep(i)).workers[i] == Work(s.workers[i], false, |s.workers|)
  {}

  /** With a message to be handled the worker does not go back to Close. */
  lemma WorkFalls(w: Worker, p: ReceiverPc, k: nat, n: nat)
    requires MessagesOk(w) && LogOk(w) && WorkerEnabled(w) && Working(w.pc) && |w.log| <= k < Count(w)
    ensures ToDo(Work(w, false, n), k) < ToDo(w, k)
  {}

  lemma StepLowers(i: nat, k: nat, text: string, s: State)
    requires Queued(i, k, text, s) && !IsHandled(i, k, s) && CanStep(i, s)
    ensures Left(i, k, DoRunning(s, WorkerStep(i))) < Left(i, k, s)
  {
    var w := s.workers[i];
    assert WorkerOk(w, Serving(s.r, i), s.r.entry, false);
    OwnStep(s, i);
    WorkFalls(w, Serving(s.r, i), k, |s.workers|);
  }

  lemma WorkKeepsHandled(w: Worker, n: nat)
    requires WorkerEnabled(w)
    ensures |Work(w, false, n).log| >= |w.log| && Work(w, false, n).pushed == w.pushed
  {}

  lemma StaysQueued(i: nat, k: nat, text: string, s: State, a: Action)
    requires Queued(i, k, text, s)
    ensures Queued(i, k, text, DoRunning(s, a)) && Left(i, k, DoRunning(s, a)) <= Left(i, k, s)
  {
    StaysRunning(s, a);
    if a == WorkerStep(i) && CanStep(i, s) {
      OwnStep(s, i);
      WorkKeepsHandled(s.workers[i], |s.workers|);
      if !IsHandled(i, k, s) { StepLowers(i, k, text, s); }
    } else {
      OthersLeaveWorker(s, a, i);
    }
  }

  // ----- the worker is not kept waiting for good

  /** What the receiver has left to do at a worker. */
  function ReceiverLeft(s: State): nat {
    match s.r.pc
    case PushMessage => 5
    case PushAddress => 4
    case PushTime => 3
    case Unlock => 2
    case Open => 1
    case _ => 0
  }

  ghost predicate Unhandled(i: nat, k: nat, text: string, s: State) { Queued(i, k, text, s) && !IsHandled(i, k, s) }

  /** A worker that cannot step waits for the receiver, which is at work there. */
  lemma WaitsForReceiver(i: nat, k: nat, text: string, s: State)
    requires Unhandled(i, k, text, s) && !CanStep(i, s)
    ensures s.r.target == i && ReceiverLeft(s) > 0 && ReceiverEnabled(s.r, s.workers[i])
  {
    assert WorkerOk(s.workers[i], Serving(s.r, i), s.r.entry, false);
  }

  lemma ReceiverAlone(i: nat, k: nat, text: string, s: State, a: Action)
    requires Unhandled(i, k, text, s) && !CanStep(i, s)
    ensures ReceiverLeft(DoRunning(s, a)) <= ReceiverLeft(s)
    ensures ReceiverLeft(DoRunning(s, a)) < ReceiverLeft(s) <==> a.ReceiverStep?
  {
    WaitsForReceiver(i, k, text, s);
    if a.ReceiverStep? { assert Do(s, a).r.pc == NextReceiverPc(s.r.pc); } else { ReceiverStays(s, a); }
  }

  lemma ReceiverStays(s: State, a: Action)
    requires ReceiverLeft(s) > 0 && !a.ReceiverStep?
    ensures DoRunning(s, a).r == s.r
  {}

  lemma StaysUnhandled(i: nat, k: nat, text: string, s: State, a: Action)
    requires Unhandled(i, k, text, s) && !CanStep(i, s)
    ensures Unhandled(i, k, text, DoRunning(s, a))
  {
    StaysQueued(i, k, text, s, a);
    OthersLeaveWorker(s, a, i);
  }

  lemma ReceiverIsFair(i: nat, k: nat, text: string)
    ensures RankedUntil(DoRunning, (s: State) => Unhandled(i, k, text, s), (s: State) => CanStep(i, s), ReceiverLeft)
    ensures NeverStuck(DoRunning, (s: State) => Unhandled(i, k, text, s), (s: State) => CanStep(i, s), ReceiverLeft, {ReceiverStep})
  {
    forall s: State, a: Action | Unhandled(i, k, text, s) && !CanStep(i, s)
      ensures Unhandled(i, k, text, DoRunning(s, a)) && ReceiverLeft(DoRunning(s, a)) <= ReceiverLeft(s)
      ensures Useful(DoRunning, ReceiverLeft, s, a) <==> a.ReceiverStep?
    {
      StaysUnhandled(i, k, text, s, a);
      ReceiverAlone(i, k, text, s, a);
    }
    forall s: State | Unhandled(i, k, text, s) && !CanStep(i, s)
      ensures exists a :: a in {ReceiverStep} && Useful(DoRunning, ReceiverLeft, s, a)
    {
      assert ReceiverStep in {ReceiverStep} && Useful(DoRunning, ReceiverLeft, s, ReceiverStep);
    }
  }

  /** Every schedule fair to the receiver lets the worker step again. */
  lemma StepsAreAllowed(i: nat, k: nat, text: string, s: State, f: nat -> Action, n: nat) returns (m: nat)
    requires Fair(f, {ReceiverStep}) && Unhandled(i, k, text, After(DoRunning, f, s, n))
    ensures n <= m && CanStep(i, After(DoRunning, f, s, m))
  {
    ReceiverIsFair(i, k, text);
    m := FairRunsReach(DoRunning, (x: State) => Unhandled(i, k, text, x), (x: State) => CanStep(i, x), ReceiverLeft, {ReceiverStep}, f, s, n);
  }

  lemma HandledIsRead(i: nat, k: nat, text: string, s: State)
    requires Queued(i, k, text, s) && IsHandled(i, k, s)
    ensures s.workers[i].log[k].message == Some(text)
  {
    assert WorkerOk(s.workers[i], Serving(s.r, i), s.r.entry, false);
    assert Reads(s.workers[i].log[k], s.workers[i].pushed, k);
  }

  /** Every pushed message comes to the handler, in every run without Shutdown that is fair to the
      receiver and, in the strong sense, to the worker, however many datagrams come in meanwhile. */
  lemma EveryMessageIsHandled(s: State, i: nat, k: nat, text: string, f: nat -> Action) returns (n: nat)
    requires Queued(i, k, text, s)
    requires Fair(f, {ReceiverStep}) && HappensAgain(DoRunning, (x: State) => CanStep(i, x), WorkerStep(i), f, s)
    ensures var w := After(DoRunning, f, s, n).workers;
            i < |w| && k < |w[i].log| && w[i].log[k].message == Some(text)
  {
    var inv, done, may := (x: State) => Queued(i, k, text, x), (x: State) => IsHandled(i, k, x), (x: State) => CanStep(i, x);
    var rank := (x: State) => Left(i, k, x);
    forall x: State, a: Action | inv(x) ensures inv(DoRunning(x, a)) && rank(DoRunning(x, a)) <= rank(x) { StaysQueued(i, k, text, x, a); }
    forall x: State | inv(x) && !done(x) && may(x) ensures rank(DoRunning(x, WorkerStep(i))) < rank(x) { StepLowers(i, k, text, x); }
    forall m: nat | inv(After(DoRunning, f, s, m)) && !done(After(DoRunning, f, s, m)) ensures MayFrom(DoRunning, may, f, s, m) {
      var j := StepsAreAllowed(i, k, text, s, f, m);
      assert may(After(DoRunning, f, s, j));
    }
    n := StronglyFairRunsReach(DoRunning, inv, done, rank, may, WorkerStep(i), f, s);
    HandledIsRead(i, k, text, After(DoRunning, f, s, n));
  }

  /** The states of a server that nobody has shut down are such states. */
  lemma ReachableRunning(init: State, schedule: seq<Action>)
    requires Init(init)
    ensures Running(Run(DoRunning, init, schedule))
  {
    InitInv(init);
    forall s: State, a: Action | Running(s) ensures Running(DoRunning(s, a)) { StaysRunning(s, a); }
    InvariantOfRuns(DoRunning, Running, init, schedule);
  }

  // ----- from the choice of a queue

  /** Entry `e` is the `k`-th one pushed to worker `i`. */
  ghost predicate Arrived(i: nat, k: nat, e: Entry, s: State) {
    && i < |s.workers| && Has(s.workers[i].pushed, k)
    && var q := s.workers[i].pushed; q.messages[k] == e.message && q.addresses[k] == e.address && q.times[k] == e.time
  }

  /** The receiver is about to push `e` to worker `i`, which has been pushed `k` entries. */
  predicate Carries(i: nat, k: nat, e: Entry, s: State) {
    && i < |s.workers| && s.r.target == i && s.r.entry == e && (s.r.pc.Lock? || s.r.pc.PushMessage?)
    && |s.workers[i].pushed.messages| == |s.workers[i].pushed.addresses| == |s.workers[i].pushed.times| == k
  }

  ghost predicate OnItsWay(i: nat, k: nat, e: Entry, s: State) {
    Running(s) && (Carries(i, k, e, s) || Arrived(i, k, e, s))
  }

  function WayLeft(i: nat, k: nat, e: Entry, s: State): nat {
    if Carries(i, k, e, s) then (if s.r.pc.Lock? then 2 else 1) else 0
  }

  predicate CanPush(i: nat, s: State) { i < |s.workers| && s.r.target == i && ReceiverEnabled(s.r, s.workers[i]) }

  lemma OnlyReceiverPushes(s: State, a: Action, i: nat)
    requires Running(s) && i < |s.workers| && !a.ReceiverStep?
    ensures |DoRunning(s, a).workers| == |s.workers| && DoRunning(s, a).workers[i].pushed == s.workers[i].pushed
    ensures s.r.pc.Lock? || s.r.pc.PushMessage? ==> DoRunning(s, a).r == s.r
  {}

  lemma ReceiverPushes(s: State, i: nat)
    requires Running(s) && i < |s.workers|
    ensures var s', w := DoRunning(s, ReceiverStep), s.workers[i];
            && |s'.workers| == |s.workers|
            && (s'.workers[i].pushed == w.pushed || s'.workers[i].pushed == w.pushed.Add(s.r.entry))
            && (CanPush(i, s) && s.r.pc.Lock? ==> s'.r == s.r.(pc := PushMessage) && s'.workers[i].pushed == w.pushed)
            && (CanPush(i, s) && s.r.pc.PushMessage? ==> s'.workers[i].pushed == w.pushed.Add(s.r.entry))
            && (s.r.pc.Lock? && s.r.target == i && !CanPush(i, s) ==> s' == s)
  {}

  lemma StaysOnItsWay(i: nat, k: nat, e: Entry, s: State, a: Action)
    requires OnItsWay(i, k, e, s)
    ensures OnItsWay(i, k, e, DoRunning(s, a)) && WayLeft(i, k, e, DoRunning(s, a)) <= WayLeft(i, k, e, s)
    ensures a.ReceiverStep? && CanPush(i, s) && Carries(i, k, e, s) ==> WayLeft(i, k, e, DoRunning(s, a)) < WayLeft(i, k, e, s)
  {
    StaysRunning(s, a);
    if a.ReceiverStep? { ReceiverPushes(s, i); } else { OnlyReceiverPushes(s, a, i); }
  }

  /** How long the worker still holds its mutex. */
  function HoldLeft(p: Pc): nat {
    match p
    case PopMessage => 4
    case PopAddress => 3
    case PopTime => 2
    case UnlockMutex => 1
    case _ => 0
  }

  function HeldFor(i: nat, s: State): nat { if i < |s.workers| then HoldLeft(s.workers[i].pc) else 0 }

  ghost predicate Waits(i: nat, k: nat, e: Entry, s: State) { Running(s) && Carries(i, k, e, s) }

  lemma WaitsForWorker(i: nat, k: nat, e: Entry, s: State, a: Action)
    requires Waits(i, k, e, s) && !CanPush(i, s)
    ensures Waits(i, k, e, DoRunning(s, a)) && HeldFor(i, DoRunning(s, a)) <= HeldFor(i, s)
    ensures HeldFor(i, DoRunning(s, a)) < HeldFor(i, s) <==> a == WorkerStep(i)
  {
    var w := s.workers[i];
    assert WorkerOk(w, Serving(s.r, i), s.r.entry, false);
    StaysRunning(s, a);
    if a.ReceiverStep? { ReceiverPushes(s, i); } else { OnlyReceiverPushes(s, a, i); }
    if a == WorkerStep(i) { OwnStep(s, i); } else { OthersLeaveWorker(s, a, i); }
  }

  lemma HoldEnds(i: nat, k: nat, e: Entry)
    ensures RankedUntil(DoRunning, (s: State) => Waits(i, k, e, s), (s: State) => CanPush(i, s), (s: State) => HeldFor(i, s))
    ensures NeverStuck(DoRunning, (s: State) => Waits(i, k, e, s), (s: State) => CanPush(i, s), (s: State) => HeldFor(i, s), {WorkerStep(i)})
  {
    var rank := (s: State) => HeldFor(i, s);
    forall s: State, a: Action | Waits(i, k, e, s) && !CanPush(i, s)
      ensures Waits(i, k, e, DoRunning(s, a)) && rank(DoRunning(s, a)) <= rank(s)
      ensures Useful(DoRunning, rank, s, a) <==> a == WorkerStep(i)
    {
      WaitsForWorker(i, k, e, s, a);
    }
    forall s: State | Waits(i, k, e, s) && !CanPush(i, s)
      ensures exists a :: a in {WorkerStep(i)} && Useful(DoRunning, rank, s, a)
    {
      assert WorkerStep(i) in {WorkerStep(i)} && Useful(DoRunning, rank, s, WorkerStep(i));
    }
  }

  /** What the receiver has chosen a worker for is pushed there next, whole, in every run without
      Shutdown that is fair to the worker and, in the strong sense, to the receiver. */
  lemma ChosenIsPushed(s: State, i: nat, f: nat -> Action) returns (n: nat)
    requires Running(s) && s.r.pc.Select? && i < |s.workers|
    requires Fair(f, {WorkerStep(i)}) && HappensAgain(DoRunning, (x: State) => CanPush(i, x), ReceiverStep, f, DoRunning(s, Choose(i)))
    ensures Arrived(i, Count(s.workers[i]), s.r.entry, After(DoRunning, f, DoRunning(s, Choose(i)), n))
  {
    var k, e, s0 := Count(s.workers[i]), s.r.entry, DoRunning(s, Choose(i));
    assert WorkerOk(s.workers[i], Serving(s.r, i), s.r.entry, false);
    StaysRunning(s, Choose(i));
    var inv, done, may := (x: State) => OnItsWay(i, k, e, x), (x: State) => Arrived(i, k, e, x), (x: State) => CanPush(i, x);
    var rank := (x: State) => WayLeft(i, k, e, x);
    forall x: State, a: Action | inv(x) ensures inv(DoRunning(x, a)) && rank(DoRunning(x, a)) <= rank(x) { StaysOnItsWay(i, k, e, x, a); }
    forall x: State | inv(x) && !done(x) && may(x) ensures rank(DoRunning(x, ReceiverStep)) < rank(x) { StaysOnItsWay(i, k, e, x, ReceiverStep); }
    forall m: nat | inv(After(DoRunning, f, s0, m)) && !done(After(DoRunning, f, s0, m)) ensures MayFrom(DoRunning, may, f, s0, m) {
      HoldEnds(i, k, e);
      var j := FairRunsReach(DoRunning, (x: State) => Waits(i, k, e, x), may, (x: State) => HeldFor(i, x), {WorkerStep(i)}, f, s0, m);
      assert may(After(DoRunning, f, s0, j));
    }
    n := StronglyFairRunsReach(DoRunning, inv, done, rank, may, ReceiverStep, f, s0);
  }
}
