/** EN_TCP_Server: the life of `ClientSockets` under the crosswalk.

    The crosswalk is the lock that `CrossWalkRefinement` shows it to be.  Run inserts and
    handlers erase as the pedestrian; everybody else looks at the set as a car.  Whether a
    receive fails, what accept returns and when Shutdown is called are chosen by the schedule. */
module TcpServer {
  import opened Machines
  import opened Options
  import opened CrossWalkSpec

  type Fd = int

  /** Who meets at the crosswalk: Run, the handlers, and threads that only look. */
  datatype Who = Runner | HandlerTid(k: nat) | ReaderTid(t: nat)

  /** Where ClientHandler stands, inside its section from `Erase` on. */
  datatype HandlerPc = Connected | Receiving | Disconnected | CloseOwn | WantErase | Erase | LeaveErase | Gone

  datatype Handler = Handler(fd: Fd, pc: HandlerPc, goodbyes: nat)

  datatype RunPc =
    | Start
    | Accept | Accepted(incoming: Option<Fd>)
    | WantInsert(fd: Fd) | Insert(fd: Fd) | Spawn(fd: Fd) | LeaveInsert
    | WantCloseAll(failed: bool) | CloseAll(failed: bool) | LeaveCloseAll(failed: bool)
    | WantLook(failed: bool) | Look(failed: bool) | LeaveLook(failed: bool) | LeaveEmpty(failed: bool)
    | Finished | Threw | NotStarted

  /** `closed` are the descriptors on which CloseSocket was called since accept handed them out;
      `late` is the connection that came after Shutdown, to be closed. */
  datatype State = State(
    run: RunPc,
    handlers: seq<Handler>,
    sockets: set<Fd>,
    closed: set<Fd>,
    late: Option<Fd>,
    lock: Lock<Who>,
    isShutdown: bool)

  datatype Action =
    | RunStep
    | RunAgain                                      // Run is called once more
    | Accepts(incoming: Option<Fd>)
    | HandlerStep(k: nat)
    | Receives(k: nat, ok: bool)
    | ReaderEnters(t: nat) | ReaderLeaves(t: nat)   // SendToClient, MulticastSend, GetConnectionsCount, ...
    | Shutdown

  predicate Ended(p: RunPc) { p.Finished? || p.Threw? || p.NotStarted? }

  function EnterCar(s: State, t: Who): State { s.(lock := s.lock.(cars := s.lock.cars + {t})) }
  function LeaveCar(s: State, t: Who): State { s.(lock := s.lock.(cars := s.lock.cars - {t})) }
  function EnterAlone(s: State, t: Who): State { s.(lock := s.lock.(pedestrian := Some(t))) }
  function LeaveAlone(s: State): State { s.(lock := s.lock.(pedestrian := None)) }

  predicate Init(s: State) {
    s.run.Start? && s.handlers == [] && s.sockets == {} && s.closed == {} && s.late == None && s.lock == Lock({}, None)
  }

  function One(fd: Option<Fd>): set<Fd> { if fd.Some? then {fd.value} else {} }

  function DoRun(s: State): State {
    match s.run
    case Start => if s.isShutdown then s.(run := NotStarted, isShutdown := false) else s.(run := Accept)
    case Accepted(incoming) =>
      if s.isShutdown then s.(run := WantCloseAll(false), late := incoming)
      else if incoming.None? then s.(run := WantCloseAll(true))
      else s.(run := WantInsert(incoming.value))
    case WantInsert(fd) => if PedestrianMayEnter(s.lock) then EnterAlone(s, Runner).(run := Insert(fd)) else s
    case Insert(fd) => s.(sockets := s.sockets + {fd}, run := Spawn(fd))
    case Spawn(fd) => s.(handlers := s.handlers + [Handler(fd, Connected, 0)], run := LeaveInsert)
    case LeaveInsert => LeaveAlone(s).(run := Accept)
    case WantCloseAll(f) => if PedestrianMayEnter(s.lock) then EnterAlone(s, Runner).(run := CloseAll(f)) else s
    case CloseAll(f) => s.(closed := s.closed + s.sockets, run := LeaveCloseAll(f))
    case LeaveCloseAll(f) => LeaveAlone(s).(run := WantLook(f), closed := s.closed + One(s.late), late := None)
    case WantLook(f) => if CarMayEnter(s.lock) then EnterCar(s, Runner).(run := Look(f)) else s
    case Look(f) => s.(run := if s.sockets == {} then LeaveEmpty(f) else LeaveLook(f))
    case LeaveLook(f) => LeaveCar(s, Runner).(run := WantLook(f))
    case LeaveEmpty(f) => if f then LeaveCar(s, Runner).(run := Threw) else LeaveCar(s, Runner).(run := Finished, isShutdown := false)
    case _ => s
  }

  function SetHandler(s: State, k: nat, h: Handler): State {
    if k < |s.handlers| then s.(handlers := s.handlers[k := h]) else s
  }

  function DoHandler(s: State, k: nat): State
    requires k < |s.handlers|
  {
    var h := s.handlers[k];
    match h.pc
    case Connected => SetHandler(s, k, h.(pc := Receiving))
    case Disconnected => SetHandler(s, k, h.(goodbyes := h.goodbyes + 1, pc := CloseOwn))
    case CloseOwn => SetHandler(s.(closed := s.closed + {h.fd}), k, h.(pc := WantErase))
    case WantErase => if PedestrianMayEnter(s.lock) then SetHandler(EnterAlone(s, HandlerTid(k)), k, h.(pc := Erase)) else s
    case Erase => SetHandler(s.(sockets := s.sockets - {h.fd}), k, h.(pc := LeaveErase))
    case LeaveErase => SetHandler(LeaveAlone(s), k, h.(pc := Gone))
    case _ => s
  }

  function Do(s: State, a: Action): State {
    match a
    case RunStep => DoRun(s)
    case RunAgain => if Ended(s.run) then s.(run := Start) else s
    case Accepts(incoming) => if s.run.Accept? then s.(run := Accepted(incoming), closed := s.closed - One(incoming)) else s
    case HandlerStep(k) => if k < |s.handlers| then DoHandler(s, k) else s
    case Receives(k, ok) =>
      if k < |s.handlers| && s.handlers[k].pc.Receiving? && !ok then SetHandler(s, k, s.handlers[k].(pc := Disconnected)) else s
    case ReaderEnters(t) => if CarMayEnter(s.lock) && ReaderTid(t) !in s.lock.cars then EnterCar(s, ReaderTid(t)) else s
    case ReaderLeaves(t) => if ReaderTid(t) in s.lock.cars then LeaveCar(s, ReaderTid(t)) else s
    case Shutdown => s.(isShutdown := true)
  }

  // ----- the invariant

  predicate RunAlone(p: RunPc) {
    p.Insert? || p.Spawn? || p.LeaveInsert? || p.CloseAll? || p.LeaveCloseAll?
  }

  predicate RunLooks(p: RunPc) {
    p.Look? || p.LeaveLook? || p.LeaveEmpty?
  }

  predicate HandlerAlone(p: HandlerPc) { p.Erase? || p.LeaveErase? }

  predicate Erased(p: HandlerPc) { p.LeaveErase? || p.Gone? }

  predicate LockOk(s: State) {
    && (s.lock.pedestrian.Some? ==> s.lock.cars == {})
    && (s.lock.pedestrian == Some(Runner) <==> RunAlone(s.run))
    && (Runner in s.lock.cars <==> RunLooks(s.run))
    && (forall k | 0 <= k < |s.handlers| :: s.lock.pedestrian == Some(HandlerTid(k)) <==> HandlerAlone(s.handlers[k].pc))
    && (s.lock.pedestrian.Some? && s.lock.pedestrian.value.HandlerTid? ==> s.lock.pedestrian.value.k < |s.handlers|)
    && (s.lock.pedestrian.Some? ==> !s.lock.pedestrian.value.ReaderTid?)
  }

  /** Every handler says goodbye exactly once, before it closes its socket. */
  predicate GoodbyeOk(s: State) {
    forall k | 0 <= k < |s.handlers| ::
      s.handlers[k].goodbyes == (if s.handlers[k].pc.Connected? || s.handlers[k].pc.Receiving? || s.handlers[k].pc.Disconnected? then 0 else 1)
  }

  /** Handler `k` is running and has not erased its socket. */
  predicate Owns(hs: seq<Handler>, k: int, fd: Fd) {
    0 <= k < |hs| && hs[k].fd == fd && !Erased(hs[k].pc)
  }

  predicate Owned(hs: seq<Handler>, fd: Fd) {
    exists k | 0 <= k < |hs| :: Owns(hs, k, fd)
  }

  /** The set is what the running handlers own, and the socket whose handler is being started. */
  predicate InSetOk(s: State) {
    && (forall k | 0 <= k < |s.handlers| :: !Erased(s.handlers[k].pc) ==> s.handlers[k].fd in s.sockets)
    && (s.run.Spawn? ==> s.run.fd in s.sockets)
  }

  predicate OwnersOk(s: State) {
    forall fd | fd in s.sockets :: Owned(s.handlers, fd) || s.run == Spawn(fd)
  }

  /** No two running handlers share a socket. */
  predicate DistinctOk(s: State) {
    forall k, j | 0 <= k < j < |s.handlers| ::
      !Erased(s.handlers[k].pc) && !Erased(s.handlers[j].pc) ==> s.handlers[k].fd != s.handlers[j].fd
  }

  /** The socket Run is bringing in. */
  function Incoming(p: RunPc): Option<Fd> {
    match p
    case Accepted(incoming) => incoming
    case WantInsert(fd) => Some(fd)
    case Insert(fd) => Some(fd)
    case Spawn(fd) => Some(fd)
    case _ => None
  }

  predicate IncomingOk(s: State) {
    Incoming(s.run).Some? ==>
      forall k | 0 <= k < |s.handlers| :: !Erased(s.handlers[k].pc) ==> s.handlers[k].fd != Incoming(s.run).value
  }

  predicate SocketsOk(s: State) {
    InSetOk(s) && OwnersOk(s) && DistinctOk(s) && IncomingOk(s)
  }

  /** Run returns only after it has seen the set empty, and nothing is inserted after that. */
  predicate EndOk(s: State) {
    s.run.LeaveEmpty? || s.run.Finished? || s.run.Threw? || s.run.NotStarted? || s.run.Start? ==> s.sockets == {}
  }

  predicate Inv(s: State) {
    LockOk(s) && GoodbyeOk(s) && SocketsOk(s) && EndOk(s)
  }

  /** accept does not hand out a descriptor that is still in the set. */
  predicate FreshAccept(s: State, a: Action) {
    a.Accepts? && a.incoming.Some? ==> a.incoming.value !in s.sockets
  }

  lemma RunKeepsLock(s: State)
    requires LockOk(s)
    ensures LockOk(DoRun(s))
  {
  }

  lemma RunKeepsSet(s: State)
    requires InSetOk(s) && DistinctOk(s) && IncomingOk(s)
    ensures InSetOk(DoRun(s)) && DistinctOk(DoRun(s))
  {
  }

  lemma RunKeepsRest(s: State)
    requires IncomingOk(s) && EndOk(s)
    ensures IncomingOk(DoRun(s)) && EndOk(DoRun(s))
  {
  }

  lemma RunKeepsGoodbye(s: State)
    requires GoodbyeOk(s)
    ensures GoodbyeOk(DoRun(s))
  {
  }

  lemma RunKeepsOwners(s: State)
    requires OwnersOk(s)
    ensures OwnersOk(DoRun(s))
  {
    var s' := DoRun(s);
    forall fd | fd in s'.sockets ensures Owned(s'.handlers, fd) || s'.run == Spawn(fd) {
      if s.run == Spawn(fd) {
        assert Owns(s'.handlers, |s.handlers|, fd);
      } else if fd in s.sockets {
        var k :| 0 <= k < |s.handlers| && Owns(s.handlers, k, fd);
        assert Owns(s'.handlers, k, fd);
      }
    }
  }

  lemma HandlerKeepsLock(s: State, k: nat)
    requires LockOk(s) && k < |s.handlers|
    ensures LockOk(DoHandler(s, k))
  {
  }

  lemma HandlerKeepsSet(s: State, k: nat)
    requires InSetOk(s) && DistinctOk(s) && IncomingOk(s) && k < |s.handlers|
    ensures InSetOk(DoHandler(s, k)) && DistinctOk(DoHandler(s, k))
  {
  }

  lemma HandlerKeepsRest(s: State, k: nat)
    requires InSetOk(s) && IncomingOk(s) && EndOk(s) && GoodbyeOk(s) && k < |s.handlers|
    ensures IncomingOk(DoHandler(s, k)) && EndOk(DoHandler(s, k)) && GoodbyeOk(DoHandler(s, k))
  {
  }

  lemma HandlerKeepsOwners(s: State, k: nat)
    requires SocketsOk(s) && k < |s.handlers|
    ensures OwnersOk(DoHandler(s, k))
  {
    var s' := DoHandler(s, k);
    forall fd | fd in s'.sockets ensures Owned(s'.handlers, fd) || s'.run == Spawn(fd) {
      if s.run != Spawn(fd) {
        var j :| 0 <= j < |s.handlers| && Owns(s.handlers, j, fd);
        assert Owns(s'.handlers, j, fd);
      }
    }
  }

  lemma ReceiveKeepsInv(s: State, k: nat, ok: bool)
    requires Inv(s)
    ensures Inv(Do(s, Receives(k, ok)))
  {
    var s' := Do(s, Receives(k, ok));
    forall fd | fd in s'.sockets ensures Owned(s'.handlers, fd) || s'.run == Spawn(fd) {
      if s.run != Spawn(fd) {
        var j :| 0 <= j < |s.handlers| && Owns(s.handlers, j, fd);
        assert Owns(s'.handlers, j, fd);
      }
    }
  }

  lemma DoKeepsInv(s: State, a: Action)
    requires Inv(s) && FreshAccept(s, a)
    ensures Inv(Do(s, a))
  {
    var s' := Do(s, a);
    match a
    case RunStep => RunKeepsLock(s); RunKeepsSet(s); RunKeepsRest(s); RunKeepsGoodbye(s); RunKeepsOwners(s);
    case HandlerStep(k) =>
      if k < |s.handlers| { HandlerKeepsLock(s, k); HandlerKeepsSet(s, k); HandlerKeepsRest(s, k); HandlerKeepsOwners(s, k); }
    case Receives(k, ok) => ReceiveKeepsInv(s, k, ok);
    case _ =>
      assert s'.handlers == s.handlers && s'.sockets == s.sockets;
      assert OwnersOk(s');
  }

  /** The machine in which accept never hands out a descriptor still in the set. */
  function WithFreshAccepts(s: State, a: Action): State {
    if FreshAccept(s, a) then Do(s, a) else s
  }

  lemma ReachableInv(init: State, schedule: seq<Action>)
    requires Init(init)
    ensures Inv(Run(WithFreshAccepts, init, schedule))
  {
    forall s: State, a: Action | Inv(s) ensures Inv(WithFreshAccepts(s, a)) {
      if FreshAccept(s, a) { DoKeepsInv(s, a); }
    }
    InvariantOfRuns(WithFreshAccepts, Inv, init, schedule);
  }

  /** The set changes only in the hands of the pedestrian, with no thread looking at it. */
  lemma ChangesHappenAlone(init: State, schedule: seq<Action>, a: Action)
    requires Init(init)
    ensures var s := Run(WithFreshAccepts, init, schedule);
            Do(s, a).sockets != s.sockets ==>
              && s.lock.cars == {}
              && ((a == RunStep && s.lock.pedestrian == Some(Runner)) || (a.HandlerStep? && s.lock.pedestrian == Some(HandlerTid(a.k))))
  {
    ReachableInv(init, schedule);
  }

  /** When a started Run returns, or throws after its last client has left, every handler it
      spawned has called OnClientDisconnect once and erased its socket. */
  lemma RunReturnsAfterAllHandlers(init: State, schedule: seq<Action>, k: nat)
    requires Init(init)
    ensures var s := Run(WithFreshAccepts, init, schedule);
            (s.run.Finished? || s.run.Threw?) && k < |s.handlers| ==>
              s.handlers[k].goodbyes == 1 && Erased(s.handlers[k].pc) && s.sockets == {}
  {
    ReachableInv(init, schedule);
  }

  // ----- why the descriptor must not come back early

  const TAKE_IN: seq<Action> := [Accepts(Some(7)), RunStep, RunStep]
  const THREE_STEPS: seq<Action> := [RunStep, RunStep, RunStep]
  const SERVE: seq<Action> := TAKE_IN + THREE_STEPS
  const HANG_UP: seq<Action> := [HandlerStep(0), Receives(0, false)]
  const SAY_GOODBYE: seq<Action> := [HandlerStep(0), HandlerStep(0)]
  const ERASE_IT: seq<Action> := [HandlerStep(0), HandlerStep(0), HandlerStep(0)]
  const STOP: seq<Action> := [Shutdown, Accepts(None), RunStep]
  const SHUT_DOWN: seq<Action> := STOP + THREE_STEPS

  lemma TakesIn(s: State)
    requires s.run.Accept? && s.lock == Lock({}, None) && !s.isShutdown
    ensures Run(Do, s, TAKE_IN) == EnterAlone(s, Runner).(run := Insert(7), closed := s.closed - {7})
  {
    var s1 := s.(closed := s.closed - {7});
    RunPrefixes(Do, s, TAKE_IN);
    assert Run(Do, s, TAKE_IN[..0 + 1]) == s1.(run := Accepted(Some(7)));
    assert Run(Do, s, TAKE_IN[..1 + 1]) == s1.(run := WantInsert(7));
    assert Run(Do, s, TAKE_IN[..2 + 1]) == Do(s1.(run := WantInsert(7)), RunStep);
  }

  lemma BringsIn(s: State)
    requires s.run == Insert(7) && s.lock.cars == {}
    ensures Run(Do, s, THREE_STEPS)
         == LeaveAlone(s).(run := Accept, sockets := s.sockets + {7}, handlers := s.handlers + [Handler(7, Connected, 0)])
  {
    RunPrefixes(Do, s, THREE_STEPS);
    assert Run(Do, s, THREE_STEPS[..0 + 1]) == s.(sockets := s.sockets + {7}, run := Spawn(7));
    assert Run(Do, s, THREE_STEPS[..1 + 1]) == Do(s.(sockets := s.sockets + {7}, run := Spawn(7)), RunStep);
    assert Run(Do, s, THREE_STEPS[..2 + 1]) == Do(Run(Do, s, THREE_STEPS[..2]), RunStep);
  }

  lemma Serves(s: State)
    requires s.run.Accept? && s.lock == Lock({}, None) && !s.isShutdown
    ensures Run(Do, s, SERVE)
         == s.(sockets := s.sockets + {7}, closed := s.closed - {7}, handlers := s.handlers + [Handler(7, Connected, 0)])
  {
    var mid := EnterAlone(s, Runner).(run := Insert(7), closed := s.closed - {7});
    TakesIn(s);
    BringsIn(mid);
    Chain(s, TAKE_IN, mid, THREE_STEPS, Run(Do, mid, THREE_STEPS));
  }

  lemma HangsUp(s: State)
    requires s.handlers == [Handler(7, Connected, 0)]
    ensures Run(Do, s, HANG_UP) == s.(handlers := [Handler(7, Disconnected, 0)])
  {
    RunPrefixes(Do, s, HANG_UP);
    var receiving, gone := Handler(7, Receiving, 0), Handler(7, Disconnected, 0);
    assert s.handlers[0 := receiving] == [receiving] && [receiving][0 := gone] == [gone];
    assert Run(Do, s, HANG_UP[..0 + 1]) == s.(handlers := [receiving]);
    assert Run(Do, s, HANG_UP[..1 + 1]) == Do(s.(handlers := [receiving]), Receives(0, false));
  }

  lemma SaysGoodbye(s: State)
    requires s.handlers == [Handler(7, Disconnected, 0)]
    ensures Run(Do, s, SAY_GOODBYE) == s.(handlers := [Handler(7, WantErase, 1)], closed := s.closed + {7})
  {
    RunPrefixes(Do, s, SAY_GOODBYE);
    assert Run(Do, s, SAY_GOODBYE[..0 + 1]) == s.(handlers := [Handler(7, CloseOwn, 1)]);
    assert Run(Do, s, SAY_GOODBYE[..1 + 1]) == Do(Run(Do, s, SAY_GOODBYE[..1]), HandlerStep(0));
  }

  lemma Erases(s: State, second: Handler)
    requires s.handlers == [Handler(7, WantErase, 1), second] && s.lock == Lock({}, None)
    ensures Run(Do, s, ERASE_IT) == s.(handlers := [Handler(7, Gone, 1), second], sockets := s.sockets - {7})
  {
    var q := ERASE_IT;
    RunPrefixes(Do, s, q);
    assert Run(Do, s, q[..0 + 1]) == EnterAlone(s, HandlerTid(0)).(handlers := [Handler(7, Erase, 1), second]);
    assert Run(Do, s, q[..1 + 1])
        == EnterAlone(s, HandlerTid(0)).(handlers := [Handler(7, LeaveErase, 1), second], sockets := s.sockets - {7});
    assert Run(Do, s, q[..2 + 1]) == Do(Run(Do, s, q[..2]), HandlerStep(0));
  }

  lemma Stops(s: State)
    requires s.run.Accept? && s.late == None
    ensures Run(Do, s, STOP) == s.(isShutdown := true, run := WantCloseAll(false))
  {
    var s1 := s.(isShutdown := true);
    RunPrefixes(Do, s, STOP);
    assert s.closed - {} == s.closed;
    assert Run(Do, s, STOP[..0 + 1]) == s1;
    assert Run(Do, s, STOP[..1 + 1]) == s1.(run := Accepted(None));
    assert Run(Do, s, STOP[..2 + 1]) == Do(s1.(run := Accepted(None)), RunStep);
  }

  lemma ClosesAll(s: State)
    requires s.run == WantCloseAll(false) && s.sockets == {} && s.late == None && s.lock == Lock({}, None)
    ensures Run(Do, s, THREE_STEPS) == s.(run := WantLook(false))
  {
    RunPrefixes(Do, s, THREE_STEPS);
    assert Run(Do, s, THREE_STEPS[..0 + 1]) == EnterAlone(s, Runner).(run := CloseAll(false));
    assert s.closed + {} == s.closed;
    assert Run(Do, s, THREE_STEPS[..1 + 1]) == EnterAlone(s, Runner).(run := LeaveCloseAll(false));
    assert Run(Do, s, THREE_STEPS[..2 + 1]) == Do(Run(Do, s, THREE_STEPS[..2]), RunStep);
  }

  lemma ShutsDown(s: State)
    requires s.run.Accept? && s.sockets == {} && s.late == None && s.lock == Lock({}, None)
    ensures Run(Do, s, SHUT_DOWN) == s.(isShutdown := true, run := WantLook(false))
  {
    var mid := s.(isShutdown := true, run := WantCloseAll(false));
    Stops(s);
    ClosesAll(mid);
    Chain(s, STOP, mid, THREE_STEPS, mid.(run := WantLook(false)));
  }

  lemma Looks(s: State)
    requires s.run == WantLook(false) && s.sockets == {} && s.lock == Lock({}, None)
    ensures Run(Do, s, THREE_STEPS).run == Finished && Run(Do, s, THREE_STEPS).handlers == s.handlers
  {
    RunPrefixes(Do, s, THREE_STEPS);
    assert Run(Do, s, THREE_STEPS[..0 + 1]) == EnterCar(s, Runner).(run := Look(false));
    assert Run(Do, s, THREE_STEPS[..1 + 1]) == EnterCar(s, Runner).(run := LeaveEmpty(false));
    assert Run(Do, s, THREE_STEPS[..2 + 1]) == Do(Run(Do, s, THREE_STEPS[..2]), RunStep);
  }

  const UNTIL_REUSE: seq<Action> := [RunStep] + SERVE + HANG_UP + SAY_GOODBYE + SERVE

  /** The second client is given the first one's descriptor, open again, while the first is
      between closing and erasing it. */
  lemma ReuseIsReachable(init: State)
    requires Init(init) && !init.isShutdown
    ensures Run(Do, init, UNTIL_REUSE)
         == init.(run := Accept, sockets := {7}, handlers := [Handler(7, WantErase, 1), Handler(7, Connected, 0)])
  {
    var s0 := init.(run := Accept);
    var s1 := s0.(sockets := {7}, handlers := [Handler(7, Connected, 0)]);
    var s2 := s1.(handlers := [Handler(7, Disconnected, 0)]);
    var s3 := s2.(handlers := [Handler(7, WantErase, 1)], closed := {7});
    RunSnoc(Do, init, [], RunStep);
    assert [] + [RunStep] == [RunStep];
    assert s0.closed - {7} == {};
    Serves(s0);
    Chain(init, [RunStep], s0, SERVE, s1);
    HangsUp(s1);
    Chain(init, [RunStep] + SERVE, s1, HANG_UP, s2);
    SaysGoodbye(s2);
    Chain(init, [RunStep] + SERVE + HANG_UP, s2, SAY_GOODBYE, s3);
    Serves(s3);
    Chain(init, [RunStep] + SERVE + HANG_UP + SAY_GOODBYE, s3, SERVE, s3.(closed := {}, handlers := [Handler(7, WantErase, 1), Handler(7, Connected, 0)]));
  }

  lemma Chain(s: State, first: seq<Action>, mid: State, second: seq<Action>, end: State)
    requires Run(Do, s, first) == mid && Run(Do, mid, second) == end
    ensures Run(Do, s, first + second) == end
  {
    RunConcat(Do, s, first, second);
  }

  /** If accept hands out a descriptor that a handler has closed and not yet erased, that
      handler erases the newcomer's entry and Run returns with a handler still running. */
  lemma EarlyReuseLosesAHandler(init: State)
    requires Init(init) && !init.isShutdown
    ensures var s := Run(Do, init, UNTIL_REUSE + ERASE_IT + SHUT_DOWN + THREE_STEPS);
            s.run.Finished? && |s.handlers| == 2 && s.handlers[1].pc.Connected? && s.handlers[1].goodbyes == 0
  {
    ReuseIsReachable(init);
    var late := Handler(7, Connected, 0);
    var s4 := Run(Do, init, UNTIL_REUSE);
    var s5 := s4.(handlers := [Handler(7, Gone, 1), late], sockets := {});
    RunConcat(Do, init, UNTIL_REUSE, ERASE_IT);
    RunConcat(Do, init, UNTIL_REUSE + ERASE_IT, SHUT_DOWN);
    RunConcat(Do, init, UNTIL_REUSE + ERASE_IT + SHUT_DOWN, THREE_STEPS);
    Erases(s4, late);
    assert s4.sockets - {7} == {};
    ShutsDown(s5);
    Looks(s5.(isShutdown := true, run := WantLook(false)));
  }
}
