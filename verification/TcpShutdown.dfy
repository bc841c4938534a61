/** Shutdown ends Run of the TCP server: with the flag set, every fair schedule in which accept
    returns, receives on closed sockets fail and the crosswalk lets in who waits brings it to its
    end, and with it every handler. */
module TcpShutdown {
  import opened Machines
  import opened Fairness
  import opened CrossWalkSpec
  import opened TcpServer
  import H = TcpHistory

  /** Run is not called again after its end. */
  function OneRun(s: State, a: Action): State { if a.RunAgain? then s else WithFreshAccepts(s, a) }

  /** Between the accept that ends Run's loop and the end of Run. */
  predicate Tail(p: RunPc) { p.WantCloseAll? || p.CloseAll? || p.LeaveCloseAll? || Waits(p) }

  /** Past DisconnectAllConnectedClients. */
  predicate Waits(p: RunPc) { p.WantLook? || p.Look? || p.LeaveLook? || p.LeaveEmpty? }

  predicate ClosedOk(s: State) { s.run.LeaveCloseAll? || Waits(s.run) ==> s.sockets <= s.closed }

  /** Run is on its way to its end, or will be at its next accept. */
  predicate EndComes(s: State) { s.isShutdown || Tail(s.run) || Ended(s.run) }

  ghost predicate Stopping(s: State) { Inv(s) && ClosedOk(s) && EndComes(s) }

  // ----- what is left to do

  function HandlerWeight(p: HandlerPc): nat {
    match p
    case Connected => 7
    case Receiving => 6
    case Disconnected => 5
    case CloseOwn => 4
    case WantErase => 3
    case Erase => 2
    case LeaveErase => 1
    case Gone => 0
  }

  function HandlersLeft(hs: seq<Handler>): nat {
    if hs == [] then 0 else HandlerWeight(hs[0].pc) + HandlersLeft(hs[1..])
  }

  /** A handler that is being started is counted with Run; the loop that waits for the handlers
      has nothing to do until they are gone. */
  function RunLeft(p: RunPc, empty: bool): nat {
    match p
    case Start => 1
    case WantInsert(_) => 21
    case Insert(_) => 20
    case Spawn(_) => 19
    case LeaveInsert => 11
    case Accept => 10
    case Accepted(_) => 9
    case WantCloseAll(_) => 8
    case CloseAll(_) => 7
    case LeaveCloseAll(_) => 6
    case LeaveLook(_) => if empty then 4 else 5
    case WantLook(_) => if empty then 3 else 5
    case Look(_) => if empty then 2 else 5
    case LeaveEmpty(_) => if empty then 1 else 5
    case _ => 0
  }

  function Left(s: State): nat { HandlersLeft(s.handlers) + RunLeft(s.run, s.sockets == {}) }

  lemma {:induction false} HandlersUpdate(hs: seq<Handler>, k: nat, h: Handler)
    requires k < |hs|
    ensures HandlersLeft(hs[k := h]) == HandlersLeft(hs) - HandlerWeight(hs[k].pc) + HandlerWeight(h.pc)
  {
    if k == 0 {
      assert hs[0 := h][1..] == hs[1..];
    } else {
      assert hs[k := h][1..] == hs[1..][k - 1 := h];
      HandlersUpdate(hs[1..], k - 1, h);
    }
  }

  lemma {:induction false} HandlersMore(hs: seq<Handler>, h: Handler)
    ensures HandlersLeft(hs + [h]) == HandlersLeft(hs) + HandlerWeight(h.pc)
  {
    if hs == [] {
      assert [h][1..] == [];
    } else {
      assert (hs + [h])[1..] == hs[1..] + [h];
      HandlersMore(hs[1..], h);
    }
  }

  // ----- steps

  /** Run goes round waiting while there are clients. */
  predicate Circles(s: State) { Waits(s.run) && s.sockets != {} }

  lemma RunStepShape(s: State)
    ensures DoRun(s).handlers == if s.run.Spawn? then s.handlers + [Handler(s.run.fd, Connected, 0)] else s.handlers
    ensures DoRun(s).run == s.run ==> DoRun(s) == s
  {}

  /** The new handler is paid for. */
  lemma RunWeightFalls(s: State)
    requires EndComes(s)
    ensures var before, after := RunLeft(s.run, s.sockets == {}), RunLeft(DoRun(s).run, DoRun(s).sockets == {});
            var added := if s.run.Spawn? then 7 else 0;
            after + added <= before && (!Circles(s) && DoRun(s).run != s.run ==> after + added < before)
  {}

  lemma RunStepLeft(s: State)
    requires Stopping(s)
    ensures Left(DoRun(s)) <= Left(s)
    ensures !Circles(s) && DoRun(s).run != s.run ==> Left(DoRun(s)) < Left(s)
    ensures DoRun(s).run == s.run ==> DoRun(s) == s
  {
    RunStepShape(s);
    RunWeightFalls(s);
    if s.run.Spawn? { HandlersMore(s.handlers, Handler(s.run.fd, Connected, 0)); }
  }

  /** One handler moves; the set may lose its socket. */
  lemma HandlerStepShape(s: State, k: nat)
    requires k < |s.handlers|
    ensures var s' := DoHandler(s, k);
            && |s'.handlers| == |s.handlers| && s'.handlers == s.handlers[k := s'.handlers[k]]
            && s'.run == s.run && s'.sockets <= s.sockets
            && (s'.handlers[k] == s.handlers[k] ==> s' == s)
            && (s'.handlers[k] != s.handlers[k] ==> HandlerWeight(s'.handlers[k].pc) + 1 == HandlerWeight(s.handlers[k].pc))
  {}

  lemma FewerClients(p: RunPc, empty: bool, empty': bool)
    requires empty ==> empty'
    ensures RunLeft(p, empty') <= RunLeft(p, empty)
  {}

  lemma HandlerStepLeft(s: State, k: nat)
    requires k < |s.handlers|
    ensures Left(DoHandler(s, k)) <= Left(s)
    ensures DoHandler(s, k) == s || Left(DoHandler(s, k)) < Left(s)
    ensures DoHandler(s, k).run == s.run && |DoHandler(s, k).handlers| == |s.handlers|
  {
    var s' := DoHandler(s, k);
    HandlerStepShape(s, k);
    HandlersUpdate(s.handlers, k, s'.handlers[k]);
    FewerClients(s.run, s.sockets == {}, s'.sockets == {});
  }

  lemma ReceiveLeft(s: State, k: nat, ok: bool)
    ensures Left(Do(s, Receives(k, ok))) <= Left(s)
    ensures Do(s, Receives(k, ok)) == s || Left(Do(s, Receives(k, ok))) < Left(s)
  {
    if k < |s.handlers| && s.handlers[k].pc.Receiving? && !ok {
      HandlersUpdate(s.handlers, k, s.handlers[k].(pc := Disconnected));
    }
  }

  lemma OthersLeft(s: State, a: Action)
    requires !a.RunStep? && !a.HandlerStep? && !a.Receives? && !a.RunAgain?
    ensures Do(s, a).handlers == s.handlers && Do(s, a).sockets == s.sockets
    ensures Left(Do(s, a)) <= Left(s)
    ensures Do(s, a).run == s.run || Left(Do(s, a)) < Left(s)
  {}

  lemma StaysClosed(s: State, a: Action)
    requires ClosedOk(s)
    ensures ClosedOk(Do(s, a))
  {}

  lemma StaysShut(s: State, a: Action)
    requires EndComes(s) && !a.RunAgain?
    ensures EndComes(Do(s, a))
  {}

  lemma StepStays(s: State, a: Action)
    requires Stopping(s)
    ensures Stopping(OneRun(s, a)) && Left(OneRun(s, a)) <= Left(s)
  {
    if FreshAccept(s, a) && !a.RunAgain? {
      DoKeepsInv(s, a);
      StaysClosed(s, a);
      StaysShut(s, a);
      match a
      case RunStep => RunStepLeft(s);
      case HandlerStep(k) => if k < |s.handlers| { HandlerStepLeft(s, k); }
      case Receives(k, ok) => ReceiveLeft(s, k, ok);
      case _ => OthersLeft(s, a);
    }
  }

  /** Whatever moves Run, or empties the set, leaves less to do, the waiting loop aside. */
  lemma RunStaysOrFalls(s: State, a: Action)
    requires Stopping(s) && !Circles(s)
    ensures var s' := OneRun(s, a);
            (s'.run == s.run && (s'.sockets == {} <==> s.sockets == {})) || Left(s') < Left(s)
  {
    match a
    case RunStep => RunStepLeft(s);
    case HandlerStep(k) => if k < |s.handlers| { HandlerStepLeft(s, k); }
    case Receives(k, ok) => ReceiveLeft(s, k, ok);
    case RunAgain =>
    case _ => OthersLeft(s, a);
  }

  lemma HandlerStaysOrFalls(s: State, a: Action, k: nat)
    requires Stopping(s) && k < |s.handlers|
    ensures var s' := OneRun(s, a);
            (k < |s'.handlers| && s'.handlers[k] == s.handlers[k] && s.closed <= s'.closed) || Left(s') < Left(s)
  {
    match a
    case RunStep => RunStepLeft(s);
    case HandlerStep(j) => if j < |s.handlers| { HandlerStepLeft(s, j); }
    case Receives(j, ok) => ReceiveLeft(s, j, ok);
    case RunAgain =>
    case _ => OthersLeft(s, a);
  }

  // ----- what the schedule has to give

  /** Run and every handler are scheduled again and again. */
  ghost predicate FairToAll(f: nat -> Action) {
    && (forall n: nat :: ScheduledFrom(f, RunStep, n))
    && (forall k: nat, n: nat :: ScheduledFrom(f, HandlerStep(k), n))
  }

  ghost predicate AcceptReturns(f: nat -> Action, s: State) {
    forall n: nat :: AcceptsFrom(f, s, n)
  }

  ghost predicate AcceptsFrom(f: nat -> Action, s: State, n: nat) {
    exists m: nat :: n <= m && f(m).Accepts? && FreshAccept(After(OneRun, f, s, m), f(m))
  }

  predicate Deaf(s: State, k: nat) { k < |s.handlers| && s.handlers[k].pc.Receiving? && s.handlers[k].fd in s.closed }

  /** A handler that receives on a closed socket is told so. */
  ghost predicate ClosedReceivesFail(f: nat -> Action, s: State) {
    forall k: nat, n: nat :: Deaf(After(OneRun, f, s, n), k) ==> ScheduledFrom(f, Receives(k, false), n)
  }

  predicate RunWants(s: State) { s.run.WantInsert? || s.run.WantCloseAll? || s.run.WantLook? }

  predicate RunMayEnter(s: State) { if s.run.WantLook? then CarMayEnter(s.lock) else PedestrianMayEnter(s.lock) }

  predicate HandlerWants(s: State, k: nat) { k < |s.handlers| && s.handlers[k].pc.WantErase? }

  /** The crosswalk lets in who waits; of a pedestrian with Mtx that is what `CrossWalkService` proves. */
  ghost predicate WaitersGetIn(f: nat -> Action, s: State) {
    && (forall n: nat :: RunWants(After(OneRun, f, s, n)) ==> RunGetsIn(f, s, n))
    && (forall k: nat, n: nat :: HandlerWants(After(OneRun, f, s, n), k) ==> HandlerGetsIn(f, s, k, n))
  }

  ghost predicate RunGetsIn(f: nat -> Action, s: State, n: nat) {
    exists m: nat :: n <= m && f(m) == RunStep && RunMayEnter(After(OneRun, f, s, m))
  }

  ghost predicate HandlerGetsIn(f: nat -> Action, s: State, k: nat, n: nat) {
    exists m: nat :: n <= m && f(m) == HandlerStep(k) && PedestrianMayEnter(After(OneRun, f, s, m).lock)
  }

  // ----- somebody has less to do later

  lemma RunMoves(s: State, a: Action)
    requires Stopping(s) && !Circles(s) && !Ended(s.run)
    requires if s.run.Accept? then a.Accepts? && FreshAccept(s, a) else a.RunStep? && (RunWants(s) ==> RunMayEnter(s))
    ensures Left(OneRun(s, a)) < Left(s)
  {
    if a.RunStep? { RunStepLeft(s); } else { OthersLeft(s, a); }
  }

  lemma HandlerMoves(s: State, a: Action, k: nat)
    requires Stopping(s) && k < |s.handlers| && !Erased(s.handlers[k].pc)
    requires if s.handlers[k].pc.Receiving? then a == Receives(k, false)
             else a == HandlerStep(k) && (HandlerWants(s, k) ==> PedestrianMayEnter(s.lock))
    ensures Left(OneRun(s, a)) < Left(s)
  {
    if a.HandlerStep? {
      HandlerStepLeft(s, k);
      assert DoHandler(s, k).handlers[k].pc != s.handlers[k].pc;
    } else {
      ReceiveLeft(s, k, false);
      assert Do(s, a).handlers[k].pc != s.handlers[k].pc;
    }
  }

  /** Run stands at `r`, with clients or without. */
  ghost predicate RunAt(r: RunPc, empty: bool, s: State) { s.run == r && (s.sockets == {} <==> empty) }

  lemma RunTurn(f: nat -> Action, s: State, n: nat) returns (m: nat)
    requires FairToAll(f) && AcceptReturns(f, s) && WaitersGetIn(f, s)
    ensures n <= m
    ensures var here, there := After(OneRun, f, s, n), After(OneRun, f, s, m);
            if here.run.Accept? then f(m).Accepts? && FreshAccept(there, f(m))
            else f(m).RunStep? && (RunWants(here) && there.run == here.run ==> RunMayEnter(there))
  {
    var here := After(OneRun, f, s, n);
    if here.run.Accept? {
      assert AcceptsFrom(f, s, n);
      m :| n <= m && f(m).Accepts? && FreshAccept(After(OneRun, f, s, m), f(m));
    } else if RunWants(here) {
      assert RunGetsIn(f, s, n);
      m :| n <= m && f(m) == RunStep && RunMayEnter(After(OneRun, f, s, m));
    } else {
      assert ScheduledFrom(f, RunStep, n);
      m :| n <= m && f(m) == RunStep;
    }
  }

  lemma RunGoesOn(f: nat -> Action, s: State, n: nat)
    requires FairToAll(f) && AcceptReturns(f, s) && WaitersGetIn(f, s)
    requires var here := After(OneRun, f, s, n); Stopping(here) && !Circles(here) && !Ended(here.run)
    ensures FallsLater(OneRun, Left, f, s, n)
  {
    var here := After(OneRun, f, s, n);
    var r, empty := here.run, here.sockets == {};
    var busy := (x: State) => RunAt(r, empty, x);
    var m := RunTurn(f, s, n);
    forall x: State, a: Action | Stopping(x) ensures Stopping(OneRun(x, a)) && Left(OneRun(x, a)) <= Left(x) {
      StepStays(x, a);
    }
    forall x: State, a: Action | Stopping(x) && busy(x)
      ensures busy(OneRun(x, a)) || Left(OneRun(x, a)) < Left(x)
    {
      RunStaysOrFalls(x, a);
    }
    var there := After(OneRun, f, s, m);
    if Stopping(there) && busy(there) { RunMoves(there, f(m)); }
    FallsWhenTaken(OneRun, Stopping, busy, Left, f, s, n, m);
  }

  ghost predicate HandlerAt(k: nat, h: Handler, closed: set<Fd>, s: State) {
    k < |s.handlers| && s.handlers[k] == h && closed <= s.closed
  }

  lemma HandlerTurn(f: nat -> Action, s: State, k: nat, n: nat) returns (m: nat)
    requires FairToAll(f) && ClosedReceivesFail(f, s) && WaitersGetIn(f, s)
    requires var here := After(OneRun, f, s, n); k < |here.handlers| && here.handlers[k].fd in here.closed
    ensures n <= m
    ensures var here, there := After(OneRun, f, s, n), After(OneRun, f, s, m);
            if here.handlers[k].pc.Receiving? then f(m) == Receives(k, false)
            else f(m) == HandlerStep(k) && (HandlerWants(here, k) ==> PedestrianMayEnter(there.lock))
  {
    var here := After(OneRun, f, s, n);
    if here.handlers[k].pc.Receiving? {
      assert Deaf(here, k);
      assert ScheduledFrom(f, Receives(k, false), n);
      m :| n <= m && f(m) == Receives(k, false);
    } else if HandlerWants(here, k) {
      assert HandlerGetsIn(f, s, k, n);
      m :| n <= m && f(m) == HandlerStep(k) && PedestrianMayEnter(After(OneRun, f, s, m).lock);
    } else {
      assert ScheduledFrom(f, HandlerStep(k), n);
      m :| n <= m && f(m) == HandlerStep(k);
    }
  }

  lemma HandlerGoesOn(f: nat -> Action, s: State, k: nat, n: nat)
    requires FairToAll(f) && ClosedReceivesFail(f, s) && WaitersGetIn(f, s)
    requires var here := After(OneRun, f, s, n);
             Stopping(here) && k < |here.handlers| && !Erased(here.handlers[k].pc) && here.handlers[k].fd in here.closed
    ensures FallsLater(OneRun, Left, f, s, n)
  {
    var here := After(OneRun, f, s, n);
    var h, closed := here.handlers[k], here.closed;
    var busy := (x: State) => HandlerAt(k, h, closed, x);
    var m := HandlerTurn(f, s, k, n);
    forall x: State, a: Action | Stopping(x) ensures Stopping(OneRun(x, a)) && Left(OneRun(x, a)) <= Left(x) {
      StepStays(x, a);
    }
    forall x: State, a: Action | Stopping(x) && busy(x)
      ensures busy(OneRun(x, a)) || Left(OneRun(x, a)) < Left(x)
    {
      HandlerStaysOrFalls(x, a, k);
    }
    var there := After(OneRun, f, s, m);
    if Stopping(there) && busy(there) { HandlerMoves(there, f(m), k); }
    FallsWhenTaken(OneRun, Stopping, busy, Left, f, s, n, m);
  }

  lemma NoClient(fds: set<Fd>)
    requires forall fd: Fd :: fd !in fds
    ensures fds == {}
  {
    forall fd: Fd | fd in fds ensures false {}
    assert fds <= {};
  }

  lemma SomeClient(fds: set<Fd>) returns (fd: Fd)
    requires fds != {}
    ensures fd in fds
  {
    if forall x: Fd :: x !in fds {
      NoClient(fds);
      assert false;
    }
    fd :| fd in fds;
  }

  /** While Run waits with clients left, one of them has a handler that can go on. */
  lemma SomeHandlerIsLeft(s: State) returns (k: nat)
    requires Stopping(s) && Circles(s)
    ensures k < |s.handlers| && !Erased(s.handlers[k].pc) && s.handlers[k].fd in s.closed
  {
    var fd := SomeClient(s.sockets);
    assert Owned(s.handlers, fd);
    k :| 0 <= k < |s.handlers| && Owns(s.handlers, k, fd);
  }

  /** With the flag set Run comes to its end, and then every handler has said goodbye and gone
      from the set. */
  lemma ShutdownEndsRun(s: State, f: nat -> Action) returns (n: nat)
    requires Stopping(s) && FairToAll(f) && AcceptReturns(f, s) && ClosedReceivesFail(f, s) && WaitersGetIn(f, s)
    ensures var s' := After(OneRun, f, s, n);
            && Ended(s'.run) && s'.sockets == {}
            && forall k | 0 <= k < |s'.handlers| :: Erased(s'.handlers[k].pc) && s'.handlers[k].goodbyes == 1
  {
    forall x: State, a: Action | Stopping(x) ensures Stopping(OneRun(x, a)) && Left(OneRun(x, a)) <= Left(x) {
      StepStays(x, a);
    }
    forall m: nat | !Ended(After(OneRun, f, s, m).run) ensures FallsLater(OneRun, Left, f, s, m) {
      NotHigher(OneRun, Stopping, Left, f, s, 0, m);
      var here := After(OneRun, f, s, m);
      if Circles(here) {
        var k := SomeHandlerIsLeft(here);
        HandlerGoesOn(f, s, k, m);
      } else {
        RunGoesOn(f, s, m);
      }
    }
    n := ByRank(OneRun, (x: State) => Ended(x.run), Left, f, s, 0);
    NotHigher(OneRun, Stopping, Left, f, s, 0, n);
  }

  // ----- when accept has failed

  /** Handlers close before they erase. */
  predicate OwnClosedOk(s: State) {
    forall k | 0 <= k < |s.handlers| :: s.handlers[k].pc.WantErase? || s.handlers[k].pc.Erase? ==> s.handlers[k].fd in s.closed
  }

  lemma RunStaysOwnClosed(s: State)
    requires OwnClosedOk(s)
    ensures OwnClosedOk(DoRun(s))
  {}

  lemma StaysOwnClosed(s: State, a: Action)
    requires OwnClosedOk(s) && InSetOk(s) && FreshAccept(s, a)
    ensures OwnClosedOk(Do(s, a))
  {
    if a.RunStep? { RunStaysOwnClosed(s); }
  }

  /** Run is on its way to throwing, and the descriptors `fds` are closed or will be. */
  ghost predicate Throwing(fds: set<Fd>, s: State) {
    && Inv(s) && OwnClosedOk(s) && H.OnTheWayOut(s.run, true)
    && forall fd | fd in fds :: fd in s.closed || (fd in s.sockets && (s.run.WantCloseAll? || s.run.CloseAll?))
  }

  lemma StaysThrowing(fds: set<Fd>, s: State, a: Action)
    requires Throwing(fds, s)
    ensures Throwing(fds, OneRun(s, a))
  {
    if FreshAccept(s, a) && !a.RunAgain? {
      DoKeepsInv(s, a);
      StaysOwnClosed(s, a);
      if a.HandlerStep? && a.k < |s.handlers| { HandlerStaysThrowing(fds, s, a.k); }
    }
  }

  lemma HandlerStaysThrowing(fds: set<Fd>, s: State, k: nat)
    requires Throwing(fds, s) && k < |s.handlers|
    ensures var s' := DoHandler(s, k);
            s'.run == s.run && s.closed <= s'.closed && forall fd | fd in s.sockets :: fd in s'.sockets || fd in s'.closed
  {}

  /** A state of the server with its history, as every run reaches it. */
  ghost predicate Sound(x: H.Observed) { H.Inv(x) && ClosedOk(x.t) && OwnClosedOk(x.t) }

  lemma ReachableSound(init: H.Observed, schedule: seq<Action>)
    requires H.Init(init)
    ensures Sound(Run(H.Do, init, schedule))
  {
    assert H.Inv(init);
    forall x: H.Observed, a: Action | Sound(x) ensures Sound(H.Do(x, a)) {
      H.DoKeepsInv(x, a);
      if FreshAccept(x.t, a) { StaysClosed(x.t, a); StaysOwnClosed(x.t, a); }
    }
    InvariantOfRuns(H.Do, Sound, init, schedule);
  }

  /** After an accept that failed with no Shutdown called, every schedule as above brings Run to
      its exception: every descriptor that was in the set is closed, the set is empty, and every
      handler has said goodbye once and gone. */
  lemma FailedAcceptEndsRun(x: H.Observed, f: nat -> Action) returns (n: nat)
    requires Sound(x) && x.h.verdict.FailedAccept?
    requires FairToAll(f) && AcceptReturns(f, x.t) && ClosedReceivesFail(f, x.t) && WaitersGetIn(f, x.t)
    ensures var s' := After(OneRun, f, x.t, n);
            && s'.run.Threw? && s'.sockets == {} && x.t.sockets <= s'.closed
            && forall k | 0 <= k < |s'.handlers| :: Erased(s'.handlers[k].pc) && s'.handlers[k].goodbyes == 1
  {
    var s, fds := x.t, x.t.sockets;
    assert Throwing(fds, s);
    n := ShutdownEndsRun(s, f);
    forall y: State, a: Action | Throwing(fds, y) ensures Throwing(fds, OneRun(y, a)) { StaysThrowing(fds, y, a); }
    AfterKeeps(OneRun, (y: State) => Throwing(fds, y), f, s, 0, n);
    AllClosed(fds, After(OneRun, f, s, n));
  }

  lemma AllClosed(fds: set<Fd>, s: State)
    requires Throwing(fds, s) && Ended(s.run)
    ensures s.run.Threw? && fds <= s.closed
  {
    forall fd | fd in fds ensures fd in s.closed {}
  }

  /** Every state that the server reaches before it is told to stop is one to stop from. */
  lemma ReachableClosed(init: State, schedule: seq<Action>)
    requires Init(init)
    ensures var s := Run(WithFreshAccepts, init, schedule); Inv(s) && ClosedOk(s)
    ensures Stopping(Do(Run(WithFreshAccepts, init, schedule), Shutdown))
  {
    var inv := (s: State) => Inv(s) && ClosedOk(s);
    forall s: State, a: Action | inv(s) ensures inv(WithFreshAccepts(s, a)) {
      if FreshAccept(s, a) { DoKeepsInv(s, a); StaysClosed(s, a); }
    }
    InvariantOfRuns(WithFreshAccepts, inv, init, schedule);
    DoKeepsInv(Run(WithFreshAccepts, init, schedule), Shutdown);
  }
}
