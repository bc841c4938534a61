/** The TCP server as the source writes it, over the crosswalk as a lock.  A call performs the
    next operation of the thread in question; a thread the crosswalk holds back stays. */
module ThreadTcpServerObject {
  import opened Options
  import opened CrossWalkSpec
  import S = TcpServer
  import H = TcpHistory

  /** What a step of Run means for where it is going. */
  predicate GoesItsWay(s: S.State, s': S.State) {
    // an accept that failed, one that found a Shutdown, and one that brought a client
    && (s.run == S.Accepted(None) && !s.isShutdown ==> H.OnTheWayOut(s'.run, true))
    && (s.run.Accepted? && s.isShutdown ==> H.OnTheWayOut(s'.run, false))
    && (s.run.Accepted? && s.run.incoming.Some? && !s.isShutdown ==> s'.run == S.WantInsert(s.run.incoming.value))
    // either way out is kept to
    && (H.OnTheWayOut(s.run, true) ==> H.OnTheWayOut(s'.run, true))
    && (H.OnTheWayOut(s.run, false) ==> H.OnTheWayOut(s'.run, false))
    // to return is to lower the flag, and nothing else does
    && (!S.Ended(s.run) && (s'.run.Finished? || s'.run.NotStarted?) ==> !s'.isShutdown)
    && (!(s'.run.Finished? || s'.run.NotStarted?) ==> s'.isShutdown == s.isShutdown)
  }

  lemma RunGoesItsWay(s: S.State)
    ensures GoesItsWay(s, S.DoRun(s))
  {}

  class TcpServer {
    var run: S.RunPc
    var handlers: seq<S.Handler>
    var ClientSockets: set<S.Fd>
    var closed: set<S.Fd>
    var IncomingConnection: Option<S.Fd>
    var CrossWalk: Lock<S.Who>
    var IsShutdown: bool

    function View(): S.State
      reads this
    {
      S.State(run, handlers, ClientSockets, closed, IncomingConnection, CrossWalk, IsShutdown)
    }

    ghost predicate Valid()
      reads this
    {
      S.Inv(View())
    }

    constructor ()
      ensures S.Init(View()) && !IsShutdown && Valid()
    {
      run, handlers, ClientSockets, closed, IncomingConnection, CrossWalk, IsShutdown := S.Start, [], {}, {}, None, Lock({}, None), false;
    }

    /** Run, DisconnectAllConnectedClients and WaitWhileAllClientsDisconnect. */
    method Run()
      requires Valid()
      modifies this
      ensures View() == S.Do(old(View()), S.RunStep) && Valid()
      // it changes the set alone on the road, and ends with every client seen off
      ensures ClientSockets != old(ClientSockets) ==> CrossWalk == Lock({}, Some(S.Runner))
      ensures run.Finished? || run.Threw? ==>
                ClientSockets == {} && forall k | 0 <= k < |handlers| :: handlers[k].goodbyes == 1 && S.Erased(handlers[k].pc)
      ensures GoesItsWay(old(View()), View())
    {
      S.DoKeepsInv(View(), S.RunStep);
      RunGoesItsWay(View());
      NextOperation();
    }

    method NextOperation()
      modifies this
      ensures View() == S.Do(old(View()), S.RunStep)
    {
      match run {
        case Start => if IsShutdown { IsShutdown := false; run := S.NotStarted; } else { run := S.Accept; }
        case Accepted(incoming) =>
          if IsShutdown { run := S.WantCloseAll(false); IncomingConnection := incoming; }
          else if incoming.None? { run := S.WantCloseAll(true); }
          else { run := S.WantInsert(incoming.value); }
        case WantInsert(fd) => if PedestrianMayEnter(CrossWalk) { Alone(S.Runner); run := S.Insert(fd); }
        case Insert(fd) => ClientSockets := ClientSockets + {fd}; run := S.Spawn(fd);
        case Spawn(fd) => handlers := handlers + [S.Handler(fd, S.Connected, 0)]; run := S.LeaveInsert;
        case LeaveInsert => NotAlone(); run := S.Accept;
        case WantCloseAll(_) | CloseAll(_) | LeaveCloseAll(_) => DisconnectAllConnectedClients();
        case WantLook(_) | Look(_) | LeaveLook(_) | LeaveEmpty(_) => WaitWhileAllClientsDisconnect();
        case Accept | Finished | Threw | NotStarted =>
      }
    }

    /** Run is called once more. */
    method RunAgain()
      requires Valid() && S.Ended(run)
      modifies this`run
      ensures View() == S.Do(old(View()), S.RunAgain) && Valid() && run.Start?
    {
      S.DoKeepsInv(View(), S.RunAgain);
      run := S.Start;
    }

    /** And, once out of the crosswalk, what Run does next: close what came after Shutdown. */
    method DisconnectAllConnectedClients()
      requires run.WantCloseAll? || run.CloseAll? || run.LeaveCloseAll?
      modifies this`CrossWalk, this`closed, this`IncomingConnection, this`run
      ensures View() == S.Do(old(View()), S.RunStep)
    {
      match run {
        case WantCloseAll(f) => if PedestrianMayEnter(CrossWalk) { Alone(S.Runner); run := S.CloseAll(f); }
        case CloseAll(f) => closed := closed + ClientSockets; run := S.LeaveCloseAll(f);
        case LeaveCloseAll(f) =>
          NotAlone();
          if IncomingConnection.Some? { closed := closed + {IncomingConnection.value}; IncomingConnection := None; }
          run := S.WantLook(f);
      }
    }

    /** What Run does after it, too: lower the flag, or throw on. */
    method WaitWhileAllClientsDisconnect()
      requires run.WantLook? || run.Look? || run.LeaveLook? || run.LeaveEmpty?
      modifies this`CrossWalk, this`IsShutdown, this`run
      ensures View() == S.Do(old(View()), S.RunStep)
    {
      match run {
        case WantLook(f) => if CarMayEnter(CrossWalk) { Look(S.Runner); run := S.Look(f); }
        case Look(f) => run := if ClientSockets == {} then S.LeaveEmpty(f) else S.LeaveLook(f);
        case LeaveLook(f) => NoLook(S.Runner); run := S.WantLook(f);
        case LeaveEmpty(f) => NoLook(S.Runner); if f { run := S.Threw; } else { run := S.Finished; IsShutdown := false; }
      }
    }

    /** accept returns. */
    method Accept(incoming: Option<S.Fd>)
      requires Valid() && run.Accept? && (incoming.Some? ==> incoming.value !in ClientSockets)
      modifies this`run, this`closed
      ensures View() == S.Do(old(View()), S.Accepts(incoming)) && Valid()
    {
      S.DoKeepsInv(View(), S.Accepts(incoming));
      if incoming.Some? { closed := closed - {incoming.value}; }
      run := S.Accepted(incoming);
    }

    method ClientHandler(k: nat)
      requires Valid() && k < |handlers|
      modifies this
      ensures View() == S.Do(old(View()), S.HandlerStep(k)) && Valid()
      // it changes the set alone on the road, and is gone with one goodbye said
      ensures ClientSockets != old(ClientSockets) ==>
                CrossWalk == Lock({}, Some(S.HandlerTid(k))) && ClientSockets == old(ClientSockets) - {handlers[k].fd}
      ensures handlers[k].pc.Gone? ==> handlers[k].goodbyes == 1
    {
      S.DoKeepsInv(View(), S.HandlerStep(k));
      var h := handlers[k];
      match h.pc {
        case Connected => handlers := handlers[k := h.(pc := S.Receiving)];
        case Disconnected => handlers := handlers[k := h.(goodbyes := h.goodbyes + 1, pc := S.CloseOwn)];
        case CloseOwn => closed := closed + {h.fd}; handlers := handlers[k := h.(pc := S.WantErase)];
        case WantErase => if PedestrianMayEnter(CrossWalk) { Alone(S.HandlerTid(k)); handlers := handlers[k := h.(pc := S.Erase)]; }
        case Erase => ClientSockets := ClientSockets - {h.fd}; handlers := handlers[k := h.(pc := S.LeaveErase)];
        case LeaveErase => NotAlone(); handlers := handlers[k := h.(pc := S.Gone)];
        case Receiving | Gone =>
      }
    }

    /** TCP_Recv in the handler's loop returns. */
    method Receive(k: nat, ok: bool)
      requires Valid() && k < |handlers| && handlers[k].pc.Receiving?
      modifies this`handlers
      ensures View() == S.Do(old(View()), S.Receives(k, ok)) && Valid()
    {
      S.DoKeepsInv(View(), S.Receives(k, ok));
      if !ok { handlers := handlers[k := handlers[k].(pc := S.Disconnected)]; }
    }

    /** SendToClient and the other members that only look: whether `fd` is a client, seen as a car. */
    method Find(t: nat, fd: S.Fd) returns (found: bool)
      requires Valid() && S.ReaderTid(t) in CrossWalk.cars
      ensures found <==> fd in ClientSockets
      ensures CrossWalk.pedestrian.None?
    {
      found := fd in ClientSockets;
    }

    method Shutdown()
      requires Valid()
      modifies this`IsShutdown
      ensures View() == S.Do(old(View()), S.Shutdown) && Valid()
    {
      S.DoKeepsInv(View(), S.Shutdown);
      IsShutdown := true;
    }

    method Alone(w: S.Who)
      modifies this`CrossWalk
      ensures CrossWalk == old(CrossWalk).(pedestrian := Some(w))
    {
      CrossWalk := CrossWalk.(pedestrian := Some(w));
    }

    method NotAlone()
      modifies this`CrossWalk
      ensures CrossWalk == old(CrossWalk).(pedestrian := None)
    {
      CrossWalk := CrossWalk.(pedestrian := None);
    }

    method Look(w: S.Who)
      modifies this`CrossWalk
      ensures CrossWalk == old(CrossWalk).(cars := old(CrossWalk).cars + {w})
    {
      CrossWalk := CrossWalk.(cars := CrossWalk.cars + {w});
    }

    method NoLook(w: S.Who)
      modifies this`CrossWalk
      ensures CrossWalk == old(CrossWalk).(cars := old(CrossWalk).cars - {w})
    {
      CrossWalk := CrossWalk.(cars := CrossWalk.cars - {w});
    }
  }
}
