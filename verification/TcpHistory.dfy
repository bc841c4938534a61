/** Why Run ends.

    A history observes the TCP server without influencing it: whether Shutdown was called since
    the flag was last lowered, and what the latest call of Run found when accept returned. */
module TcpHistory {
  import opened Machines
  import opened Options
  import opened CrossWalkSpec
  import opened T = TcpServer

  datatype Verdict =
    | NoneYet               // no accept of this call has been judged
    | FoundAtStart          // a Shutdown had been called before Run
    | FoundShut             // a Shutdown was called before accept returned
    | FailedAccept          // accept failed, and none was
    | Admitted(fd: Fd)

  /** `arrived` is what the latest accept returned. */
  datatype History = History(asked: bool, arrived: Option<Fd>, verdict: Verdict)

  datatype Observed = Observed(t: State, h: History)

  predicate Init(s: Observed) {
    T.Init(s.t) && s.h.asked == s.t.isShutdown && s.h.verdict == NoneYet
  }

  function Judged(h: History): Verdict {
    if h.asked then FoundShut else match h.arrived case None => FailedAccept case Some(fd) => Admitted(fd)
  }

  /** A Run that was told to stop lowers the flag when it returns. */
  function NoteRun(s: Observed): History {
    match s.t.run
    case Start => if s.h.asked then s.h.(asked := false, verdict := FoundAtStart) else s.h.(verdict := NoneYet)
    case Accepted(_) => s.h.(verdict := Judged(s.h))
    case LeaveEmpty(_) => if s.h.verdict.FoundShut? then s.h.(asked := false) else s.h
    case _ => s.h
  }

  function Note(s: Observed, a: Action): History {
    match a
    case RunStep => NoteRun(s)
    case RunAgain => if Ended(s.t.run) then s.h.(verdict := NoneYet) else s.h
    case Accepts(incoming) => if s.t.run.Accept? then s.h.(arrived := incoming) else s.h
    case Shutdown => s.h.(asked := true)
    case _ => s.h
  }

  /** As before, accept hands out no descriptor that is still in the set. */
  function Do(s: Observed, a: Action): Observed {
    if FreshAccept(s.t, a) then Observed(T.Do(s.t, a), Note(s, a)) else s
  }

  // ----- the invariant

  /** Where Run is after such a verdict. */
  predicate VerdictOk(r: RunPc, h: History) {
    match r
    case Start => h.verdict.NoneYet?
    case Accept => h.verdict.NoneYet? || h.verdict.Admitted?
    case Accepted(incoming) => incoming == h.arrived && (h.verdict.NoneYet? || h.verdict.Admitted?)
    case WantInsert(fd) => h.verdict == Admitted(fd)
    case Insert(fd) => h.verdict == Admitted(fd)
    case Spawn(fd) => h.verdict == Admitted(fd)
    case LeaveInsert => h.verdict.Admitted?
    case Finished => h.verdict.FoundShut?
    case Threw => h.verdict.FailedAccept?
    case NotStarted => h.verdict.FoundAtStart?
    case _ => if r.failed then h.verdict.FailedAccept? else h.verdict.FoundShut? && h.asked
  }

  /** Before Run looks for clients that are left it closes what came after Shutdown. */
  predicate LateOk(s: Observed) {
    && (ClosesClients(s.t.run) || s.t.late == None)
    && (s.h.verdict.FoundShut? && s.h.arrived.Some? ==>
          if ClosesClients(s.t.run) then s.t.late == s.h.arrived else s.h.arrived.value in s.t.closed)
    && (s.h.verdict.FailedAccept? ==> s.t.late == None)
  }

  predicate ClosesClients(r: RunPc) { r.WantCloseAll? || r.CloseAll? || r.LeaveCloseAll? }

  predicate HistoryOk(s: Observed) {
    (s.h.asked <==> s.t.isShutdown) && VerdictOk(s.t.run, s.h) && LateOk(s)
  }

  predicate Inv(s: Observed) { T.Inv(s.t) && HistoryOk(s) }

  lemma RunKeepsHistory(s: Observed)
    requires HistoryOk(s)
    ensures HistoryOk(Observed(DoRun(s.t), NoteRun(s)))
  {
  }

  lemma HandlersOnlyClose(t: State, a: Action)
    requires a.HandlerStep? || a.Receives? || a.ReaderEnters? || a.ReaderLeaves?
    ensures t.closed <= T.Do(t, a).closed && T.Do(t, a).late == t.late
  {
  }

  lemma HandlersLeaveRun(t: State, a: Action)
    requires a.HandlerStep? || a.Receives? || a.ReaderEnters? || a.ReaderLeaves?
    ensures T.Do(t, a).run == t.run && T.Do(t, a).isShutdown == t.isShutdown
  {
  }

  lemma DoKeepsHistory(s: Observed, a: Action)
    requires HistoryOk(s)
    ensures HistoryOk(Do(s, a))
  {
    if FreshAccept(s.t, a) {
      match a
      case RunStep => RunKeepsHistory(s);
      case RunAgain =>
      case Accepts(incoming) =>
      case Shutdown =>
      case _ => HandlersLeaveRun(s.t, a); HandlersOnlyClose(s.t, a);
    }
  }

  lemma DoKeepsInv(s: Observed, a: Action)
    requires Inv(s)
    ensures Inv(Do(s, a))
  {
    DoKeepsHistory(s, a);
    if FreshAccept(s.t, a) { T.DoKeepsInv(s.t, a); }
  }

  lemma ReachableInv(init: Observed, schedule: seq<Action>)
    requires Init(init)
    ensures Inv(Run(Do, init, schedule))
  {
    assert T.Inv(init.t);
    forall s: Observed, a: Action | Inv(s) ensures Inv(Do(s, a)) { DoKeepsInv(s, a); }
    InvariantOfRuns(Do, Inv, init, schedule);
  }

  /** The history watches the server and does not change it. */
  lemma {:induction false} OnlyObserves(init: Observed, schedule: seq<Action>)
    ensures Run(Do, init, schedule).t == Run(WithFreshAccepts, init.t, schedule)
  {
    if schedule != [] { OnlyObserves(init, schedule[..|schedule| - 1]); }
  }

  // ----- theorems

  /** In every run of the server, however often Run is called: it returns only if Shutdown was
      called, before it or before an accept returned, and throws only if an accept failed
      with no Shutdown called.  After its last client has left it has nobody in the set. */
  lemma WhyRunEnds(init: Observed, schedule: seq<Action>)
    requires Init(init)
    ensures var s := Run(Do, init, schedule);
            && (s.t.run.Finished? ==> s.h.verdict.FoundShut?)
            && (s.t.run.Threw? ==> s.h.verdict.FailedAccept?)
            && (s.t.run.NotStarted? ==> s.h.verdict.FoundAtStart?)
            && (Ended(s.t.run) ==> s.t.sockets == {})
            && (s.t.isShutdown <==> s.h.asked)
  {
    ReachableInv(init, schedule);
  }

  /** What the judging of an accept leads to: a Shutdown or a failure, to the end of Run; a
      client, into the set.  A connection that came after a Shutdown is closed before Run returns. */
  lemma WhatAnAcceptLeadsTo(init: Observed, schedule: seq<Action>)
    requires Init(init)
    ensures var s := Run(Do, init, schedule);
            && (s.t.run.Accepted? ==> s.t.run.incoming == s.h.arrived)
            && (s.h.verdict.FailedAccept? <==> OnTheWayOut(s.t.run, true))
            && (s.h.verdict.FoundShut? <==> OnTheWayOut(s.t.run, false))
            && (s.t.run.WantInsert? || s.t.run.Insert? || s.t.run.Spawn? ==> s.h.verdict == Admitted(s.t.run.fd))
            && (s.t.run.Finished? && s.h.arrived.Some? ==> s.h.arrived.value in s.t.closed)
  {
    ReachableInv(init, schedule);
  }

  /** From the closing of all clients to the end, by an exception or by a return. */
  predicate OnTheWayOut(r: RunPc, failed: bool) {
    match r
    case WantCloseAll(f) => f == failed
    case CloseAll(f) => f == failed
    case LeaveCloseAll(f) => f == failed
    case WantLook(f) => f == failed
    case Look(f) => f == failed
    case LeaveLook(f) => f == failed
    case LeaveEmpty(f) => f == failed
    case Finished => !failed
    case Threw => failed
    case _ => false
  }

  /** The return of Run leaves the flag lowered; only an exception leaves it as it was. */
  lemma ReturnLowersTheFlag(init: Observed, schedule: seq<Action>)
    requires Init(init)
    ensures var s := Run(Do, init, schedule);
            var s' := Do(s, RunStep);
            !Ended(s.t.run) && (s'.t.run.Finished? || s'.t.run.NotStarted?) ==> s.t.isShutdown && !s'.t.isShutdown
  {
    ReachableInv(init, schedule);
  }

  /** With no Shutdown called the state of a Run that is to begin stays as it is until it is
      Run's turn. */
  lemma {:induction false} BeginsWhenScheduled(s: State, schedule: seq<Action>)
    requires s.run.Start? && !s.isShutdown
    requires forall k | 0 <= k < |schedule| :: !schedule[k].Shutdown? && !schedule[k].RunStep?
    ensures var s' := Run(WithFreshAccepts, s, schedule); s'.run.Start? && !s'.isShutdown
  {
    if schedule != [] {
      var n := |schedule| - 1;
      BeginsWhenScheduled(s, schedule[..n]);
      var a := schedule[n];
      if a.HandlerStep? || a.Receives? || a.ReaderEnters? || a.ReaderLeaves? { HandlersLeaveRun(Run(WithFreshAccepts, s, schedule[..n]), a); }
    }
  }

  /** After Run has ended, and unless Shutdown is called again, the next call of Run comes to its
      accept, whatever other threads do meanwhile. */
  lemma NextRunComesToItsAccept(s: State, between: seq<Action>)
    requires Ended(s.run) && !s.isShutdown
    requires forall k | 0 <= k < |between| :: !between[k].Shutdown? && !between[k].RunStep?
    ensures Run(WithFreshAccepts, s, [RunAgain] + between + [RunStep]).run.Accept?
  {
    var called := WithFreshAccepts(s, RunAgain);
    RunSnoc(WithFreshAccepts, s, [RunAgain] + between, RunStep);
    RunCons(WithFreshAccepts, s, RunAgain, between);
    BeginsWhenScheduled(called, between);
  }

  // ----- threads that look

  /** A thread that looks at the set, as a car, sees one set until it leaves. */
  lemma {:induction false} ReadersSeeOneSet(s: State, t: nat, schedule: seq<Action>)
    requires T.Inv(s) && ReaderTid(t) in s.lock.cars
    requires forall k | 0 <= k < |schedule| :: schedule[k] != ReaderLeaves(t)
    ensures var s' := Run(WithFreshAccepts, s, schedule); T.Inv(s') && ReaderTid(t) in s'.lock.cars && s'.sockets == s.sockets
  {
    if schedule != [] {
      var n := |schedule| - 1;
      ReadersSeeOneSet(s, t, schedule[..n]);
      var before := Run(WithFreshAccepts, s, schedule[..n]);
      if FreshAccept(before, schedule[n]) {
        T.DoKeepsInv(before, schedule[n]);
        ReaderStays(before, t, schedule[n]);
      }
    }
  }

  lemma ReaderStays(s: State, t: nat, a: Action)
    requires LockOk(s) && ReaderTid(t) in s.lock.cars && a != ReaderLeaves(t)
    ensures ReaderTid(t) in T.Do(s, a).lock.cars && T.Do(s, a).sockets == s.sockets
  {
  }

  /** It gets in whenever the crosswalk lets cars in, and leaves the server as it found it. */
  lemma ReadersLeaveNoTrace(s: State, t: nat)
    requires CarMayEnter(s.lock) && ReaderTid(t) !in s.lock.cars
    ensures ReaderTid(t) in T.Do(s, ReaderEnters(t)).lock.cars
    ensures Run(WithFreshAccepts, s, [ReaderEnters(t), ReaderLeaves(t)]) == s
  {
    var cars := s.lock.cars;
    assert cars + {ReaderTid(t)} - {ReaderTid(t)} == cars;
    assert [ReaderEnters(t), ReaderLeaves(t)] == [ReaderEnters(t)] + [ReaderLeaves(t)] && [ReaderLeaves(t)] + [] == [ReaderLeaves(t)];
    RunCons(WithFreshAccepts, s, ReaderEnters(t), [ReaderLeaves(t)]);
    RunCons(WithFreshAccepts, WithFreshAccepts(s, ReaderEnters(t)), ReaderLeaves(t), []);
  }
}
