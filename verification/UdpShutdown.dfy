/** Shutdown ends every worker of the UDP server: once the flag is set and the gates have been
    opened, every fair schedule brings every worker to its return. */
module UdpShutdown {
  import opened Fairness
  import opened UdpServer
  import opened UdpTheorems

  /** What the receiver has left to do before it waits for the next datagram or ends. */
  function ReceiverWeight(p: ReceiverPc): nat {
    match p
    case Instant => 10
    case Select => 9
    case Lock => 8
    case PushMessage => 7
    case PushAddress => 6
    case PushTime => 5
    case Unlock => 4
    case Open => 3
    case Recv => 2
    case Test => 1
    case Done => 0
  }

  /** What the first `k` workers have left to do. */
  function WorkersRank(s: State, k: nat): nat
    requires k <= |s.workers|
  {
    if k == 0 then 0 else WorkersRank(s, k - 1) + Rank(s, k - 1)
  }

  function ServerRank(s: State): nat { WorkersRank(s, |s.workers|) + ReceiverWeight(s.r.pc) }

  lemma {:induction false} WorkersRankFalls(s: State, s': State, k: nat)
    requires k <= |s.workers| == |s'.workers|
    requires forall i | 0 <= i < |s.workers| :: Rank(s', i) <= Rank(s, i)
    ensures WorkersRank(s', k) <= WorkersRank(s, k)
    ensures (exists i :: 0 <= i < k && Rank(s', i) < Rank(s, i)) ==> WorkersRank(s', k) < WorkersRank(s, k)
  {
    if k > 0 { WorkersRankFalls(s, s', k - 1); }
  }

  /** The actions that bring the shutdown forward. */
  predicate Effective(s: State, a: Action) {
    match a
    case WorkerStep(i) => i < |s.workers| && OwnStep(s, a, i)
    case HandlerShutsDown(i) => i < |s.workers| && OwnStep(s, a, i)
    case _ => Do(s, a).r.pc != s.r.pc
  }

  /** `n` workers, all let go by a Shutdown. */
  ghost predicate LetGo(n: nat, s: State) {
    Inv(s) && s.isShutdown && |s.workers| == n && forall i | 0 <= i < n :: s.workers[i].released
  }

  predicate AllReturned(s: State) {
    forall i | 0 <= i < |s.workers| :: s.workers[i].pc.Returned?
  }

  lemma StepStaysLetGo(n: nat, s: State, a: Action)
    requires LetGo(n, s)
    ensures LetGo(n, Do(s, a))
  {
    DoKeepsInv(s, a);
    FlagStays(s, a);
    forall i | 0 <= i < n ensures |Do(s, a).workers| == n && Do(s, a).workers[i].released {
      OpeningReleases(s, a, i);
    }
    if n == 0 { NoWorkers(s, a); }
  }

  lemma NoWorkers(s: State, a: Action)
    requires s.workers == []
    ensures Do(s, a).workers == []
  {}

  lemma ReceiverFalls(s: State, a: Action)
    requires s.isShutdown
    ensures ReceiverWeight(Do(s, a).r.pc) <= ReceiverWeight(s.r.pc)
    ensures Do(s, a).r.pc != s.r.pc ==> ReceiverWeight(Do(s, a).r.pc) < ReceiverWeight(s.r.pc)
    ensures a.WorkerStep? || a.HandlerShutsDown? ==> Do(s, a).r == s.r
  {}

  /** No worker's rank grows, and the acting worker's falls. */
  lemma EveryRankFalls(n: nat, s: State, a: Action, i: nat)
    requires LetGo(n, s) && i < n
    ensures |Do(s, a).workers| == n && Rank(Do(s, a), i) <= Rank(s, i)
    ensures OwnStep(s, a, i) ==> Rank(Do(s, a), i) < Rank(s, i)
  {
    if OwnStep(s, a, i) {
      assert WorkerOk(s.workers[i], Serving(s.r, i), s.r.entry, true);
      OwnStepFalls(s, a, i);
    } else {
      OthersKeepRank(s, a, i);
    }
  }

  /** An action that is not effective changes no rank. */
  lemma IdleStep(s: State, a: Action)
    requires s.isShutdown && !Effective(s, a)
    ensures Do(s, a) == s || (a.ShutdownOpens? && a.i < |s.workers| && Do(s, a) == Opened(s, a.i))
  {}

  lemma ServerRankFalls(n: nat, s: State, a: Action)
    requires LetGo(n, s)
    ensures ServerRank(Do(s, a)) <= ServerRank(s)
    ensures Effective(s, a) ==> ServerRank(Do(s, a)) < ServerRank(s)
  {
    var s' := Do(s, a);
    StepStaysLetGo(n, s, a);
    forall i | 0 <= i < n ensures Rank(s', i) <= Rank(s, i) && (OwnStep(s, a, i) ==> Rank(s', i) < Rank(s, i)) {
      EveryRankFalls(n, s, a, i);
    }
    WorkersRankFalls(s, s', n);
    ReceiverFalls(s, a);
  }

  lemma OpenedKeepsRank(s: State, k: nat, i: nat)
    requires k < |s.workers| && i < |s.workers|
    ensures Rank(Opened(s, k), i) == Rank(s, i)
  {}

  lemma {:induction false} OpenedKeepsRanks(s: State, k: nat, m: nat)
    requires k < |s.workers| && m <= |s.workers|
    ensures WorkersRank(Opened(s, k), m) == WorkersRank(s, m)
  {
    if m > 0 {
      OpenedKeepsRank(s, k, m - 1);
      OpenedKeepsRanks(s, k, m - 1);
    }
  }

  /** The rank falls exactly at the effective actions. */
  lemma FallsExactlyWhenEffective(n: nat, s: State, a: Action)
    requires LetGo(n, s)
    ensures ServerRank(Do(s, a)) < ServerRank(s) <==> Effective(s, a)
  {
    ServerRankFalls(n, s, a);
    if !Effective(s, a) {
      IdleStep(s, a);
      if Do(s, a) != s { OpenedKeepsRanks(s, a.i, n); }
    }
  }

  /** Opening a gate disables nothing. */
  lemma OpenedKeepsEffective(s: State, k: nat, a: Action)
    requires k < |s.workers| && Effective(s, a)
    ensures Effective(Opened(s, k), a)
  {}

  lemma StaysEffective(n: nat, s: State, a: Action, u: Action)
    requires LetGo(n, s) && Effective(s, a) && !Effective(s, u)
    ensures Effective(Do(s, u), a)
  {
    IdleStep(s, u);
    if Do(s, u) != s { OpenedKeepsEffective(s, u.i, a); }
  }

  /** The steps of the workers and of the receiver. */
  ghost function ServerSteps(n: nat): set<Action> {
    (set i | 0 <= i < n :: WorkerStep(i)) + {ReceiverStep}
  }

  lemma SomeoneIsEffective(n: nat, s: State) returns (a: Action)
    requires LetGo(n, s) && !AllReturned(s)
    ensures a in ServerSteps(n) && Effective(s, a)
  {
    var i :| 0 <= i < n && !s.workers[i].pc.Returned?;
    ReleasedWorkersAreNotStuck(s, i);
    if WorkerEnabled(s.workers[i]) {
      a := WorkerStep(i);
    } else {
      a := ReceiverStep;
    }
  }

  lemma ServerRankIsFair(n: nat)
    ensures Ranked(Do, (s: State) => LetGo(n, s), ServerRank)
    ensures NeverStuck(Do, (s: State) => LetGo(n, s), AllReturned, ServerRank, ServerSteps(n))
  {
    forall s: State, a: Action | LetGo(n, s)
      ensures LetGo(n, Do(s, a)) && ServerRank(Do(s, a)) <= ServerRank(s)
      ensures Useful(Do, ServerRank, s, a) <==> Effective(s, a)
    {
      StepStaysLetGo(n, s, a);
      ServerRankFalls(n, s, a);
      FallsExactlyWhenEffective(n, s, a);
    }
    forall s: State, a: Action, u: Action | LetGo(n, s) && Useful(Do, ServerRank, s, a) && ServerRank(Do(s, u)) == ServerRank(s)
      ensures Useful(Do, ServerRank, Do(s, u), a)
    {
      StaysEffective(n, s, a, u);
      assert LetGo(n, Do(s, u));
    }
    forall s: State | LetGo(n, s) && !AllReturned(s)
      ensures exists a :: a in ServerSteps(n) && Useful(Do, ServerRank, s, a)
    {
      var a := SomeoneIsEffective(n, s);
      assert Useful(Do, ServerRank, s, a);
    }
  }

  /** Once every gate has been opened, every schedule that is fair to the workers and to the
      receiver lets every worker return, whatever datagrams still arrive and whatever else is
      called meanwhile. */
  lemma ReleasedWorkersReturn(n: nat, s: State, f: nat -> Action, m: nat) returns (k: nat)
    requires LetGo(n, After(Do, f, s, m)) && Fair(f, ServerSteps(n))
    ensures LetGo(n, After(Do, f, s, k)) && AllReturned(After(Do, f, s, k))
  {
    ServerRankIsFair(n);
    k := FairRunsFinishFrom(Do, (s: State) => LetGo(n, s), AllReturned, ServerRank, ServerSteps(n), f, s, m);
  }

  // ----- from the call of Shutdown

  /** The flag is set; and, when `i` is a worker, its gate has been opened. */
  ghost predicate Stopping(n: nat, i: nat, s: State) {
    Inv(s) && s.isShutdown && |s.workers| == n && (i < n ==> s.workers[i].released)
  }

  lemma StepStaysStopping(n: nat, i: nat, s: State, a: Action)
    requires Stopping(n, i, s)
    ensures Stopping(n, i, Do(s, a))
  {
    DoKeepsInv(s, a);
    FlagStays(s, a);
    if n == 0 { NoWorkers(s, a); } else { OpeningReleases(s, a, if i < n then i else 0); }
  }

  lemma StaysStopping(n: nat, i: nat, f: nat -> Action, s: State, m: nat, k: nat)
    requires Stopping(n, i, After(Do, f, s, m)) && m <= k
    ensures Stopping(n, i, After(Do, f, s, k))
  {
    var inv := (x: State) => Stopping(n, i, x);
    forall x: State, a: Action | inv(x) ensures inv(Do(x, a)) { StepStaysStopping(n, i, x, a); }
    AfterKeeps(Do, inv, f, s, m, k);
  }

  /** At some time somebody, a caller of Shutdown or a handler that calls it, opens gate `i`. */
  ghost predicate GetsReleased(s: State, f: nat -> Action, i: nat) {
    exists m: nat :: HasReleased(After(Do, f, s, m), i)
  }

  predicate HasReleased(s: State, i: nat) { i < |s.workers| && s.workers[i].released }

  ghost predicate AllGetReleased(s: State, f: nat -> Action) {
    forall i: nat | i < |s.workers| :: GetsReleased(s, f, i)
  }

  /** A worker whose handler is in Shutdown and opens gate `k` next. */
  predicate IsOpening(s: State, j: nat, k: nat) { j < |s.workers| && s.workers[j].pc == ShutOpen(k) }

  lemma OpensNext(s: State, j: nat, k: nat)
    requires IsOpening(s, j, k) && k < |s.workers|
    ensures HasReleased(Do(s, WorkerStep(j)), k) && IsOpening(Do(s, WorkerStep(j)), j, k + 1)
  {}

  lemma OthersLeaveOpening(s: State, a: Action, j: nat, k: nat)
    requires IsOpening(s, j, k) && a != WorkerStep(j)
    ensures IsOpening(Do(s, a), j, k)
  {}

  ghost predicate StoppingAndOpening(n: nat, j: nat, k: nat, s: State) { Stopping(n, n, s) && IsOpening(s, j, k) }

  lemma OpeningStays(n: nat, j: nat, k: nat, s: State, a: Action)
    requires StoppingAndOpening(n, j, k, s) && a != WorkerStep(j)
    ensures StoppingAndOpening(n, j, k, Do(s, a))
  {
    StepStaysStopping(n, n, s, a);
    OthersLeaveOpening(s, a, j, k);
  }

  lemma OpeningGoesOn(n: nat, j: nat, k: nat, s: State)
    requires StoppingAndOpening(n, j, k, s) && k < n
    ensures StoppingAndOpening(n, j, k + 1, Do(s, WorkerStep(j))) && HasReleased(Do(s, WorkerStep(j)), k)
  {
    StepStaysStopping(n, n, s, WorkerStep(j));
    OpensNext(s, j, k);
  }

  /** A fair schedule lets the handler open its next gate. */
  lemma NextIsOpened(n: nat, s: State, f: nat -> Action, j: nat, k: nat, here: nat) returns (there: nat)
    requires Fair(f, ServerSteps(n)) && j < n && k < n && StoppingAndOpening(n, j, k, After(Do, f, s, here))
    ensures StoppingAndOpening(n, j, k + 1, After(Do, f, s, there)) && HasReleased(After(Do, f, s, there), k)
  {
    var inv := (x: State) => StoppingAndOpening(n, j, k, x);
    var post := (x: State) => StoppingAndOpening(n, j, k + 1, x) && HasReleased(x, k);
    forall x: State, a: Action | inv(x) && a != WorkerStep(j) ensures inv(Do(x, a)) { OpeningStays(n, j, k, x, a); }
    forall x: State | inv(x) ensures post(Do(x, WorkerStep(j))) { OpeningGoesOn(n, j, k, x); }
    there := LeadsTo(Do, inv, post, ServerSteps(n), WorkerStep(j), f, s, here);
  }

  /** And every gate that is left. */
  lemma {:induction false} HandlerReleases(n: nat, s: State, f: nat -> Action, j: nat, k: nat, i: nat, here: nat)
    requires Fair(f, ServerSteps(n)) && j < n && k <= i < n && StoppingAndOpening(n, j, k, After(Do, f, s, here))
    ensures GetsReleased(s, f, i)
    decreases i - k
  {
    var there := NextIsOpened(n, s, f, j, k, here);
    if k < i { HandlerReleases(n, s, f, j, k + 1, i, there); }
  }

  /** Whoever calls Shutdown, every gate is opened: by the schedule's own openings, or by a
      handler that has yet to come to it. */
  lemma ShutdownReleases(s: State, f: nat -> Action, i: nat)
    requires Inv(s) && s.isShutdown && i < |s.workers| && Fair(f, ServerSteps(|s.workers|))
    requires s.workers[i].released
          || (exists m: nat :: f(m) == ShutdownOpens(i))
          || (exists j: nat, k: nat :: k <= i && IsOpening(s, j, k))
    ensures GetsReleased(s, f, i)
  {
    var n := |s.workers|;
    assert After(Do, f, s, 0) == s;
    if s.workers[i].released {
      assert HasReleased(After(Do, f, s, 0), i);
    } else if exists m: nat :: f(m) == ShutdownOpens(i) {
      var m: nat :| f(m) == ShutdownOpens(i);
      StaysStopping(n, n, f, s, 0, m);
      var now := After(Do, f, s, m);
      OpeningReleases(now, f(m), i);
      assert HasReleased(After(Do, f, s, m + 1), i);
    } else {
      var j: nat, k: nat :| k <= i && IsOpening(s, j, k);
      HandlerReleases(n, s, f, j, k, i, 0);
    }
  }

  lemma ReleasedAtSomeTime(s: State, f: nat -> Action, i: nat) returns (k: nat)
    requires Inv(s) && s.isShutdown && i < |s.workers| && GetsReleased(s, f, i)
    ensures Stopping(|s.workers|, i, After(Do, f, s, k))
  {
    k :| HasReleased(After(Do, f, s, k), i);
    StaysStopping(|s.workers|, |s.workers|, f, s, 0, k);
  }

  ghost function StoppingAt(n: nat): nat -> State -> bool {
    i => (s: State) => Stopping(n, i, s)
  }

  /** Then there is a time when all gates have been opened. */
  lemma GatesGetOpened(s: State, f: nat -> Action) returns (k: nat)
    requires Inv(s) && s.isShutdown && AllGetReleased(s, f)
    ensures forall i: nat | i <= |s.workers| :: Stopping(|s.workers|, i, After(Do, f, s, k))
  {
    var n := |s.workers|;
    var inv := StoppingAt(n);
    forall i: nat, x: State, a: Action | i < n + 1 && inv(i)(x) ensures inv(i)(Do(x, a)) { StepStaysStopping(n, i, x, a); }
    forall i: nat | i < n + 1 ensures Eventually(Do, inv(i), f, s) {
      var m := 0;
      if i < n {
        m := ReleasedAtSomeTime(s, f, i);
      }
      assert inv(i)(After(Do, f, s, m));
    }
    k := AllEventually(Do, inv, f, s, n + 1);
    forall i: nat | i <= n ensures Stopping(n, i, After(Do, f, s, k)) { assert inv(i)(After(Do, f, s, k)); }
  }

  /** Shutdown ends every worker: with the flag set and every gate opened at some time, every
      schedule fair to the workers and the receiver reaches a state with all of them returned. */
  lemma ShutdownEndsEveryWorker(s: State, f: nat -> Action) returns (k: nat)
    requires Inv(s) && s.isShutdown && Fair(f, ServerSteps(|s.workers|)) && AllGetReleased(s, f)
    ensures AllReturned(After(Do, f, s, k)) && |After(Do, f, s, k).workers| == |s.workers|
  {
    var n := |s.workers|;
    var m := GatesGetOpened(s, f);
    AllLetGo(n, After(Do, f, s, m));
    k := ReleasedWorkersReturn(n, s, f, m);
  }

  lemma AllLetGo(n: nat, s: State)
    requires forall i: nat | i <= n :: Stopping(n, i, s)
    ensures LetGo(n, s)
  {
    assert Stopping(n, n, s);
    forall i: nat | i < n ensures s.workers[i].released { assert Stopping(n, i, s); }
  }

  // ----- the whole of a Shutdown

  /** A server with `n` workers, worker `i` about to set the flag. */
  ghost predicate AboutToStore(n: nat, i: nat, s: State) {
    Inv(s) && |s.workers| == n && i < n && s.workers[i].pc.ShutStore?
  }

  lemma StaysAboutToStore(n: nat, i: nat, s: State, a: Action)
    requires AboutToStore(n, i, s) && a != WorkerStep(i)
    ensures AboutToStore(n, i, Do(s, a))
  {
    DoKeepsInv(s, a);
    OpeningReleases(s, a, i);
  }

  lemma StoresNext(n: nat, i: nat, s: State)
    requires AboutToStore(n, i, s)
    ensures StoppingAndOpening(n, i, 0, Do(s, WorkerStep(i)))
  {
    DoKeepsInv(s, WorkerStep(i));
  }

  lemma CallIsAboutToStore(s: State, i: nat)
    requires Inv(s) && i < |s.workers| && s.workers[i].pc.Handle?
    ensures AboutToStore(|s.workers|, i, Do(s, HandlerShutsDown(i)))
  {
    DoKeepsInv(s, HandlerShutsDown(i));
  }

  /** All return from a point of a run at which the flag is set and the gates get opened. */
  lemma EndsFrom(n: nat, s: State, f: nat -> Action, m: nat) returns (k: nat)
    requires Stopping(n, n, After(Do, f, s, m)) && Fair(f, ServerSteps(n))
    requires AllGetReleased(After(Do, f, s, m), Later(f, m))
    ensures AllReturned(After(Do, f, s, k)) && |After(Do, f, s, k).workers| == n
  {
    var here, g := After(Do, f, s, m), Later(f, m);
    FairLater(f, ServerSteps(n), m);
    var j := ShutdownEndsEveryWorker(here, g);
    k := Rejoin(Do, (x: State) => AllReturned(x) && |x.workers| == n, f, s, m, j);
  }

  /** A handler that calls Shutdown ends every worker, its own included, in every schedule fair
      to the workers and the receiver. */
  lemma HandlerEndsEveryWorker(s: State, i: nat, f: nat -> Action) returns (k: nat)
    requires Inv(s) && i < |s.workers| && s.workers[i].pc.Handle? && Fair(f, ServerSteps(|s.workers|))
    ensures var s' := After(Do, f, Do(s, HandlerShutsDown(i)), k); AllReturned(s') && |s'.workers| == |s.workers|
  {
    var n, called := |s.workers|, Do(s, HandlerShutsDown(i));
    CallIsAboutToStore(s, i);
    assert After(Do, f, called, 0) == called;
    var m := FlagGetsSet(n, i, called, f);
    var later := After(Do, f, called, m);
    FairLater(f, ServerSteps(n), m);
    forall g: nat | g < n ensures GetsReleased(later, Later(f, m), g) {
      assert IsOpening(later, i, 0);
      ShutdownReleases(later, Later(f, m), g);
    }
    k := EndsFrom(n, called, f, m);
  }

  lemma FlagGetsSet(n: nat, i: nat, s: State, f: nat -> Action) returns (m: nat)
    requires AboutToStore(n, i, After(Do, f, s, 0)) && Fair(f, ServerSteps(n))
    ensures StoppingAndOpening(n, i, 0, After(Do, f, s, m))
  {
    var inv := (x: State) => AboutToStore(n, i, x);
    var post := (x: State) => StoppingAndOpening(n, i, 0, x);
    forall x: State, a: Action | inv(x) && a != WorkerStep(i) ensures inv(Do(x, a)) { StaysAboutToStore(n, i, x, a); }
    forall x: State | inv(x) ensures post(Do(x, WorkerStep(i))) { StoresNext(n, i, x); }
    m := LeadsTo(Do, inv, post, ServerSteps(n), WorkerStep(i), f, s, 0);
  }

  /** Any other thread's Shutdown: the flag is stored at time `m`, and every gate is opened after. */
  ghost predicate ShutsDown(f: nat -> Action, n: nat, m: nat) {
    f(m) == ShutdownStores && forall i: nat | i < n :: OpensAfter(f, i, m)
  }

  ghost predicate OpensAfter(f: nat -> Action, i: nat, m: nat) { exists k: nat :: m < k && f(k) == ShutdownOpens(i) }

  ghost predicate Sized(n: nat, s: State) { Inv(s) && |s.workers| == n }

  lemma StaysSized(n: nat, s: State, a: Action)
    requires Sized(n, s)
    ensures Sized(n, Do(s, a)) && (a.ShutdownStores? ==> Do(s, a).isShutdown)
  {
    DoKeepsInv(s, a);
    if n == 0 { NoWorkers(s, a); } else { OpeningReleases(s, a, 0); }
  }

  lemma StoresFlag(n: nat, s: State, f: nat -> Action, m: nat)
    requires Sized(n, After(Do, f, s, 0)) && f(m) == ShutdownStores
    ensures Stopping(n, n, After(Do, f, s, m + 1))
  {
    var inv := (x: State) => Sized(n, x);
    forall x: State, a: Action | inv(x) ensures inv(Do(x, a)) { StaysSized(n, x, a); }
    AfterKeeps(Do, inv, f, s, 0, m);
    StaysSized(n, After(Do, f, s, m), f(m));
  }

  lemma OpensLater(f: nat -> Action, n: nat, m: nat, s: State)
    requires Stopping(n, n, s) && ShutsDown(f, n, m) && Fair(Later(f, m + 1), ServerSteps(n))
    ensures AllGetReleased(s, Later(f, m + 1))
  {
    var g := Later(f, m + 1);
    forall i: nat | i < n ensures GetsReleased(s, g, i) {
      assert OpensAfter(f, i, m);
      var j: nat :| m < j && f(j) == ShutdownOpens(i);
      assert g(j - m - 1) == ShutdownOpens(i);
      ShutdownReleases(s, g, i);
    }
  }

  /** From every reachable state a Shutdown ends every worker, in every schedule fair to the
      workers and the receiver. */
  lemma ShutdownEndsTheServer(s: State, f: nat -> Action, m: nat) returns (k: nat)
    requires Inv(s) && ShutsDown(f, |s.workers|, m) && Fair(f, ServerSteps(|s.workers|))
    ensures AllReturned(After(Do, f, s, k)) && |After(Do, f, s, k).workers| == |s.workers|
  {
    var n := |s.workers|;
    StoresFlag(n, s, f, m);
    FairLater(f, ServerSteps(n), m + 1);
    OpensLater(f, n, m, After(Do, f, s, m + 1));
    k := EndsFrom(n, s, f, m + 1);
  }
}
