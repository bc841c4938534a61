/** Why a gate has one closer: a second one locks everybody out. */
module GateLimits {
  import opened Machines
  import opened Options
  import opened Gate

  /** The first closer, run alone until it sleeps; the second, until it wants condVarMutex. */
  function FirstClose(t: Tid): seq<Action> {
    [CallClose(t, Unlimited), Step(t), Step(t), Step(t), Step(t), Step(t), Step(t)]
  }

  function SecondClose(t: Tid): seq<Action> {
    [CallClose(t, Unlimited), Step(t), Step(t), Step(t)]
  }

  /** One thread sleeps behind condVarMutex; another holds mtx and wants condVarMutex. */
  predicate Deadlocked(g: Gate, a: Tid, b: Tid) {
    && a in g.pc && b in g.pc && a != b && MtxOk(g) && CvMtxOk(g)
    && g.pc[a].Asleep? && a in g.cv
    && g.pc[b].CloseCvMtx?
  }

  /** Nothing but the expiry of a time limit ends it: every Open and Close blocks for good. */
  lemma DeadlockIsForever(g: Gate, a: Tid, b: Tid, schedule: seq<Action>)
    requires Deadlocked(g, a, b)
    ensures Deadlocked(Run(Untimed, g, schedule), a, b)
  {
    var stuck := (g: Gate) => Deadlocked(g, a, b);
    forall g: Gate, act: Action | stuck(g) ensures stuck(Untimed(g, act)) {
      DeadlockStays(g, a, b, act);
    }
    InvariantOfRuns(Untimed, stuck, g, schedule);
  }

  lemma OthersCannotHelp(g: Gate, a: Tid, b: Tid, t: Tid)
    requires Deadlocked(g, a, b) && Enabled(g, t)
    ensures t != a && t != b && !g.pc[t].Notify?
  {}

  lemma StepLeavesWaiting(g: Gate, a: Tid, t: Tid)
    requires Enabled(g, t) && a in g.cv && !g.pc[t].Notify?
    ensures a in Take(g, t).cv
  {}

  lemma DeadlockStays(g: Gate, a: Tid, b: Tid, act: Action)
    requires Deadlocked(g, a, b)
    ensures Deadlocked(Untimed(g, act), a, b)
  {
    if act.Step? && Enabled(g, act.t) {
      OthersCannotHelp(g, a, b, act.t);
      StepLeavesWaiting(g, a, act.t);
      TakeKeepsMtx(g, act.t);
      TakeKeepsCvMtx(g, act.t);
      PcMove(g, act.t);
    } else if Possible(g, act) && !act.Step? && !act.Timeout? {
      CallKeepsDeadlock(g, a, b, act);
    }
  }

  lemma CallKeepsDeadlock(g: Gate, a: Tid, b: Tid, act: Action)
    requires Deadlocked(g, a, b) && Possible(g, act) && !act.Step? && !act.Timeout?
    ensures Deadlocked(Do(g, act), a, b)
  {}

  function Untimed(g: Gate, a: Action): Gate {
    if a.Timeout? then g else Do(g, a)
  }

  lemma OneStep(g: Gate, t: Tid, here: Pc, rest: seq<Action>, after: Gate)
    requires t in g.pc && Enabled(g.At(t, here), t)
    requires after == Effect(g.At(t, here), t, here).(pc := g.pc)
    ensures Run(Do, g.At(t, here), [Step(t)] + rest) == Run(Do, after.At(t, Next(g, here)), rest)
  {
    assert g.At(t, here).At(t, Next(g, here)) == g.At(t, Next(g, here));
    RunCons(Do, g.At(t, here), Step(t), rest);
  }

  lemma FirstSleeps(g: Gate, t: Tid)
    requires t in g.pc && g.pc[t].Idle? && g.mtx == None && g.condVarMutex == None && g.lockMutex == None && g.isActivated
    ensures Run(Do, g, FirstClose(t)) == g.(timed := false, condVarMutex := Some(t), cv := g.cv + {t}).At(t, Asleep)
  {
    var g0 := g.(timed := false);
    var lk := g0.(lockMutex := Some(t));
    var lkm := lk.(mtx := Some(t));
    var all := lkm.(condVarMutex := Some(t));
    var e := FirstClose(t);
    assert e == [CallClose(t, Unlimited)] + e[1..];
    RunCons(Do, g, e[0], e[1..]);
    assert e[1..] == [Step(t)] + e[2..];
    OneStep(g0, t, CloseLk, e[2..], lk);
    assert e[2..] == [Step(t)] + e[3..];
    OneStep(lk, t, CloseMtx, e[3..], lkm);
    assert e[3..] == [Step(t)] + e[4..];
    OneStep(lkm, t, CloseTest, e[4..], lkm);
    assert e[4..] == [Step(t)] + e[5..];
    OneStep(lkm, t, CloseCvMtx, e[5..], all);
    assert e[5..] == [Step(t)] + e[6..];
    OneStep(all, t, CloseUnlockMtx, e[6..], all.(mtx := None));
    assert e[6..] == [Step(t)] + [];
    OneStep(all.(mtx := None), t, CloseWait, [], all.(mtx := None, lockMutex := None, cv := g.cv + {t}));
  }

  lemma SecondBlocks(g: Gate, t: Tid)
    requires t in g.pc && g.pc[t].Idle? && g.mtx == None && g.lockMutex == None && g.isActivated
    ensures Run(Do, g, SecondClose(t)) == g.(timed := false, lockMutex := Some(t), mtx := Some(t)).At(t, CloseCvMtx)
  {
    var g0 := g.(timed := false);
    var lk := g0.(lockMutex := Some(t));
    var e := SecondClose(t);
    assert e == [CallClose(t, Unlimited)] + e[1..];
    RunCons(Do, g, e[0], e[1..]);
    assert e[1..] == [Step(t)] + e[2..];
    OneStep(g0, t, CloseLk, e[2..], lk);
    assert e[2..] == [Step(t)] + e[3..];
    OneStep(lk, t, CloseMtx, e[3..], lk.(mtx := Some(t)));
    assert e[3..] == [Step(t)] + [];
    OneStep(lk.(mtx := Some(t)), t, CloseTest, [], lk.(mtx := Some(t)));
  }

  /** Two closers deadlock a fresh gate, however many openers there are. */
  lemma TwoClosersDeadlock(init: Gate, a: Tid, b: Tid, later: seq<Action>)
    requires Init(init) && a in init.pc && b in init.pc && a != b
    ensures Deadlocked(Run(Untimed, Run(Do, init, FirstClose(a) + SecondClose(b)), later), a, b)
  {
    RunConcat(Do, init, FirstClose(a), SecondClose(b));
    FirstSleeps(init, a);
    SecondBlocks(Run(Do, init, FirstClose(a)), b);
    DeadlockIsForever(Run(Do, init, FirstClose(a) + SecondClose(b)), a, b, later);
  }

  // ----- try_lock that fails with the mutex free

  /** From the attempt, failed, to the return of Open. */
  function AfterTheFailure(t: Tid): seq<Action> { [Step(t), Step(t), Step(t)] }

  lemma OpensUpToTheAttempt(g: Gate, t: Tid)
    requires t in g.pc && g.pc[t].Idle? && g.mtx == None
    ensures Run(Do, g, [CallOpen(t), Step(t)]) == g.(mtx := Some(t)).At(t, OpenTry)
  {
    assert [CallOpen(t), Step(t)] == [CallOpen(t)] + [Step(t)] && [Step(t)] + [] == [Step(t)];
    RunCons(Do, g, CallOpen(t), [Step(t)]);
    OneStep(g, t, OpenMtx, [], g.(mtx := Some(t)));
  }

  lemma FindsItFree(g: Gate, t: Tid, rest: seq<Action>)
    requires t in g.pc && g.condVarMutex == None
    ensures Run(Do, g.At(t, Retry), [Step(t), Step(t)] + rest) == Run(Do, g.At(t, OpenReturn), rest)
  {
    assert [Step(t), Step(t)] + rest == [Step(t)] + ([Step(t)] + rest);
    OneStep(g, t, Retry, [Step(t)] + rest, g.(condVarMutex := Some(t)));
    OneStep(g.(condVarMutex := Some(t)), t, RetryRelease, rest, g);
  }

  lemma ReturnsUnnoticed(g: Gate, t: Tid)
    requires t in g.pc && g.pc[t].Idle? && g.mtx == Some(t) && g.condVarMutex == None
    ensures Run(Do, g.At(t, Retry), AfterTheFailure(t)) == g.(mtx := None)
  {
    assert AfterTheFailure(t) == [Step(t), Step(t)] + [Step(t)] && [Step(t)] == [Step(t)] + [];
    FindsItFree(g, t, [Step(t)]);
    OneStep(g, t, OpenReturn, [], g.(mtx := None));
    assert g.(mtx := None).At(t, Idle) == g.(mtx := None);
  }

  /** If try_lock may fail with condVarMutex free, an Open of a closed gate with nobody asleep
      can return without a trace: the next Close waits although it was opened. */
  lemma SpuriousFailureLosesAnOpen(g: Gate, t: Tid)
    requires t in g.pc && g.pc[t].Idle? && g.mtx == None && g.condVarMutex == None
    ensures var tried := Run(Do, g, [CallOpen(t), Step(t)]);
            && t in tried.pc && tried.pc[t].OpenTry? && tried.condVarMutex == None
            && Run(Do, tried.At(t, Retry), AfterTheFailure(t)) == g
  {
    OpensUpToTheAttempt(g, t);
    var held := g.(mtx := Some(t));
    ReturnsUnnoticed(held, t);
    assert held.At(t, OpenTry).At(t, Retry) == held.At(t, Retry);
  }
}
