/** Gate liveness: calls of Open and OpenIfClosed always return, and a closer that has been
    notified returns from Close, under every fair schedule. */
module GateProgress {
  import opened Machines
  import opened Options
  import opened Sums
  import opened Fairness
  import opened Gate
  import H = GateHistory

  function Weight(p: Pc): nat {
    match p
    case Idle => 0
    case CloseLk => 12
    case CloseMtx => 11
    case CloseTest => 10
    case CloseArm => 3
    case CloseCvMtx => 9
    case CloseUnlockMtx => 8
    case CloseWait => 7
    case Asleep => 5
    case CloseReleaseCv => 4
    case CloseRelock => 3
    case CloseUnlock => 2
    case CloseReturn => 1
    case OpenMtx => 9
    case OpenTry => 8
    case OpenClear => 7
    case OpenRelease => 6
    case IfClosedMtx => 9
    case IfClosedTry => 8
    case Retry => 5
    case Notify => 5
    case RetryRelease => 3
    case OpenReturn => 2
  }

  ghost function Weights(g: Gate): map<Tid, nat> {
    map t | t in g.pc :: Weight(g.pc[t])
  }

  ghost function Work(g: Gate): nat {
    Total(Weights(g)) + |g.cv|
  }

  /** Whether the opener in the loop still has a step that changes something. */
  ghost function LoopWork(g: Gate): nat {
    if g.mtx.None? || g.mtx.value !in g.pc then 0
    else if g.pc[g.mtx.value].Retry? && g.cv != {} then 1
    else if g.pc[g.mtx.value].Notify? && g.cv == {} && g.condVarMutex == None then 1
    else 0
  }

  ghost function Rank(g: Gate): nat {
    2 * Work(g) + LoopWork(g)
  }

  function Advance(g: Gate, t: Tid): Gate { Do(g, Step(t)) }

  /** The moves around the loop that take no mutex and wake nobody. */
  predicate Circles(g: Gate, t: Tid) {
    t in g.pc && ((g.pc[t].Retry? && g.condVarMutex.Some?) || (g.pc[t].Notify? && g.cv == {}))
  }

  predicate Spin(g: Gate, t: Tid) {
    Circles(g, t) && g.condVarMutex.Some? && g.cv == {}
  }

  lemma WeightFalls(g: Gate, p: Pc)
    ensures p.CloseWait? ==> Weight(Next(g, p)) == Weight(p) - 2
    ensures (p.Retry? && g.condVarMutex.Some?) || p.Notify? ==> Weight(Next(g, p)) == Weight(p)
    ensures !p.Idle? && !p.Notify? && !(p.Retry? && g.condVarMutex.Some?) ==> Weight(Next(g, p)) < Weight(p)
  {
  }

  lemma CvMove(g: Gate, c: Tid, t: Tid)
    requires CvOk(g, c) && Enabled(g, t)
    ensures |Take(g, t).cv| == |g.cv| + (if g.pc[t].CloseWait? then 1 else if g.pc[t].Notify? then -|g.cv| else 0)
    ensures |g.cv| == 0 <==> g.cv == {}
  {
    if g.pc[t].CloseWait? { assert t !in g.cv; }
  }

  lemma AdvanceWork(g: Gate, c: Tid, t: Tid)
    requires CvOk(g, c) && Enabled(g, t)
    ensures Circles(g, t) ==> Work(Advance(g, t)) == Work(g)
    ensures !Circles(g, t) ==> Work(Advance(g, t)) < Work(g)
  {
    CvMove(g, c, t);
    WeightFalls(g, g.pc[t]);
    PcMove(g, t);
    TotalUpdate(Weights(g), Weights(Take(g, t)), t);
  }

  lemma AdvanceRank(g: Gate, c: Tid, t: Tid)
    requires Inv(g, c) && Enabled(g, t)
    ensures Spin(g, t) ==> Rank(Advance(g, t)) == Rank(g)
    ensures !Spin(g, t) ==> Rank(Advance(g, t)) < Rank(g)
  {
    AdvanceWork(g, c, t);
    if Circles(g, t) {
      assert g.mtx == Some(t);
      assert Take(g, t).mtx == g.mtx && Take(g, t).cv == g.cv && Take(g, t).condVarMutex == g.condVarMutex;
      assert Take(g, t).pc[t] == Next(g, g.pc[t]);
    }
  }

  /** Nothing left to do but, perhaps, for the closer to wait for the next Open. */
  predicate Settled(g: Gate) {
    forall t | t in g.pc :: g.pc[t].Idle? || (g.pc[t].Asleep? && t in g.cv)
  }

  lemma SomeoneAdvances(g: Gate, c: Tid) returns (t: Tid)
    requires Inv(g, c) && !Settled(g)
    ensures Enabled(g, t) && !Spin(g, t)
  {
    if g.mtx.Some? && !Spin(g, g.mtx.value) {
      t := g.mtx.value;
    } else if g.mtx.Some? {
      t := c;
    } else {
      t :| t in g.pc && !g.pc[t].Idle? && !(g.pc[t].Asleep? && t in g.cv);
    }
  }

  lemma SpinsDoNotDisable(g: Gate, c: Tid, t: Tid, u: Tid)
    requires Inv(g, c) && Enabled(g, t) && !Spin(g, t)
    requires Enabled(g, u) ==> Spin(g, u)
    ensures Enabled(Advance(g, u), t) && !Spin(Advance(g, u), t)
  {
  }

  ghost predicate Live(threads: set<Tid>, c: Tid, g: Gate) {
    Inv(g, c) && g.pc.Keys == threads
  }

  lemma RankIsFair(threads: set<Tid>, c: Tid)
    ensures Ranked(Advance, (g: Gate) => Live(threads, c, g), Rank)
    ensures NeverStuck(Advance, (g: Gate) => Live(threads, c, g), Settled, Rank, threads)
  {
    forall g: Gate, t: Tid | Live(threads, c, g)
      ensures Live(threads, c, Advance(g, t)) && Rank(Advance(g, t)) <= Rank(g)
      ensures Rank(Advance(g, t)) < Rank(g) <==> Enabled(g, t) && !Spin(g, t)
    {
      DoKeepsInv(g, c, Step(t));
      if Enabled(g, t) { AdvanceRank(g, c, t); PcMove(g, t); }
    }
    forall g: Gate, t: Tid, u: Tid | Live(threads, c, g) && Useful(Advance, Rank, g, t) && Rank(Advance(g, u)) == Rank(g)
      ensures Useful(Advance, Rank, Advance(g, u), t)
    {
      SpinsDoNotDisable(g, c, t, u);
    }
    forall g: Gate | Live(threads, c, g) && !Settled(g)
      ensures exists t :: t in threads && Useful(Advance, Rank, g, t)
    {
      var t := SomeoneAdvances(g, c);
      assert Useful(Advance, Rank, g, t);
    }
  }

  // ----- with the history

  function AdvanceWith(s: H.State, t: Tid): H.State { H.Do(s, Step(t)) }

  ghost predicate LiveWith(threads: set<Tid>, c: Tid, s: H.State) {
    H.Inv(s, c) && s.g.pc.Keys == threads
  }

  ghost function RankOf(s: H.State): nat { Rank(s.g) }

  predicate SettledGate(s: H.State) { Settled(s.g) }

  /** The history does not influence the gate. */
  lemma GateAlone(s: H.State, t: Tid)
    ensures AdvanceWith(s, t).g == Advance(s.g, t)
  {}

  lemma RankIsFairWith(threads: set<Tid>, c: Tid)
    ensures Ranked(AdvanceWith, (s: H.State) => LiveWith(threads, c, s), RankOf)
    ensures NeverStuck(AdvanceWith, (s: H.State) => LiveWith(threads, c, s), SettledGate, RankOf, threads)
  {
    RankIsFair(threads, c);
    var live := (g: Gate) => Live(threads, c, g);
    assert Ranked(Advance, live, Rank) && NeverStuck(Advance, live, Settled, Rank, threads);
    forall s: H.State, t: Tid | LiveWith(threads, c, s)
      ensures LiveWith(threads, c, AdvanceWith(s, t)) && RankOf(AdvanceWith(s, t)) <= RankOf(s)
      ensures Useful(AdvanceWith, RankOf, s, t) <==> Useful(Advance, Rank, s.g, t)
    {
      GateAlone(s, t);
      H.DoKeepsInv(s, c, Step(t));
      assert live(s.g);
    }
    forall s: H.State, t: Tid, u: Tid | LiveWith(threads, c, s) && Useful(AdvanceWith, RankOf, s, t)
                                        && RankOf(AdvanceWith(s, u)) == RankOf(s)
      ensures Useful(AdvanceWith, RankOf, AdvanceWith(s, u), t)
    {
      GateAlone(s, u);
      assert live(s.g) && LiveWith(threads, c, AdvanceWith(s, u));
    }
    forall s: H.State | LiveWith(threads, c, s) && !SettledGate(s)
      ensures exists t :: t in threads && Useful(AdvanceWith, RankOf, s, t)
    {
      assert live(s.g);
      var t :| t in threads && Useful(Advance, Rank, s.g, t);
      assert Useful(AdvanceWith, RankOf, s, t);
    }
  }

  /** Every call has met the gate, and when the closer still sleeps none is left for it: no call
      feeds it, none is stored, and every call was taken by another Close, was replaced, or
      found nobody asleep. */
  predicate NoneLeft(s: H.State, c: Tid) {
    && (forall i | 0 <= i < |s.h.calls| :: !s.h.calls[i].fate.Pending?)
    && (c in s.g.pc && s.g.pc[c].Asleep? ==>
          && s.h.fed == None && s.h.token == None
          && (forall i | 0 <= i < |s.h.calls| :: s.h.calls[i].fate.Taken? || s.h.calls[i].fate.Replaced? || s.h.calls[i].fate.NoSleeper?)
          && |s.h.taken| == s.h.passed)
  }

  lemma SettledMeansNoneLeft(s: H.State, c: Tid)
    requires H.Inv(s, c) && Settled(s.g)
    ensures NoneLeft(s, c) && s.h.fed == None
  {}

  /** A Close that lives on some call returns before the gate is settled. */
  ghost predicate FedReturns(h0: H.History, h: H.History) {
    h0.passed <= h.passed && (h0.fed.Some? ==> h.fed == h0.fed || h.passed > h0.passed)
  }

  lemma StepFedReturns(h0: H.History, s: H.State, c: Tid, t: Tid)
    requires H.Inv(s, c) && FedReturns(h0, s.h)
    ensures FedReturns(h0, AdvanceWith(s, t).h)
  {
    if Enabled(s.g, t) { H.StepIsReady(s, c, t); }
  }

  lemma RunFedReturns(s: H.State, c: Tid, f: nat -> Tid, n: nat)
    requires H.Inv(s, c)
    ensures H.Inv(After(AdvanceWith, f, s, n), c) && FedReturns(s.h, After(AdvanceWith, f, s, n).h)
  {
    var inv := (x: H.State) => H.Inv(x, c) && FedReturns(s.h, x.h);
    forall x: H.State, t: Tid | inv(x) ensures inv(AdvanceWith(x, t)) {
      H.DoKeepsInv(x, c, Step(t));
      StepFedReturns(s.h, x, c, t);
    }
    AfterKeeps(AdvanceWith, inv, f, s, 0, n);
  }

  /** From every reachable state, with no new calls and no time limit expiring, a fair schedule
      returns every Open and OpenIfClosed, and the Close too unless no call is left for it; a
      Close that some call feeds already has returned. */
  lemma FairRunsSettle(s: H.State, c: Tid, f: nat -> Tid) returns (n: nat)
    requires H.Inv(s, c) && Fair(f, s.g.pc.Keys)
    ensures var s' := After(AdvanceWith, f, s, n);
            && H.Inv(s', c) && Settled(s'.g) && NoneLeft(s', c)
            && (s.h.fed.Some? ==> s'.h.passed > s.h.passed)
  {
    var threads := s.g.pc.Keys;
    RankIsFairWith(threads, c);
    n := FairRunsFinishFrom(AdvanceWith, (x: H.State) => LiveWith(threads, c, x), SettledGate, RankOf, threads, f, s, 0);
    RunFedReturns(s, c, f, n);
    SettledMeansNoneLeft(After(AdvanceWith, f, s, n), c);
  }
}
