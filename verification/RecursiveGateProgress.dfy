/** Liveness of the counting gate: under every fair schedule the calls of Open return, and Close
    returns unless every Open has been used up. */
module RecursiveGateProgress {
  import opened Machines
  import opened Options
  import opened Sums
  import opened Fairness
  import opened RecursiveGate

  function Weight(p: Pc): nat {
    match p
    case Idle => 0
    case CloseLk => 13
    case CloseMtx => 12
    case CloseTest => 11
    case CloseCvMtx => 10
    case CloseUnlockMtx => 9
    case CloseWait => 8
    case Asleep => 6
    case CloseReleaseCv => 5
    case CloseRelock => 4
    case CloseTake => 3
    case CloseUnlock => 2
    case CloseReturn => 1
    case OpenMtx => 9
    case OpenTry => 8
    case OpenRelease => 7
    case Retry => 6
    case Notify => 6
    case RetryRelease => 4
    case OpenCount => 3
    case OpenReturn => 2
  }

  ghost function Weights(g: Gate): map<Tid, nat> {
    map t | t in g.pc :: Weight(g.pc[t])
  }

  ghost function Work(g: Gate): nat {
    Total(Weights(g)) + |g.cv|
  }

  /** Whether the opener in the loop still has a step that changes something. */
  ghost function LoopWork(g: Gate): nat {
    if g.mtx.None? || g.mtx.value !in g.pc then 0
    else if g.pc[g.mtx.value].Retry? && g.cv != {} then 1
    else if g.pc[g.mtx.value].Notify? && g.cv == {} && g.condVarMutex == None then 1
    else 0
  }

  ghost function Rank(g: Gate): nat {
    2 * Work(g) + LoopWork(g)
  }

  function Advance(g: Gate, t: Tid): Gate { Do(g, Step(t)) }

  /** The moves around the loop that take no mutex and wake nobody. */
  predicate Circles(g: Gate, t: Tid) {
    t in g.pc && ((g.pc[t].Retry? && g.condVarMutex.Some?) || (g.pc[t].Notify? && g.cv == {}))
  }

  predicate Spin(g: Gate, t: Tid) {
    Circles(g, t) && g.condVarMutex.Some? && g.cv == {}
  }

  lemma WeightFalls(g: Gate, p: Pc)
    ensures p.CloseWait? ==> Weight(Next(g, p)) == Weight(p) - 2
    ensures (p.Retry? && g.condVarMutex.Some?) || p.Notify? ==> Weight(Next(g, p)) == Weight(p)
    ensures !p.Idle? && !p.Notify? && !(p.Retry? && g.condVarMutex.Some?) ==> Weight(Next(g, p)) < Weight(p)
  {
  }

  lemma CvMove(g: Gate, c: Tid, t: Tid)
    requires CvOk(g, c) && Enabled(g, t)
    ensures |Take(g, t).cv| == |g.cv| + (if g.pc[t].CloseWait? then 1 else if g.pc[t].Notify? then -|g.cv| else 0)
    ensures |g.cv| == 0 <==> g.cv == {}
  {
    if g.pc[t].CloseWait? { assert t !in g.cv; }
  }

  lemma AdvanceWork(g: Gate, c: Tid, t: Tid)
    requires CvOk(g, c) && Enabled(g, t)
    ensures Circles(g, t) ==> Work(Advance(g, t)) == Work(g)
    ensures !Circles(g, t) ==> Work(Advance(g, t)) < Work(g)
  {
    CvMove(g, c, t);
    WeightFalls(g, g.pc[t]);
    PcMove(g, t);
    TotalUpdate(Weights(g), Weights(Take(g, t)), t);
  }

  lemma AdvanceRank(g: Gate, c: Tid, t: Tid)
    requires Inv(g, c) && Enabled(g, t)
    ensures Spin(g, t) ==> Rank(Advance(g, t)) == Rank(g)
    ensures !Spin(g, t) ==> Rank(Advance(g, t)) < Rank(g)
  {
    AdvanceWork(g, c, t);
    if Circles(g, t) {
      assert g.mtx == Some(t);
      assert Take(g, t).mtx == g.mtx && Take(g, t).cv == g.cv && Take(g, t).condVarMutex == g.condVarMutex;
      assert Take(g, t).pc[t] == Next(g, g.pc[t]);
    }
  }

  /** Nothing left to do but, perhaps, for the closer to wait for the next Open. */
  predicate Settled(g: Gate) {
    forall t | t in g.pc :: g.pc[t].Idle? || (g.pc[t].Asleep? && t in g.cv)
  }

  lemma SomeoneAdvances(g: Gate, c: Tid) returns (t: Tid)
    requires Inv(g, c) && !Settled(g)
    ensures Enabled(g, t) && !Spin(g, t)
  {
    if g.mtx.Some? && !Spin(g, g.mtx.value) {
      t := g.mtx.value;
    } else if g.mtx.Some? {
      t := c;
    } else {
      t :| t in g.pc && !g.pc[t].Idle? && !(g.pc[t].Asleep? && t in g.cv);
    }
  }

  lemma SpinsDoNotDisable(g: Gate, c: Tid, t: Tid, u: Tid)
    requires Inv(g, c) && Enabled(g, t) && !Spin(g, t)
    requires Enabled(g, u) ==> Spin(g, u)
    ensures Enabled(Advance(g, u), t) && !Spin(Advance(g, u), t)
  {
  }

  ghost predicate Live(threads: set<Tid>, c: Tid, g: Gate) {
    Inv(g, c) && g.pc.Keys == threads
  }

  lemma RankIsFair(threads: set<Tid>, c: Tid)
    ensures Ranked(Advance, (g: Gate) => Live(threads, c, g), Rank)
    ensures NeverStuck(Advance, (g: Gate) => Live(threads, c, g), Settled, Rank, threads)
  {
    forall g: Gate, t: Tid | Live(threads, c, g)
      ensures Live(threads, c, Advance(g, t)) && Rank(Advance(g, t)) <= Rank(g)
      ensures Rank(Advance(g, t)) < Rank(g) <==> Enabled(g, t) && !Spin(g, t)
    {
      DoKeepsInv(g, c, Step(t));
      if Enabled(g, t) { AdvanceRank(g, c, t); PcMove(g, t); }
    }
    forall g: Gate, t: Tid, u: Tid | Live(threads, c, g) && Useful(Advance, Rank, g, t) && Rank(Advance(g, u)) == Rank(g)
      ensures Useful(Advance, Rank, Advance(g, u), t)
    {
      SpinsDoNotDisable(g, c, t, u);
    }
    forall g: Gate | Live(threads, c, g) && !Settled(g)
      ensures exists t :: t in threads && Useful(Advance, Rank, g, t)
    {
      var t := SomeoneAdvances(g, c);
      assert Useful(Advance, Rank, g, t);
    }
  }

  /** Nobody is left half way, so the amount is what was opened less what was closed; and if
      the closer still sleeps, every Open has been used up. */
  lemma SettledSleeper(g: Gate, c: Tid)
    requires Inv(g, c) && Settled(g)
    ensures g.closingAmount == g.opens - g.closes
    ensures g.pc[c].Asleep? ==> g.opens == g.closes
  {
    assert g.mtx == None;
  }

  /** The threads inside Open. */
  ghost function Opening(g: Gate): set<Tid> { set t | t in g.pc && !g.pc[t].Idle? && !Closing(g.pc[t]) }

  /** The call of Close that has not been counted yet. */
  function ClosePending(g: Gate, c: Tid): nat {
    if c in g.pc && Closing(g.pc[c]) && !g.pc[c].CloseReturn? then 1 else 0
  }

  /** The calls made so far, completed or in progress. */
  ghost predicate Called(g: Gate, c: Tid, opens: nat, closes: nat) {
    g.opens + |Opening(g)| == opens && g.closes + ClosePending(g, c) == closes
  }

  lemma OpeningAfter(g: Gate, t: Tid)
    requires Enabled(g, t)
    ensures Opening(Take(g, t)) == if g.pc[t].OpenReturn? then Opening(g) - {t} else Opening(g)
    ensures g.pc[t].OpenReturn? ==> t in Opening(g)
  {
    PcMove(g, t);
  }

  lemma StepKeepsCalled(g: Gate, c: Tid, t: Tid, opens: nat, closes: nat)
    requires CloserOk(g, c) && Called(g, c, opens, closes)
    ensures Called(Advance(g, t), c, opens, closes)
  {
    if Enabled(g, t) {
      OpeningAfter(g, t);
      PcMove(g, t);
    }
  }

  /** An idle thread's call is one more. */
  lemma CallsAreCounted(g: Gate, c: Tid, t: Tid, opens: nat, closes: nat)
    requires CloserOk(g, c) && Called(g, c, opens, closes) && t in g.pc && g.pc[t].Idle?
    ensures Called(Do(g, CallOpen(t)), c, opens + 1, closes)
    ensures t == c ==> Called(Do(g, CallClose(t)), c, opens, closes + 1)
  {
    assert Opening(Do(g, CallOpen(t))) == Opening(g) + {t};
    assert t == c ==> Opening(Do(g, CallClose(t))) == Opening(g);
  }

  lemma NobodyOpening(g: Gate, c: Tid)
    requires Settled(g)
    ensures Opening(g) == {}
  {}

  lemma RunKeepsCalled(g: Gate, c: Tid, f: nat -> Tid, n: nat)
    requires Inv(g, c)
    ensures var g' := After(Advance, f, g, n); Called(g', c, g.opens + |Opening(g)|, g.closes + ClosePending(g, c))
  {
    var opens, closes := g.opens + |Opening(g)|, g.closes + ClosePending(g, c);
    var inv := (x: Gate) => Inv(x, c) && Called(x, c, opens, closes);
    forall x: Gate, t: Tid | inv(x) ensures inv(Advance(x, t)) {
      DoKeepsInv(x, c, Step(t));
      StepKeepsCalled(x, c, t, opens, closes);
    }
    AfterKeeps(Advance, inv, f, g, 0, n);
  }

  /** From every reachable state, with no new calls, a fair schedule returns every Open, each
      counted once, and the Close too unless all that was ever opened has been closed. */
  lemma FairRunsSettle(g: Gate, c: Tid, f: nat -> Tid) returns (n: nat)
    requires Inv(g, c) && Fair(f, g.pc.Keys)
    ensures var g' := After(Advance, f, g, n);
            && Inv(g', c) && g'.pc.Keys == g.pc.Keys
            && (forall t | t in g'.pc && t != c :: g'.pc[t].Idle?)
            && g'.closingAmount == g'.opens - g'.closes
            && (g'.pc[c].Idle? || (g'.pc[c].Asleep? && g'.opens == g'.closes))
            && g'.opens == g.opens + |Opening(g)|
            && g'.closes + (if g'.pc[c].Asleep? then 1 else 0) == g.closes + ClosePending(g, c)
  {
    var threads := g.pc.Keys;
    RankIsFair(threads, c);
    n := FairRunsFinishFrom(Advance, (x: Gate) => Live(threads, c, x), Settled, Rank, threads, f, g, 0);
    SettledSleeper(After(Advance, f, g, n), c);
    RunKeepsCalled(g, c, f, n);
    NobodyOpening(After(Advance, f, g, n), c);
  }
}
