/** EN_ThreadBarrier::Wait, one round of exactly `amount` threads.

    The thread whose compare-and-exchange succeeds leads the others out by notifying until
    the counter is 0. */
module Barrier {
  import opened Machines
  import opened Options
  import opened Sums
  import opened Fairness

  datatype Pc = Outside | Add | Elect | Wait | Asleep | Sub | Poll | Notify | Left

  /** `leader` only records whose exchange succeeded. */
  datatype State = State(amount: nat, waitingAmount: int, cv: set<Tid>, leader: Option<Tid>, pc: map<Tid, Pc>)

  datatype Action = Call(t: Tid) | Step(t: Tid)

  /** Exactly `amount` threads take part. */
  predicate Init(s: State) {
    && s.waitingAmount == 0 && s.cv == {} && s.leader == None && s.amount == |s.pc.Keys| && s.amount >= 1
    && forall t | t in s.pc :: s.pc[t].Outside?
  }

  predicate Enabled(s: State, t: Tid) {
    t in s.pc && !s.pc[t].Outside? && !s.pc[t].Left? && !(s.pc[t].Asleep? && t in s.cv)
  }

  function Next(s: State, p: Pc): Pc {
    match p
    case Outside => Outside
    case Add => Elect
    case Elect => if s.waitingAmount == s.amount then Poll else Wait
    case Wait => Asleep
    case Asleep => Sub
    case Sub => Left
    case Poll => if s.waitingAmount != 0 then Notify else Left
    case Notify => Poll
    case Left => Left
  }

  function Effect(s: State, t: Tid, p: Pc): State {
    match p
    case Add => s.(waitingAmount := s.waitingAmount + 1)
    case Elect => if s.waitingAmount == s.amount then s.(waitingAmount := s.amount - 1, leader := Some(t)) else s
    case Wait => s.(cv := s.cv + {t})
    case Sub => s.(waitingAmount := s.waitingAmount - 1)
    case Notify => s.(cv := {})
    case _ => s
  }

  function Take(s: State, t: Tid): State
    requires Enabled(s, t)
  {
    Effect(s, t, s.pc[t]).(pc := s.pc[t := Next(s, s.pc[t])])
  }

  function Do(s: State, a: Action): State {
    match a
    case Call(t) => if t in s.pc && s.pc[t].Outside? then s.(pc := s.pc[t := Add]) else s
    case Step(t) => if Enabled(s, t) then Take(s, t) else s
  }

  // ----- the invariant

  predicate Counted(p: Pc) { p.Elect? || p.Wait? || p.Asleep? || p.Sub? }

  predicate NotArrived(p: Pc) { p.Outside? || p.Add? }

  predicate Leading(p: Pc) { p.Poll? || p.Notify? }

  function Inside(s: State): set<Tid> {
    set t | t in s.pc && Counted(s.pc[t])
  }

  predicate CountOk(s: State) {
    s.waitingAmount == |Inside(s)| && s.amount == |s.pc.Keys| && s.amount >= 1
  }

  predicate CvOk(s: State) {
    forall t | t in s.cv :: t in s.pc && s.pc[t].Asleep?
  }

  /** Nobody leads, leaves or has been woken. */
  predicate Gathering(s: State) {
    forall t | t in s.pc :: NotArrived(s.pc[t]) || s.pc[t].Elect? || s.pc[t].Wait? || (s.pc[t].Asleep? && t in s.cv)
  }

  /** Somebody has still to try the exchange. */
  predicate SomeoneToElect(s: State) {
    exists t | t in s.pc :: NotArrived(s.pc[t]) || s.pc[t].Elect?
  }

  /** All have arrived, one leads. */
  predicate Leaving(s: State, l: Tid) {
    && l in s.pc && (Leading(s.pc[l]) || s.pc[l].Left?)
    && (forall t | t in s.pc && t != l :: Counted(s.pc[t]) || s.pc[t].Left?)
    && (s.pc[l].Left? ==> s.waitingAmount == 0)
  }

  predicate PhaseOk(s: State) {
    if s.leader.None? then Gathering(s) && SomeoneToElect(s) else Leaving(s, s.leader.value)
  }

  predicate Inv(s: State) {
    CountOk(s) && CvOk(s) && PhaseOk(s)
  }

  lemma PcMove(s: State, t: Tid)
    requires Enabled(s, t)
    ensures Take(s, t).pc == s.pc[t := Next(s, s.pc[t])]
  {
  }

  lemma InsideMove(s: State, s': State, t: Tid, p: Pc)
    requires t in s.pc && s'.pc == s.pc[t := p]
    ensures |Inside(s')| == |Inside(s)| + (if Counted(p) then 1 else 0) - (if Counted(s.pc[t]) then 1 else 0)
  {
    var others := Inside(s) - {t};
    assert Inside(s) == if Counted(s.pc[t]) then others + {t} else others;
    assert Inside(s') == if Counted(p) then others + {t} else others;
  }

  /** The counter reaches the number of threads exactly when all are inside. */
  lemma InsideBound(s: State)
    ensures |Inside(s)| <= |s.pc.Keys|
    ensures |Inside(s)| == |s.pc.Keys| <==> forall t | t in s.pc :: Counted(s.pc[t])
    ensures |Inside(s)| == 0 <==> forall t | t in s.pc :: !Counted(s.pc[t])
  {
    var rest := s.pc.Keys - Inside(s);
    assert s.pc.Keys == Inside(s) + rest;
    assert (forall t | t in s.pc :: Counted(s.pc[t])) ==> Inside(s) == s.pc.Keys;
    if t :| t in s.pc && !Counted(s.pc[t]) { assert t in rest; }
    if t :| t in s.pc && Counted(s.pc[t]) { assert t in Inside(s); }
  }

  lemma TakeKeepsCount(s: State, t: Tid)
    requires Inv(s) && Enabled(s, t)
    ensures CountOk(Take(s, t)) && CvOk(Take(s, t))
  {
    PcMove(s, t);
    InsideMove(s, Take(s, t), t, Next(s, s.pc[t]));
    InsideBound(s);
  }

  lemma GatheringStep(s: State, t: Tid)
    requires Inv(s) && Enabled(s, t) && s.leader.None?
    ensures PhaseOk(Take(s, t))
  {
    var s' := Take(s, t);
    InsideBound(s);
    if s.pc[t].Elect? && s.waitingAmount != s.amount {
      var u :| u in s.pc && !Counted(s.pc[u]);
      assert NotArrived(s'.pc[u]);
    } else if s.pc[t].Wait? {
      var u :| u in s.pc && (NotArrived(s.pc[u]) || s.pc[u].Elect?);
      assert s'.pc[u] == s.pc[u];
    } else if s.pc[t].Add? {
      assert s'.pc[t].Elect?;
    }
  }

  lemma LeavingStep(s: State, t: Tid)
    requires Inv(s) && Enabled(s, t) && s.leader.Some?
    ensures PhaseOk(Take(s, t))
  {
    InsideBound(s);
  }

  lemma DoKeepsInv(s: State, a: Action)
    requires Inv(s)
    ensures Inv(Do(s, a))
  {
    match a
    case Step(t) =>
      if Enabled(s, t) {
        TakeKeepsCount(s, t);
        if s.leader.None? { GatheringStep(s, t); } else { LeavingStep(s, t); }
      }
    case Call(t) =>
      if t in s.pc && s.pc[t].Outside? {
        var s' := Do(s, a);
        InsideMove(s, s', t, Add);
        assert s'.pc[t].Add?;
      }
  }

  lemma ReachableInv(init: State, schedule: seq<Action>)
    requires Init(init)
    ensures Inv(Run(Do, init, schedule)) && Run(Do, init, schedule).amount == init.amount
  {
    assert Inside(init) == {};
    var t :| t in init.pc;
    assert init.pc[t].Outside?;
    var inv := (s: State) => Inv(s) && s.amount == init.amount;
    forall s: State, a: Action | inv(s) ensures inv(Do(s, a)) { DoKeepsInv(s, a); }
    InvariantOfRuns(Do, inv, init, schedule);
  }

  lemma SameThreads(init: State, schedule: seq<Action>)
    ensures Run(Do, init, schedule).pc.Keys == init.pc.Keys
  {
    var keys := init.pc.Keys;
    forall s: State, a: Action | s.pc.Keys == keys ensures Do(s, a).pc.Keys == keys {
      if a.Step? && Enabled(s, a.t) { PcMove(s, a.t); }
    }
    InvariantOfRuns(Do, (x: State) => x.pc.Keys == keys, init, schedule);
  }

  // ----- one round

  /** A thread that has won the exchange, or returned, shows that all threads have arrived;
      one thread wins; the counter is the number of followers that have not left; and when
      the leader has returned everybody has and the counter is back at 0. */
  lemma OneRound(init: State, schedule: seq<Action>, t: Tid, u: Tid)
    requires Init(init) && t in init.pc && u in init.pc
    ensures var s := Run(Do, init, schedule);
            && t in s.pc && u in s.pc
            && (s.pc[t].Left? || Leading(s.pc[t]) ==> !NotArrived(s.pc[u]))
            && (Leading(s.pc[t]) && Leading(s.pc[u]) ==> t == u)
            && (s.leader.Some? ==> s.waitingAmount == |Inside(s)|)
            && (s.leader == Some(t) && s.pc[t].Left? ==> s.pc[u].Left? && s.waitingAmount == 0)
            // no wake-up is lost: a follower that will sleep, or sleeps, has a leader that notifies
            && (s.leader.Some? && (s.pc[t].Wait? || (s.pc[t].Asleep? && t in s.cv)) ==>
                  s.leader.value in s.pc && Leading(s.pc[s.leader.value]))
  {
    ReachableInv(init, schedule);
    SameThreads(init, schedule);
    InsideBound(Run(Do, init, schedule));
  }

  // ----- progress: once all have called, every fair run lets all return

  function Weight(p: Pc): nat {
    match p
    case Outside => 10
    case Add => 9
    case Elect => 8
    case Wait => 6
    case Asleep => 4
    case Sub => 3
    case Poll => 5
    case Notify => 5
    case Left => 0
  }

  ghost function Weights(s: State): map<Tid, nat> {
    map t | t in s.pc :: Weight(s.pc[t])
  }

  ghost function Work(s: State): nat {
    Total(Weights(s)) + |s.cv|
  }

  ghost function LoopWork(s: State): nat {
    if s.leader.None? || s.leader.value !in s.pc then 0
    else if s.pc[s.leader.value].Poll? && s.cv != {} then 1
    else if s.pc[s.leader.value].Notify? && s.cv == {} && s.waitingAmount == 0 then 1
    else 0
  }

  ghost function Rank(s: State): nat {
    2 * Work(s) + LoopWork(s)
  }

  function Advance(s: State, t: Tid): State { Do(s, Step(t)) }

  /** The leader's moves that wake nobody. */
  predicate Circles(s: State, t: Tid) {
    t in s.pc && ((s.pc[t].Poll? && s.waitingAmount != 0) || (s.pc[t].Notify? && s.cv == {}))
  }

  predicate Spin(s: State, t: Tid) {
    Circles(s, t) && s.waitingAmount != 0 && s.cv == {}
  }

  lemma AdvanceWork(s: State, t: Tid)
    requires Enabled(s, t) && CvOk(s)
    ensures Circles(s, t) ==> Work(Advance(s, t)) == Work(s)
    ensures !Circles(s, t) ==> Work(Advance(s, t)) < Work(s)
  {
    PcMove(s, t);
    TotalUpdate(Weights(s), Weights(Take(s, t)), t);
    assert |s.cv| == 0 <==> s.cv == {};
    assert s.pc[t].Wait? ==> t !in s.cv;
  }

  lemma AdvanceRank(s: State, t: Tid)
    requires Inv(s) && Enabled(s, t)
    ensures Spin(s, t) ==> Rank(Advance(s, t)) == Rank(s)
    ensures !Spin(s, t) ==> Rank(Advance(s, t)) < Rank(s)
  {
    AdvanceWork(s, t);
    if Circles(s, t) {
      assert s.leader == Some(t);
    }
  }

  predicate AllCalled(s: State) {
    forall t | t in s.pc :: !s.pc[t].Outside?
  }

  predicate AllLeft(s: State) {
    forall t | t in s.pc :: s.pc[t].Left?
  }

  lemma SomeoneAdvances(s: State) returns (t: Tid)
    requires Inv(s) && AllCalled(s) && !AllLeft(s)
    ensures Enabled(s, t) && !Spin(s, t)
  {
    InsideBound(s);
    if s.leader.None? {
      t :| t in s.pc && (NotArrived(s.pc[t]) || s.pc[t].Elect?);
    } else if Enabled(s, s.leader.value) && !Spin(s, s.leader.value) {
      t := s.leader.value;
    } else {
      t :| t in s.pc && Counted(s.pc[t]);
    }
  }

  ghost predicate Live(threads: set<Tid>, s: State) {
    Inv(s) && AllCalled(s) && s.pc.Keys == threads
  }

  lemma RankIsFair(threads: set<Tid>)
    ensures Ranked(Advance, (s: State) => Live(threads, s), Rank)
    ensures NeverStuck(Advance, (s: State) => Live(threads, s), AllLeft, Rank, threads)
  {
    forall s: State, t: Tid | Live(threads, s)
      ensures Live(threads, Advance(s, t)) && Rank(Advance(s, t)) <= Rank(s)
      ensures Rank(Advance(s, t)) < Rank(s) <==> Enabled(s, t) && !Spin(s, t)
    {
      DoKeepsInv(s, Step(t));
      if Enabled(s, t) { AdvanceRank(s, t); PcMove(s, t); }
    }
    forall s: State, t: Tid, u: Tid | Live(threads, s) && Useful(Advance, Rank, s, t) && Rank(Advance(s, u)) == Rank(s)
      ensures Useful(Advance, Rank, Advance(s, u), t)
    {
      SpinsDoNotDisable(s, t, u);
    }
    forall s: State | Live(threads, s) && !AllLeft(s)
      ensures exists t :: t in threads && Useful(Advance, Rank, s, t)
    {
      var t := SomeoneAdvances(s);
      assert Useful(Advance, Rank, s, t);
    }
  }

  lemma SpinsDoNotDisable(s: State, t: Tid, u: Tid)
    requires Inv(s) && Enabled(s, t) && !Spin(s, t)
    requires Enabled(s, u) ==> Spin(s, u)
    ensures Enabled(Advance(s, u), t) && !Spin(Advance(s, u), t)
  {
  }

  lemma FairRoundsEnd(init: State, schedule: seq<Action>, f: nat -> Tid)
    requires Init(init) && Fair(f, init.pc.Keys) && AllCalled(Run(Do, init, schedule))
    ensures exists n: nat :: AllLeft(After(Advance, f, Run(Do, init, schedule), n))
  {
    var s := Run(Do, init, schedule);
    ReachableInv(init, schedule);
    SameThreads(init, schedule);
    RankIsFair(init.pc.Keys);
    var n := FairRunsFinish(Advance, (x: State) => Live(init.pc.Keys, x), AllLeft, Rank, init.pc.Keys, f, s, 0);
  }

  // ----- why a round must be over before the next begins

  /** The step function of a program whose threads may call Wait again after it returned. */
  function DoAgain(s: State, a: Action): State {
    if a.Call? && a.t in s.pc && s.pc[a.t].Left? then s.(pc := s.pc[a.t := Add]) else Do(s, a)
  }

  /** Two threads and where they stand. */
  function Two(a: Tid, b: Tid, waitingAmount: int, cv: set<Tid>, leader: Option<Tid>, pa: Pc, pb: Pc): State {
    State(2, waitingAmount, cv, leader, map[a := pa, b := pb])
  }

  lemma StepOfFirst(a: Tid, b: Tid, n: int, cv: set<Tid>, l: Option<Tid>, pa: Pc, pb: Pc)
    requires a != b && Enabled(Two(a, b, n, cv, l, pa, pb), a)
    ensures var s := Two(a, b, n, cv, l, pa, pb);
            var e := Effect(s, a, pa);
            DoAgain(s, Step(a)) == Two(a, b, e.waitingAmount, e.cv, e.leader, Next(s, pa), pb)
  {
    assert map[a := pa, b := pb][a := Next(Two(a, b, n, cv, l, pa, pb), pa)] == map[a := Next(Two(a, b, n, cv, l, pa, pb), pa), b := pb];
  }

  lemma StepOfSecond(a: Tid, b: Tid, n: int, cv: set<Tid>, l: Option<Tid>, pa: Pc, pb: Pc)
    requires a != b && Enabled(Two(a, b, n, cv, l, pa, pb), b)
    ensures var s := Two(a, b, n, cv, l, pa, pb);
            var e := Effect(s, b, pb);
            DoAgain(s, Step(b)) == Two(a, b, e.waitingAmount, e.cv, e.leader, pa, Next(s, pb))
  {
    assert map[a := pa, b := pb][b := Next(Two(a, b, n, cv, l, pa, pb), pb)] == map[a := pa, b := Next(Two(a, b, n, cv, l, pa, pb), pb)];
  }

  /** `a` arrives first and sleeps, `b` leads and wakes it; `a` leaves and comes back before
      `b` has looked at the counter again. */
  function Overtake(a: Tid, b: Tid): seq<Action> {
    [Step(a), Step(a), Step(a), Step(b), Step(b), Step(b), Step(b), Step(a), Step(a)]
  }

  /** `a` sleeps in its second round and the old leader's loop wakes it. */
  function SecondRound(a: Tid, b: Tid): seq<Action> {
    [Call(a), Step(a), Step(a), Step(a), Step(b), Step(b), Step(a), Step(a)]
  }

  lemma FirstRound(a: Tid, b: Tid)
    requires a != b
    ensures Run(DoAgain, Two(a, b, 0, {}, None, Add, Add), Overtake(a, b)) == Two(a, b, 0, {}, Some(b), Left, Poll)
  {
    StepOfFirst(a, b, 0, {}, None, Add, Add);
    StepOfFirst(a, b, 1, {}, None, Elect, Add);
    StepOfFirst(a, b, 1, {}, None, Wait, Add);
    assert {} + {a} == {a};
    StepOfSecond(a, b, 1, {a}, None, Asleep, Add);
    StepOfSecond(a, b, 2, {a}, None, Asleep, Elect);
    StepOfSecond(a, b, 1, {a}, Some(b), Asleep, Poll);
    StepOfSecond(a, b, 1, {a}, Some(b), Asleep, Notify);
    StepOfFirst(a, b, 1, {}, Some(b), Asleep, Poll);
    StepOfFirst(a, b, 1, {}, Some(b), Sub, Poll);
    NineSteps(Two(a, b, 0, {}, None, Add, Add), Overtake(a, b));
  }

  lemma NineSteps(s: State, q: seq<Action>)
    requires 8 <= |q| <= 9
    ensures var s8 := DoAgain(DoAgain(DoAgain(DoAgain(DoAgain(DoAgain(DoAgain(DoAgain(s, q[0]), q[1]), q[2]), q[3]), q[4]), q[5]), q[6]), q[7]);
            Run(DoAgain, s, q) == if |q| == 8 then s8 else DoAgain(s8, q[8])
  {
    RunPrefixes(DoAgain, s, q);
    assert Run(DoAgain, s, q[..0 + 1]) == DoAgain(s, q[0]);
    assert Run(DoAgain, s, q[..1 + 1]) == DoAgain(Run(DoAgain, s, q[..1]), q[1]);
    assert Run(DoAgain, s, q[..2 + 1]) == DoAgain(Run(DoAgain, s, q[..2]), q[2]);
    assert Run(DoAgain, s, q[..3 + 1]) == DoAgain(Run(DoAgain, s, q[..3]), q[3]);
    assert Run(DoAgain, s, q[..4 + 1]) == DoAgain(Run(DoAgain, s, q[..4]), q[4]);
    assert Run(DoAgain, s, q[..5 + 1]) == DoAgain(Run(DoAgain, s, q[..5]), q[5]);
    assert Run(DoAgain, s, q[..6 + 1]) == DoAgain(Run(DoAgain, s, q[..6]), q[6]);
    assert Run(DoAgain, s, q[..7 + 1]) == DoAgain(Run(DoAgain, s, q[..7]), q[7]);
    if |q| == 9 { assert Run(DoAgain, s, q[..8 + 1]) == DoAgain(Run(DoAgain, s, q[..8]), q[8]); }
  }

  /** From two calls of Wait(2): `a` returns twice, and `b` not once. */
  lemma EarlyReentryPassesAlone(a: Tid, b: Tid)
    requires a != b
    ensures Run(DoAgain, Two(a, b, 0, {}, None, Add, Add), Overtake(a, b) + SecondRound(a, b))
         == Two(a, b, 0, {}, Some(b), Left, Poll)
  {
    FirstRound(a, b);
    RunConcat(DoAgain, Two(a, b, 0, {}, None, Add, Add), Overtake(a, b), SecondRound(a, b));
    assert map[a := Left, b := Poll][a := Add] == map[a := Add, b := Poll];
    StepOfFirst(a, b, 0, {}, Some(b), Add, Poll);
    StepOfFirst(a, b, 1, {}, Some(b), Elect, Poll);
    StepOfFirst(a, b, 1, {}, Some(b), Wait, Poll);
    assert {} + {a} == {a};
    StepOfSecond(a, b, 1, {a}, Some(b), Asleep, Poll);
    StepOfSecond(a, b, 1, {a}, Some(b), Asleep, Notify);
    StepOfFirst(a, b, 1, {}, Some(b), Asleep, Poll);
    StepOfFirst(a, b, 1, {}, Some(b), Sub, Poll);
    NineSteps(Two(a, b, 0, {}, Some(b), Left, Poll), SecondRound(a, b));
  }
}
