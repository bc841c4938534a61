/** The timer's calls come to their end: a sleep is over when its time is up, StartTimer returns,
    and so does the destructor, from every reachable state and under every fair schedule. */
module TimerProgress {
  import opened Machines
  import opened Options
  import opened Fairness
  import opened BackgroundTimer

  // ----- a sleep ends

  /** IsSleep would say yes. */
  predicate Asleep(s: State) { s.code == 1 }

  predicate Awake(s: State) { s.code == 0 }

  ghost predicate SleepOrAfter(s: State) { Inv(s) && (Asleep(s) || Awake(s)) }

  /** The timer's way to the clearing of the code, and the caller's to the release of its mutex. */
  function SleepLeft(s: State): nat {
    var timer := match s.timer
      case LockMtx => 8
      case UnlockMtx => 7
      case SleepFor => 6
      case Sleeping(_) => if s.inCv then 4 else 3
      case SetZero => 2
      case _ => 0;
    var caller := match s.caller
      case NotifyOne(_) => 4
      case Poll(_) => 3
      case Write(_) => 2
      case Unlock(_) => 1
      case _ => 0;
    5 * timer + caller
  }

  lemma SleepMoves(s: State, a: Action)
    requires Inv(s) && Asleep(s)
    ensures Inv(Do(s, a)) && (Asleep(Do(s, a)) || Awake(Do(s, a)))
    ensures Asleep(Do(s, a)) ==> SleepLeft(Do(s, a)) <= SleepLeft(s)
    ensures Awake(Do(s, a)) ==> SleepLeft(Do(s, a)) < SleepLeft(s)
  {
    DoKeepsInv(s, a);
  }

  ghost function SleepSteps(): set<Action> { {TimerStep, CallerStep, TimeUp} }

  lemma SomethingEndsTheSleep(s: State) returns (a: Action)
    requires Inv(s) && Asleep(s)
    ensures a in SleepSteps() && SleepLeft(Do(s, a)) < SleepLeft(s)
  {
    DoKeepsInv(s, TimerStep);
    a := if s.timer.Sleeping? && s.inCv then TimeUp
         else if s.timer.LockMtx? && !s.mtx.Free? then CallerStep else TimerStep;
  }

  lemma UsefulStays(s: State, a: Action, u: Action)
    requires Inv(s) && Asleep(s) && SleepLeft(Do(s, a)) < SleepLeft(s)
    requires Asleep(Do(s, u)) && SleepLeft(Do(s, u)) == SleepLeft(s)
    ensures SleepLeft(Do(Do(s, u), a)) < SleepLeft(Do(s, u))
  {
  }

  lemma SleepIsFair()
    ensures RankedUntil(Do, SleepOrAfter, Awake, SleepLeft)
    ensures NeverStuck(Do, SleepOrAfter, Awake, SleepLeft, SleepSteps())
  {
    forall s: State, a: Action | SleepOrAfter(s) && !Awake(s)
      ensures SleepOrAfter(Do(s, a)) && SleepLeft(Do(s, a)) <= SleepLeft(s)
    {
      SleepMoves(s, a);
    }
    forall s: State, a: Action, u: Action | SleepOrAfter(s) && !Awake(s) && Useful(Do, SleepLeft, s, a)
                                            && !Awake(Do(s, u)) && SleepLeft(Do(s, u)) == SleepLeft(s)
      ensures Useful(Do, SleepLeft, Do(s, u), a)
    {
      SleepMoves(s, u);
      UsefulStays(s, a, u);
    }
    forall s: State | SleepOrAfter(s) && !Awake(s)
      ensures exists a :: a in SleepSteps() && Useful(Do, SleepLeft, s, a)
    {
      var a := SomethingEndsTheSleep(s);
      assert Useful(Do, SleepLeft, s, a);
    }
  }

  /** From every reachable state in which IsSleep says yes, every run in which the time is up
      sooner or later, and both threads are scheduled, comes to one in which it says no; an idle
      caller's next StartTimer then begins. */
  lemma SleepEnds(s: State, f: nat -> Action, d: Duration) returns (n: nat)
    requires Inv(s) && s.code == 1 && Fair(f, SleepSteps())
    ensures var s' := After(Do, f, s, n);
            && Inv(s') && s'.code == 0
            && (s'.caller.Idle? ==> Do(s', Ask(d)).caller == Lock(d))
  {
    SleepIsFair();
    n := FairRunsReach(Do, SleepOrAfter, Awake, SleepLeft, SleepSteps(), f, s, 0);
  }

  // ----- StartTimer returns

  /** StartTimer has done its work: the timer is awake, about to take the mutex and to sleep so long. */
  predicate Started(d: Duration, s: State) {
    s.caller.Idle? && s.timer.LockMtx? && s.code == 1 && s.wokenBy == Some(d) && s.sleepTime == Some(d)
  }

  /** Inside StartTimer(d), or just back from it. */
  ghost predicate InStart(d: Duration, s: State) {
    && Inv(s) && !s.isDestroy
    && (s.caller == Lock(d) || s.caller == Poll(d) || s.caller == NotifyOne(d) || s.caller == Write(d) || s.caller == Unlock(d)
        || Started(d, s))
  }

  function CallLeft(p: CallerPc): nat {
    match p
    case Lock(_) => 5
    case Poll(_) => 4
    case NotifyOne(_) => 4
    case Write(_) => 3
    case Unlock(_) => 2
    case _ => 0
  }

  function TimerLeft(p: TimerPc): nat {
    match p
    case SetZero => 15
    case CheckDestroy => 14
    case Wait => 13
    case Waiting => 11
    case SetOne => 10
    case LockMtx => 9
    case UnlockMtx => 8
    case SleepFor => 7
    case _ => 0
  }

  /** Whether the caller's next turn of the loop changes something. */
  function TurnLeft(s: State): nat {
    if (s.caller.Poll? && s.inCv) || (s.caller.NotifyOne? && !s.inCv && s.code == 1) then 1 else 0
  }

  function StartLeft(s: State): nat {
    2 * (TimerLeft(s.timer) + CallLeft(s.caller) + (if s.inCv then 1 else 0)) + TurnLeft(s)
  }

  lemma StartMoves(d: Duration, s: State, a: Action)
    requires InStart(d, s) && !s.caller.Idle?
    ensures InStart(d, Do(s, a)) && StartLeft(Do(s, a)) <= StartLeft(s)
  {
    DoKeepsInv(s, a);
  }

  lemma StartUsefulStays(d: Duration, s: State, a: Action, u: Action)
    requires InStart(d, s) && !s.caller.Idle? && StartLeft(Do(s, a)) < StartLeft(s)
    requires !Do(s, u).caller.Idle? && StartLeft(Do(s, u)) == StartLeft(s)
    ensures StartLeft(Do(Do(s, u), a)) < StartLeft(Do(s, u))
  {
  }

  lemma SomethingStarts(d: Duration, s: State)
    requires InStart(d, s) && !s.caller.Idle?
    ensures StartLeft(Do(s, TimerStep)) < StartLeft(s) || StartLeft(Do(s, CallerStep)) < StartLeft(s)
  {
  }

  ghost function BothThreads(): set<Action> { {TimerStep, CallerStep} }

  predicate CallerIdle(s: State) { s.caller.Idle? }

  lemma StartIsFair(d: Duration)
    ensures RankedUntil(Do, (s: State) => InStart(d, s), CallerIdle, StartLeft)
    ensures NeverStuck(Do, (s: State) => InStart(d, s), CallerIdle, StartLeft, BothThreads())
  {
    forall s: State, a: Action | InStart(d, s) && !CallerIdle(s)
      ensures InStart(d, Do(s, a)) && StartLeft(Do(s, a)) <= StartLeft(s)
    {
      StartMoves(d, s, a);
    }
    forall s: State, a: Action, u: Action | InStart(d, s) && !CallerIdle(s) && Useful(Do, StartLeft, s, a)
                                            && !CallerIdle(Do(s, u)) && StartLeft(Do(s, u)) == StartLeft(s)
      ensures Useful(Do, StartLeft, Do(s, u), a)
    {
      StartUsefulStays(d, s, a, u);
    }
    forall s: State | InStart(d, s) && !CallerIdle(s)
      ensures exists a :: a in BothThreads() && Useful(Do, StartLeft, s, a)
    {
      SomethingStarts(d, s);
      assert Useful(Do, StartLeft, s, TimerStep) || Useful(Do, StartLeft, s, CallerStep);
    }
  }

  /** StartTimer, called by an idle caller to whom IsSleep says no, returns in every fair run, with
      the timer awake and bound to sleep for the duration asked for. */
  lemma StartTimerReturns(s: State, d: Duration, f: nat -> Action) returns (n: nat)
    requires Inv(s) && s.caller.Idle? && s.code != 1 && Fair(f, BothThreads())
    ensures Started(d, After(Do, f, Do(s, Ask(d)), n)) && Inv(After(Do, f, Do(s, Ask(d)), n))
  {
    DoKeepsInv(s, Ask(d));
    StartIsFair(d);
    n := FairRunsReach(Do, (x: State) => InStart(d, x), CallerIdle, StartLeft, BothThreads(), f, Do(s, Ask(d)), 0);
  }

  // ----- the destructor, from its call

  ghost predicate AboutToDestroy(s: State) { Inv(s) && s.caller.SetDestroy? }

  /** The destructor, called by an idle caller, comes to its end in every fair run, with the timer
      thread ended. */
  lemma DestroyEnds(s: State, f: nat -> Tid) returns (n: nat)
    requires Inv(s) && s.caller.Idle? && Fair(f, {0, 1})
    ensures var s' := After(Advance, f, Do(s, Destroy), n); s'.caller.Done? && s'.timer.Ended? && s'.code == 2
  {
    var called := Do(s, Destroy);
    DoKeepsInv(s, Destroy);
    forall x: State, t: Tid | AboutToDestroy(x) && t != 1 ensures AboutToDestroy(Advance(x, t)) { DoKeepsInv(x, TimerStep); }
    forall x: State | AboutToDestroy(x) ensures Ending(Advance(x, 1)) { DoKeepsInv(x, CallerStep); }
    assert AboutToDestroy(After(Advance, f, called, 0));
    var m := LeadsTo(Advance, AboutToDestroy, Ending, {0, 1}, 1, f, called, 0);
    RankIsFair();
    n := FairRunsFinishFrom(Advance, Ending, (x: State) => x.caller.Done?, Rank, {0, 1}, f, called, m);
  }
}
