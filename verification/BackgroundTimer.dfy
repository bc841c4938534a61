/** EN_BackgroundTimer: a timer thread and one caller, who asks IsSleep before StartTimer and
    runs the destructor last. */
module BackgroundTimer {
  import opened Machines
  import opened Options
  import opened Fairness

  type Duration = nat

  datatype TimerPc =
    | CheckDestroy
    | Wait | Waiting
    | SetOne | LockMtx | UnlockMtx
    | SleepFor | Sleeping(length: Option<Duration>)
    | SetZero
    | SetTwo | Ended

  datatype CallerPc =
    | Idle
    // StartTimer
    | Lock(d: Duration) | Poll(d: Duration) | NotifyOne(d: Duration) | Write(d: Duration) | Unlock(d: Duration)
    // the destructor
    | SetDestroy | PollEnd | NotifyEnd | Join | Done

  datatype Holder = Free | Timer | Caller

  /** `inCv`: the timer thread is in the wait set.  `wokenBy` records whose notification ended
      its last untimed wait: the duration asked for, or `None` for the destructor. */
  datatype State = State(
    mtx: Holder,
    code: nat,
    isDestroy: bool,
    sleepTime: Option<Duration>,
    inCv: bool,
    wokenBy: Option<Duration>,
    timer: TimerPc,
    caller: CallerPc)

  datatype Action =
    | TimerStep | CallerStep
    | TimeUp                     // the timed wait expires
    | Ask(d: Duration)           // if (!IsSleep()) StartTimer(d)
    | Destroy

  predicate Init(s: State) {
    && s.mtx.Free? && s.code == 0 && !s.isDestroy && s.sleepTime == None && !s.inCv && s.wokenBy == None
    && s.timer.CheckDestroy? && s.caller.Idle?
  }

  function DoTimer(s: State): State {
    match s.timer
    case CheckDestroy => s.(timer := if s.isDestroy then SetTwo else Wait)
    case Wait => s.(inCv := true, timer := Waiting)
    case Waiting => if s.inCv then s else s.(timer := SetOne)
    case SetOne => s.(code := 1, timer := LockMtx)
    case LockMtx => if s.mtx.Free? then s.(mtx := Timer, timer := UnlockMtx) else s
    case UnlockMtx => s.(mtx := Free, timer := SleepFor)
    case SleepFor => s.(inCv := true, timer := Sleeping(s.sleepTime))
    case Sleeping(_) => if s.inCv then s else s.(timer := SetZero)
    case SetZero => s.(code := 0, timer := CheckDestroy)
    case SetTwo => s.(code := 2, timer := Ended)
    case Ended => s
  }

  /** notify_one, by StartTimer or by the destructor. */
  function Notified(s: State, why: Option<Duration>): State {
    s.(inCv := false, wokenBy := if s.timer.Waiting? && s.inCv then why else s.wokenBy)
  }

  function DoCaller(s: State): State {
    match s.caller
    case Idle => s
    case Lock(d) => if s.mtx.Free? then s.(mtx := Caller, caller := Poll(d)) else s
    case Poll(d) => s.(caller := if s.code == 0 then NotifyOne(d) else Write(d))
    case NotifyOne(d) => Notified(s, Some(d)).(caller := Poll(d))
    case Write(d) => s.(sleepTime := Some(d), caller := Unlock(d))
    case Unlock(d) => s.(mtx := Free, caller := Idle)
    case SetDestroy => s.(isDestroy := true, caller := PollEnd)
    case PollEnd => s.(caller := if s.code != 2 then NotifyEnd else Join)
    case NotifyEnd => Notified(s, None).(caller := PollEnd)
    case Join => if s.timer.Ended? then s.(caller := Done) else s
    case Done => s
  }

  function Do(s: State, a: Action): State {
    match a
    case TimerStep => DoTimer(s)
    case CallerStep => DoCaller(s)
    case TimeUp => if s.timer.Sleeping? then s.(inCv := false) else s
    case Ask(d) => if s.caller.Idle? && s.code != 1 then s.(caller := Lock(d)) else s
    case Destroy => if s.caller.Idle? then s.(caller := SetDestroy) else s
  }

  // ----- the invariant

  /** Code is 1 from SetOne's store to SetZero's, and 2 at the end. */
  predicate CodeOk(s: State) {
    && s.code == (if s.timer.LockMtx? || s.timer.UnlockMtx? || s.timer.SleepFor? || s.timer.Sleeping? || s.timer.SetZero? then 1
                  else if s.timer.Ended? then 2 else 0)
    && (s.inCv ==> s.timer.Waiting? || s.timer.Sleeping?)
  }

  predicate Starting(p: CallerPc) { p.Poll? || p.NotifyOne? || p.Write? || p.Unlock? }

  predicate Destroying(p: CallerPc) { p.PollEnd? || p.NotifyEnd? || p.Join? || p.Done? }

  predicate MtxOk(s: State) {
    && (s.mtx.Caller? <==> Starting(s.caller))
    && (s.mtx.Timer? <==> s.timer.UnlockMtx?)
    && (s.isDestroy <==> Destroying(s.caller))
    && (s.timer.SetTwo? || s.timer.Ended? ==> s.isDestroy)
    && (s.caller.Join? || s.caller.Done? ==> s.timer.Ended?)
  }

  /** Not notified yet since Code became 0. */
  predicate Rested(s: State) {
    s.timer.CheckDestroy? || s.timer.Wait? || (s.timer.Waiting? && s.inCv)
  }

  /** Notified out of the untimed wait, and not asleep yet. */
  predicate Rising(s: State) {
    (s.timer.Waiting? && !s.inCv) || s.timer.SetOne? || s.timer.LockMtx?
  }

  predicate PastMtx(p: TimerPc) {
    p.UnlockMtx? || p.SleepFor? || p.Sleeping? || p.SetZero?
  }

  /** Where the timer can be while the caller stands at `caller`, the destructor aside. */
  predicate PairOk(s: State) {
    match s.caller
    case Idle => Rested(s) || s.timer.LockMtx? || PastMtx(s.timer)
    case Lock(d) => Rested(s)
    case Poll(d) => Rested(s) || (Rising(s) && s.wokenBy == Some(d))
    case NotifyOne(d) => Rested(s) || (Rising(s) && s.wokenBy == Some(d))
    case Write(d) => s.timer.LockMtx? && s.wokenBy == Some(d)
    case Unlock(d) => s.timer.LockMtx? && s.wokenBy == Some(d) && s.sleepTime == Some(d)
    case SetDestroy => Rested(s) || s.timer.LockMtx? || PastMtx(s.timer)
    case _ => (s.timer.Waiting? && !s.inCv) || s.timer.SetOne? ==> s.wokenBy == None
  }

  /** Once no StartTimer is in progress the duration in the field is the one of the waker. */
  predicate TimeOk(s: State) {
    && (s.timer.LockMtx? && !Starting(s.caller) && s.wokenBy.Some? ==> s.sleepTime == s.wokenBy)
    && ((s.timer.UnlockMtx? || s.timer.SleepFor?) && s.wokenBy.Some? ==> s.sleepTime == s.wokenBy)
    && (s.timer.Sleeping? && s.wokenBy.Some? ==> s.timer.length == s.wokenBy)
  }

  predicate Inv(s: State) {
    CodeOk(s) && MtxOk(s) && PairOk(s) && TimeOk(s)
  }

  lemma TimerKeepsCode(s: State)
    requires CodeOk(s) && MtxOk(s)
    ensures CodeOk(DoTimer(s)) && MtxOk(DoTimer(s))
  {}

  lemma TimerKeepsPair(s: State)
    requires CodeOk(s) && MtxOk(s) && PairOk(s)
    ensures PairOk(DoTimer(s))
  {}

  lemma TimerKeepsTime(s: State)
    requires MtxOk(s) && PairOk(s) && TimeOk(s)
    ensures TimeOk(DoTimer(s))
  {}

  lemma CallerKeepsCode(s: State)
    requires CodeOk(s) && MtxOk(s)
    ensures CodeOk(DoCaller(s)) && MtxOk(DoCaller(s))
  {}

  lemma CallerKeepsPair(s: State)
    requires CodeOk(s) && MtxOk(s) && PairOk(s)
    ensures PairOk(DoCaller(s))
  {}

  lemma CallerKeepsTime(s: State)
    requires CodeOk(s) && MtxOk(s) && PairOk(s) && TimeOk(s)
    ensures TimeOk(DoCaller(s))
  {}

  lemma CallsKeepInv(s: State, a: Action)
    requires Inv(s) && !a.TimerStep? && !a.CallerStep?
    ensures Inv(Do(s, a))
  {}

  lemma DoKeepsInv(s: State, a: Action)
    requires Inv(s)
    ensures Inv(Do(s, a))
  {
    match a
    case TimerStep => TimerKeepsCode(s); TimerKeepsPair(s); TimerKeepsTime(s);
    case CallerStep => CallerKeepsCode(s); CallerKeepsPair(s); CallerKeepsTime(s);
    case TimeUp => CallsKeepInv(s, a);
    case Ask(_) => CallsKeepInv(s, a);
    case Destroy => CallsKeepInv(s, a);
  }

  lemma ReachableInv(init: State, schedule: seq<Action>)
    requires Init(init)
    ensures Inv(Run(Do, init, schedule))
  {
    forall s: State, a: Action | Inv(s) ensures Inv(Do(s, a)) { DoKeepsInv(s, a); }
    InvariantOfRuns(Do, Inv, init, schedule);
  }

  /** The timer sleeps for the duration of the StartTimer that woke it. */
  lemma SleepsAsAsked(init: State, schedule: seq<Action>)
    requires Init(init)
    ensures var s := Run(Do, init, schedule);
            s.timer.Sleeping? && s.wokenBy.Some? ==> s.timer.length == s.wokenBy
  {
    ReachableInv(init, schedule);
  }

  /** No notification of a StartTimer ends a sleep, and every sleep a StartTimer asked for ends
      by its time being up or by the destructor. */
  lemma StartTimerCutsNoSleepShort(init: State, schedule: seq<Action>, a: Action)
    requires Init(init)
    ensures var s := Run(Do, init, schedule);
            s.timer.Sleeping? && s.inCv && !Do(s, a).inCv ==> a.TimeUp? || (a.CallerStep? && s.caller.NotifyEnd?)
  {
    ReachableInv(init, schedule);
  }

  // ----- the destructor ends the thread

  function TimerWeight(p: TimerPc): nat {
    match p
    case Wait => 12
    case Waiting => 10
    case SetOne => 9
    case LockMtx => 8
    case UnlockMtx => 7
    case SleepFor => 6
    case Sleeping(_) => 4
    case SetZero => 3
    case CheckDestroy => 2
    case SetTwo => 1
    case Ended => 0
  }

  function CallerWeight(p: CallerPc): nat {
    if p.Done? then 0 else if p.Join? then 1 else 2
  }

  function Work(s: State): nat {
    TimerWeight(s.timer) + CallerWeight(s.caller) + (if s.inCv then 1 else 0)
  }

  function Rank(s: State): nat {
    2 * Work(s) + (if (s.caller.PollEnd? && s.inCv) || (s.caller.NotifyEnd? && !s.inCv && s.code == 2) then 1 else 0)
  }

  /** Thread 0 is the timer, thread 1 the caller; the time limit need not expire. */
  function Advance(s: State, t: Tid): State {
    if t == 0 then DoTimer(s) else if t == 1 then DoCaller(s) else s
  }

  predicate Ending(s: State) { Inv(s) && s.isDestroy }

  predicate Spin(s: State) {
    (s.caller.PollEnd? || s.caller.NotifyEnd?) && !s.inCv && s.code != 2
  }

  lemma AdvanceFalls(s: State, t: Tid)
    requires Ending(s)
    ensures Ending(Advance(s, t)) && Rank(Advance(s, t)) <= Rank(s)
    ensures Rank(Advance(s, t)) < Rank(s) <==> Advance(s, t) != s && (t == 0 || !Spin(s))
  {
    DoKeepsInv(s, TimerStep);
    DoKeepsInv(s, CallerStep);
  }

  lemma RankIsFair()
    ensures Ranked(Advance, Ending, Rank)
    ensures NeverStuck(Advance, Ending, (s: State) => s.caller.Done?, Rank, {0, 1})
  {
    forall s: State, t: Tid | Ending(s)
      ensures Ending(Advance(s, t)) && Rank(Advance(s, t)) <= Rank(s)
    {
      AdvanceFalls(s, t);
    }
    forall s: State, t: Tid, u: Tid | Ending(s) && Useful(Advance, Rank, s, t) && Rank(Advance(s, u)) == Rank(s)
      ensures Useful(Advance, Rank, Advance(s, u), t)
    {
      AdvanceFalls(s, t);
      AdvanceFalls(s, u);
      AdvanceFalls(Advance(s, u), t);
    }
    forall s: State | Ending(s) && !s.caller.Done?
      ensures exists t :: t in {0, 1} && Useful(Advance, Rank, s, t)
    {
      AdvanceFalls(s, 0);
      AdvanceFalls(s, 1);
      assert Useful(Advance, Rank, s, 0) || Useful(Advance, Rank, s, 1);
    }
  }

  /** From whatever reachable state the destructor sets the flag in, every fair run brings the
      timer thread to Code 2 and the destructor to its end. */
  lemma DestructorReturns(s: State, f: nat -> Tid)
    requires Inv(s) && s.isDestroy && Fair(f, {0, 1})
    ensures exists n: nat :: After(Advance, f, s, n).caller.Done? && After(Advance, f, s, n).code == 2
  {
    RankIsFair();
    var n := FairRunsFinish(Advance, Ending, (s: State) => s.caller.Done?, Rank, {0, 1}, f, s, 0);
    AfterInv(Advance, Ending, Rank, f, s, n);
  }

  // ----- why the caller asks IsSleep first

  /** StartTimer called without asking. */
  function DoUnasked(s: State, a: Action): State {
    if a.Ask? && s.caller.Idle? then s.(caller := Lock(a.d)) else Do(s, a)
  }

  const WAKE_UP: seq<Action> := [TimerStep, TimerStep, CallerStep, CallerStep, CallerStep, TimerStep, TimerStep]
  const WRITE_DOWN: seq<Action> := [CallerStep, CallerStep, CallerStep]
  const AGAIN: seq<Action> := [CallerStep, CallerStep, CallerStep, CallerStep, TimerStep, TimerStep, TimerStep]

  function StartedTwice(d: Duration, e: Duration): seq<Action> {
    [Ask(d)] + WAKE_UP + WRITE_DOWN + [Ask(e)] + AGAIN
  }

  lemma WakesUp(s: State, d: Duration)
    requires s.timer.CheckDestroy? && !s.isDestroy && !s.inCv && s.mtx.Free? && s.code == 0 && s.caller == Lock(d)
    ensures Run(DoUnasked, s, WAKE_UP) == s.(wokenBy := Some(d), mtx := Caller, code := 1, timer := LockMtx, caller := Poll(d))
  {
    var q := WAKE_UP;
    RunPrefixes(DoUnasked, s, q);
    assert Run(DoUnasked, s, q[..0 + 1]) == s.(timer := Wait);
    assert Run(DoUnasked, s, q[..1 + 1]) == s.(timer := Waiting, inCv := true);
    assert Run(DoUnasked, s, q[..2 + 1]) == s.(timer := Waiting, inCv := true, caller := Poll(d), mtx := Caller);
    assert Run(DoUnasked, s, q[..3 + 1]) == s.(timer := Waiting, inCv := true, caller := NotifyOne(d), mtx := Caller);
    assert Run(DoUnasked, s, q[..4 + 1]) == s.(timer := Waiting, wokenBy := Some(d), caller := Poll(d), mtx := Caller);
    assert Run(DoUnasked, s, q[..5 + 1]) == s.(timer := SetOne, wokenBy := Some(d), caller := Poll(d), mtx := Caller);
    assert Run(DoUnasked, s, q[..6 + 1]) == DoUnasked(Run(DoUnasked, s, q[..6]), TimerStep);
  }

  lemma WritesDown(s: State, d: Duration)
    requires s.code == 1 && s.caller == Poll(d)
    ensures Run(DoUnasked, s, WRITE_DOWN) == s.(sleepTime := Some(d), mtx := Free, caller := Idle)
  {
    RunPrefixes(DoUnasked, s, WRITE_DOWN);
    assert Run(DoUnasked, s, WRITE_DOWN[..0 + 1]) == s.(caller := Write(d));
    assert Run(DoUnasked, s, WRITE_DOWN[..1 + 1]) == s.(caller := Unlock(d), sleepTime := Some(d));
    assert Run(DoUnasked, s, WRITE_DOWN[..2 + 1]) == DoUnasked(Run(DoUnasked, s, WRITE_DOWN[..2]), CallerStep);
  }

  lemma StartsAgain(s: State, e: Duration)
    requires s.code == 1 && s.caller == Lock(e) && s.mtx.Free? && s.timer.LockMtx?
    ensures Run(DoUnasked, s, AGAIN) == s.(sleepTime := Some(e), caller := Idle, timer := Sleeping(Some(e)), inCv := true)
  {
    var q := AGAIN;
    RunPrefixes(DoUnasked, s, q);
    assert Run(DoUnasked, s, q[..0 + 1]) == s.(caller := Poll(e), mtx := Caller);
    assert Run(DoUnasked, s, q[..1 + 1]) == s.(caller := Write(e), mtx := Caller);
    assert Run(DoUnasked, s, q[..2 + 1]) == s.(caller := Unlock(e), mtx := Caller, sleepTime := Some(e));
    assert Run(DoUnasked, s, q[..3 + 1]) == s.(caller := Idle, sleepTime := Some(e));
    assert Run(DoUnasked, s, q[..4 + 1]) == s.(caller := Idle, sleepTime := Some(e), mtx := Timer, timer := UnlockMtx);
    assert Run(DoUnasked, s, q[..5 + 1]) == s.(caller := Idle, sleepTime := Some(e), timer := SleepFor);
    assert Run(DoUnasked, s, q[..6 + 1]) == DoUnasked(Run(DoUnasked, s, q[..6]), TimerStep);
  }

  /** The second call overwrites the duration before the timer has read it. */
  lemma UnaskedStartChangesTheSleep(init: State, d: Duration, e: Duration)
    requires Init(init)
    ensures var s := Run(DoUnasked, init, StartedTwice(d, e));
            s.timer == Sleeping(Some(e)) && s.wokenBy == Some(d)
  {
    var s0 := init.(caller := Lock(d));
    RunSnoc(DoUnasked, init, [], Ask(d));
    assert [] + [Ask(d)] == [Ask(d)];
    WakesUp(s0, d);
    RunConcat(DoUnasked, init, [Ask(d)], WAKE_UP);
    WritesDown(Run(DoUnasked, s0, WAKE_UP), d);
    RunConcat(DoUnasked, init, [Ask(d)] + WAKE_UP, WRITE_DOWN);
    RunSnoc(DoUnasked, init, [Ask(d)] + WAKE_UP + WRITE_DOWN, Ask(e));
    RunConcat(DoUnasked, init, [Ask(d)] + WAKE_UP + WRITE_DOWN + [Ask(e)], AGAIN);
    StartsAgain(Run(DoUnasked, init, [Ask(d)] + WAKE_UP + WRITE_DOWN + [Ask(e)]), e);
  }
}
