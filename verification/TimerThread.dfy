/** The background timer as the source writes it: the timer thread's body, StartTimer, IsSleep
    and the destructor.  A call performs the next operation of the thread in question. */
module TimerThreadObject {
  import opened Options
  import T = BackgroundTimer

  class BackgroundTimer {
    var Mtx: T.Holder
    var Code: nat
    var IsDestroy: bool
    var SleepTime: Option<T.Duration>
    var inCv: bool
    var wokenBy: Option<T.Duration>
    var timer: T.TimerPc
    var caller: T.CallerPc

    function View(): T.State
      reads this
    {
      T.State(Mtx, Code, IsDestroy, SleepTime, inCv, wokenBy, timer, caller)
    }

    ghost predicate Valid()
      reads this
    {
      T.Inv(View())
    }

    constructor ()
      ensures T.Init(View()) && Valid()
    {
      Mtx, Code, IsDestroy, SleepTime, inCv, wokenBy, timer, caller := T.Free, 0, false, None, false, None, T.CheckDestroy, T.Idle;
    }

    /** The body of the timer thread. */
    method ThreadBody()
      requires Valid() && !timer.Ended?
      modifies this
      ensures View() == T.Do(old(View()), T.TimerStep) && Valid()
      // it sleeps as long as whoever woke it has asked, and ends only when it is destroyed
      ensures timer.Sleeping? && wokenBy.Some? ==> timer.length == wokenBy
      ensures timer.Ended? ==> IsDestroy
    {
      T.DoKeepsInv(View(), T.TimerStep);
      match timer {
        case CheckDestroy => timer := if IsDestroy then T.SetTwo else T.Wait;
        case Wait => inCv := true; timer := T.Waiting;
        case Waiting => if !inCv { timer := T.SetOne; }
        case SetOne => Code := 1; timer := T.LockMtx;
        case LockMtx => if Mtx.Free? { Mtx := T.Timer; timer := T.UnlockMtx; }
        case UnlockMtx => Mtx := T.Free; timer := T.SleepFor;
        case SleepFor => inCv := true; timer := T.Sleeping(SleepTime);
        case Sleeping(_) => if !inCv { timer := T.SetZero; }
        case SetZero => Code := 0; timer := T.CheckDestroy;
        case SetTwo => Code := 2; timer := T.Ended;
      }
    }

    method IsSleep() returns (sleeps: bool)
      requires Valid()
      ensures sleeps <==> timer.LockMtx? || timer.UnlockMtx? || timer.SleepFor? || timer.Sleeping? || timer.SetZero?
    {
      sleeps := Code == 1;
    }

    method NotifyOne(why: Option<T.Duration>)
      modifies this`inCv, this`wokenBy
      ensures View() == T.Notified(old(View()), why)
    {
      if timer.Waiting? && inCv { wokenBy := why; }
      inCv := false;
    }

    /** Called by whoever has seen IsSleep return false. */
    method StartTimer(d: T.Duration)
      requires Valid() && (if caller.Idle? then Code != 1 else caller in {T.Lock(d), T.Poll(d), T.NotifyOne(d), T.Write(d), T.Unlock(d)})
      modifies this
      ensures View() == T.Do(old(View()), if old(caller).Idle? then T.Ask(d) else T.CallerStep) && Valid()
      // it returns with the thread awake for it and about to sleep as long as asked
      ensures old(caller).Unlock? ==> timer.LockMtx? && wokenBy == SleepTime == Some(d)
    {
      T.DoKeepsInv(View(), if caller.Idle? then T.Ask(d) else T.CallerStep);
      match caller {
        case Idle => caller := T.Lock(d);
        case Lock(_) => if Mtx.Free? { Mtx := T.Caller; caller := T.Poll(d); }
        case Poll(_) => caller := if Code == 0 then T.NotifyOne(d) else T.Write(d);
        case NotifyOne(_) => NotifyOne(Some(d)); caller := T.Poll(d);
        case Write(_) => SleepTime := Some(d); caller := T.Unlock(d);
        case Unlock(_) => Mtx := T.Free; caller := T.Idle;
      }
    }

    /** The destructor. */
    method Destroy()
      requires Valid() && (caller.Idle? || caller.SetDestroy? || caller.PollEnd? || caller.NotifyEnd? || caller.Join?)
      modifies this
      ensures View() == T.Do(old(View()), if old(caller).Idle? then T.Destroy else T.CallerStep) && Valid()
      // it returns only when the thread has ended
      ensures caller.Done? ==> timer.Ended?
    {
      T.DoKeepsInv(View(), if caller.Idle? then T.Destroy else T.CallerStep);
      match caller {
        case Idle => caller := T.SetDestroy;
        case SetDestroy => IsDestroy := true; caller := T.PollEnd;
        case PollEnd => caller := if Code != 2 then T.NotifyEnd else T.Join;
        case NotifyEnd => NotifyOne(None); caller := T.PollEnd;
        case Join => if timer.Ended? { caller := T.Done; }
      }
    }
  }
}
