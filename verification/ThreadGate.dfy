/** The gate as the source writes it.  A call of a method performs the next operation of
    thread `t` inside that member function; a blocked operation changes nothing. */
module ThreadGateObject {
  import opened Machines
  import opened Options
  import opened Gate

  class TimeThreadGate {
    var mtx: Option<Tid>
    var condVarMutex: Option<Tid>
    var lockMutex: Option<Tid>
    var IsActivated: bool
    var cv: set<Tid>
    var timed: bool
    var pc: map<Tid, Pc>

    function View(): Gate
      reads this
    {
      Gate(mtx, condVarMutex, lockMutex, IsActivated, cv, timed, pc)
    }

    /** With `c` as the only closer. */
    ghost predicate Valid(c: Tid)
      reads this
    {
      Inv(View(), c)
    }

    constructor (threads: set<Tid>)
      ensures Init(View()) && pc.Keys == threads
      ensures forall c | c in threads :: Valid(c)
    {
      mtx, condVarMutex, lockMutex, IsActivated, cv, timed := None, None, None, true, {}, false;
      pc := map t | t in threads :: Idle;
      new;
      assert forall c | c in threads :: Valid(c);
    }

    /** Close, CloseFor and CloseUntil, which differ in the way they wait. */
    method Close(c: Tid, kind: Kind)
      requires Valid(c) && (pc[c].Idle? || Closing(pc[c]))
      modifies this
      ensures View() == Do(old(View()), if old(pc[c]).Idle? then CallClose(c, kind) else Step(c))
      ensures Valid(c)
      // closing never opens the gate, sleeps only with the gate closed, and returns with no mutex held
      ensures old(IsActivated) ==> IsActivated
      ensures Covers(pc[c]) ==> IsActivated
      // a call begun with a limit has one until it returns, and its sleep can expire
      ensures timed == if old(pc[c]).Idle? then kind.ForDuration? || kind.UntilTime? else old(timed)
      ensures c in cv ==> (Possible(View(), Timeout(c)) <==> timed)
      ensures pc[c].Idle? ==> lockMutex == None && mtx != Some(c) && condVarMutex != Some(c)
    {
      DoKeepsInv(View(), c, if pc[c].Idle? then CallClose(c, kind) else Step(c));
      match pc[c] {
        case Idle => timed := kind != Unlimited; pc := pc[c := CloseLk];
        case CloseLk => if lockMutex == None { lockMutex := Some(c); pc := pc[c := CloseMtx]; }
        case CloseMtx => if mtx == None { mtx := Some(c); pc := pc[c := CloseTest]; }
        case CloseTest => if IsActivated { pc := pc[c := CloseCvMtx]; } else { pc := pc[c := CloseArm]; }
        case CloseArm => IsActivated := true; pc := pc[c := CloseUnlock];
        case CloseCvMtx | CloseUnlockMtx | CloseWait | Asleep | CloseReleaseCv | CloseRelock => Sleep(c);
        case CloseUnlock => mtx := None; pc := pc[c := CloseReturn];
        case CloseReturn => lockMutex := None; pc := pc[c := Idle];
      }
    }

    /** The sleep, from the locking of condVarMutex to the locking of mtx. */
    method Sleep(c: Tid)
      requires c in pc
      requires pc[c].CloseCvMtx? || pc[c].CloseUnlockMtx? || pc[c].CloseWait? || pc[c].Asleep? || pc[c].CloseReleaseCv? || pc[c].CloseRelock?
      modifies this`mtx, this`condVarMutex, this`lockMutex, this`cv, this`pc
      ensures View() == Do(old(View()), Step(c))
    {
      match pc[c] {
        case CloseCvMtx => if condVarMutex == None { condVarMutex := Some(c); pc := pc[c := CloseUnlockMtx]; }
        case CloseUnlockMtx => mtx := None; pc := pc[c := CloseWait];
        case CloseWait => cv := cv + {c}; lockMutex := None; pc := pc[c := Asleep];
        case Asleep => if c !in cv && lockMutex == None { lockMutex := Some(c); pc := pc[c := CloseReleaseCv]; }
        case CloseReleaseCv => condVarMutex := None; pc := pc[c := CloseRelock];
        case CloseRelock => if mtx == None { mtx := Some(c); pc := pc[c := CloseUnlock]; }
      }
    }

    method Open(c: Tid, t: Tid)
      requires Valid(c) && t in pc
      requires pc[t].Idle? || pc[t].OpenMtx? || pc[t].OpenTry? || pc[t].OpenClear? || pc[t].OpenRelease?
            || pc[t].Retry? || pc[t].Notify? || pc[t].RetryRelease? || pc[t].OpenReturn?
      modifies this
      ensures View() == Do(old(View()), if old(pc[t]).Idle? then CallOpen(t) else Step(t))
      ensures Valid(c)
      // it leaves the gate open, or ends its loop, only when the closer is not asleep
      ensures old(IsActivated) && !IsActivated ==> !Covers(pc[c])
      ensures old(pc[t]).OpenRelease? || old(pc[t]).RetryRelease? ==> !Covers(pc[c]) && c !in cv
    {
      DoKeepsInv(View(), c, if pc[t].Idle? then CallOpen(t) else Step(t));
      match pc[t] {
        case Idle => pc := pc[t := OpenMtx];
        case OpenMtx => if mtx == None { mtx := Some(t); pc := pc[t := OpenTry]; }
        case OpenTry => if condVarMutex == None { condVarMutex := Some(t); pc := pc[t := OpenClear]; } else { pc := pc[t := Retry]; }
        case OpenClear => IsActivated := false; pc := pc[t := OpenRelease];
        case OpenRelease => condVarMutex := None; pc := pc[t := OpenReturn];
        case Retry | Notify | RetryRelease | OpenReturn => Loop(t);
      }
    }

    method OpenIfClosed(c: Tid, t: Tid)
      requires Valid(c) && t in pc
      requires pc[t].Idle? || pc[t].IfClosedMtx? || pc[t].IfClosedTry? || pc[t].Retry? || pc[t].Notify? || pc[t].RetryRelease? || pc[t].OpenReturn?
      modifies this
      ensures View() == Do(old(View()), if old(pc[t]).Idle? then CallOpenIfClosed(t) else Step(t))
      ensures Valid(c)
      ensures old(IsActivated) ==> IsActivated
      ensures old(pc[t]).RetryRelease? ==> !Covers(pc[c]) && c !in cv
    {
      DoKeepsInv(View(), c, if pc[t].Idle? then CallOpenIfClosed(t) else Step(t));
      match pc[t] {
        case Idle => pc := pc[t := IfClosedMtx];
        case IfClosedMtx | IfClosedTry => LookForSleeper(t);
        case Retry | Notify | RetryRelease | OpenReturn => Loop(t);
      }
    }

    /** The beginning of OpenIfClosed: try_lock tells whether there is a sleeper. */
    method LookForSleeper(t: Tid)
      requires t in pc && (pc[t].IfClosedMtx? || pc[t].IfClosedTry?)
      modifies this`mtx, this`condVarMutex, this`pc
      ensures View() == Do(old(View()), Step(t))
    {
      match pc[t] {
        case IfClosedMtx => if mtx == None { mtx := Some(t); pc := pc[t := IfClosedTry]; }
        case IfClosedTry => if condVarMutex == None { condVarMutex := Some(t); pc := pc[t := RetryRelease]; } else { pc := pc[t := Notify]; }
      }
    }

    /** The notify loop and what follows it, shared by both ways of opening. */
    method Loop(t: Tid)
      requires t in pc && (pc[t].Retry? || pc[t].Notify? || pc[t].RetryRelease? || pc[t].OpenReturn?)
      modifies this`mtx, this`condVarMutex, this`cv, this`pc
      ensures View() == Do(old(View()), Step(t))
    {
      match pc[t] {
        case Retry => if condVarMutex == None { condVarMutex := Some(t); pc := pc[t := RetryRelease]; } else { pc := pc[t := Notify]; }
        case Notify => cv := {}; pc := pc[t := Retry];
        case RetryRelease => condVarMutex := None; pc := pc[t := OpenReturn];
        case OpenReturn => mtx := None; pc := pc[t := Idle];
      }
    }

    /** The time limit of a sleeping closer expires. */
    method TimeLimitExpires(c: Tid)
      requires Valid(c) && pc[c].Asleep? && c in cv && timed
      modifies this
      ensures View() == Do(old(View()), Timeout(c)) && Valid(c)
      ensures IsActivated && c !in cv
    {
      DoKeepsInv(View(), c, Timeout(c));
      cv := cv - {c};
    }
  }
}
