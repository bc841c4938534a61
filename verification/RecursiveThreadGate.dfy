/** The counting gate as the source writes it.  A call of a method performs the next operation
    of thread `t` inside that member function; a blocked operation changes nothing. */
module RecursiveThreadGateObject {
  import opened Machines
  import opened Options
  import opened RecursiveGate

  class RecursiveThreadGate {
    var mtx: Option<Tid>
    var condVarMutex: Option<Tid>
    var lockMutex: Option<Tid>
    var ClosingAmount: int
    var cv: set<Tid>
    var opens: nat
    var closes: nat
    var pc: map<Tid, Pc>

    function View(): Gate
      reads this
    {
      Gate(mtx, condVarMutex, lockMutex, ClosingAmount, cv, opens, closes, pc)
    }

    /** With `c` as the only closer. */
    ghost predicate Valid(c: Tid)
      reads this
    {
      Inv(View(), c)
    }

    constructor (threads: set<Tid>)
      ensures Init(View()) && pc.Keys == threads
      ensures forall c | c in threads :: Valid(c)
    {
      mtx, condVarMutex, lockMutex, ClosingAmount, cv, opens, closes := None, None, None, 0, {}, 0, 0;
      pc := map t | t in threads :: Idle;
      new;
      assert forall c | c in threads :: Valid(c);
    }

    method Close(c: Tid)
      requires Valid(c) && (pc[c].Idle? || Closing(pc[c]))
      modifies this
      ensures View() == Do(old(View()), if old(pc[c]).Idle? then CallClose(c) else Step(c))
      ensures Valid(c)
      // it takes only what is there, goes to sleep only when nothing is, and settles the account
      ensures 0 <= ClosingAmount <= old(ClosingAmount)
      ensures old(pc[c]).CloseUnlockMtx? ==> ClosingAmount == 0
      ensures old(pc[c]).CloseUnlock? ==> ClosingAmount == opens - closes
    {
      DoKeepsInv(View(), c, if pc[c].Idle? then CallClose(c) else Step(c));
      match pc[c] {
        case Idle => pc := pc[c := CloseLk];
        case CloseLk => if lockMutex == None { lockMutex := Some(c); pc := pc[c := CloseMtx]; }
        case CloseMtx => if mtx == None { mtx := Some(c); pc := pc[c := CloseTest]; }
        case CloseTest => if ClosingAmount <= 0 { pc := pc[c := CloseCvMtx]; } else { pc := pc[c := CloseTake]; }
        case CloseCvMtx => if condVarMutex == None { condVarMutex := Some(c); pc := pc[c := CloseUnlockMtx]; }
        case CloseUnlockMtx => mtx := None; pc := pc[c := CloseWait];
        case CloseWait => cv := cv + {c}; lockMutex := None; pc := pc[c := Asleep];
        case Asleep => if c !in cv && lockMutex == None { lockMutex := Some(c); pc := pc[c := CloseReleaseCv]; }
        case CloseReleaseCv => condVarMutex := None; pc := pc[c := CloseRelock];
        case CloseRelock => if mtx == None { mtx := Some(c); pc := pc[c := CloseTake]; }
        case CloseTake => ClosingAmount := ClosingAmount - 1; pc := pc[c := CloseUnlock];
        case CloseUnlock => mtx := None; closes := closes + 1; pc := pc[c := CloseReturn];
        case CloseReturn => lockMutex := None; pc := pc[c := Idle];
      }
    }

    method Open(c: Tid, t: Tid)
      requires Valid(c) && t in pc && (pc[t].Idle? || !Closing(pc[t]))
      modifies this
      ensures View() == Do(old(View()), if old(pc[t]).Idle? then CallOpen(t) else Step(t))
      ensures Valid(c)
      // a sleeping closer is out of the way before the amount grows
      ensures old(ClosingAmount) <= ClosingAmount <= old(ClosingAmount) + 1
      ensures old(ClosingAmount) < ClosingAmount ==> !Covers(pc[c])
      ensures old(pc[t]).OpenReturn? ==> ClosingAmount == opens - closes
    {
      DoKeepsInv(View(), c, if pc[t].Idle? then CallOpen(t) else Step(t));
      match pc[t] {
        case Idle => pc := pc[t := OpenMtx];
        case OpenMtx => if mtx == None { mtx := Some(t); pc := pc[t := OpenTry]; }
        case OpenTry => if condVarMutex == None { condVarMutex := Some(t); pc := pc[t := OpenRelease]; } else { pc := pc[t := Retry]; }
        case OpenRelease => condVarMutex := None; pc := pc[t := OpenCount];
        case Retry => if condVarMutex == None { condVarMutex := Some(t); pc := pc[t := RetryRelease]; } else { pc := pc[t := Notify]; }
        case Notify => cv := {}; pc := pc[t := Retry];
        case RetryRelease => condVarMutex := None; pc := pc[t := OpenCount];
        case OpenCount => ClosingAmount := ClosingAmount + 1; pc := pc[t := OpenReturn];
        case OpenReturn => mtx := None; opens := opens + 1; pc := pc[t := Idle];
      }
    }
  }
}
