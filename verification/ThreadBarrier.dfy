/** The barrier as the source writes it.  A call of `Wait` performs the next operation of
    thread `t`; a thread that sleeps on stays where it is. */
module ThreadBarrierObject {
  import opened Machines
  import opened Options
  import B = Barrier

  class ThreadBarrier {
    var WaitingAmount: int
    var Cv: set<Tid>
    var leader: Option<Tid>
    var pc: map<Tid, B.Pc>
    const amount: nat

    function View(): B.State
      reads this
    {
      B.State(amount, WaitingAmount, Cv, leader, pc)
    }

    ghost predicate Valid()
      reads this
    {
      B.Inv(View())
    }

    constructor (threads: set<Tid>)
      requires threads != {}
      ensures B.Init(View()) && Valid() && pc.Keys == threads
    {
      WaitingAmount, Cv, leader, amount := 0, {}, None, |threads|;
      pc := map t | t in threads :: B.Outside;
      new;
      assert pc.Keys == threads && B.Inside(View()) == {};
      ghost var t :| t in pc;
      assert pc[t].Outside?;
    }

    method Wait(t: Tid)
      requires Valid() && t in pc && !pc[t].Left?
      modifies this
      ensures View() == B.Do(old(View()), if old(pc[t]).Outside? then B.Call(t) else B.Step(t))
      ensures Valid()
      // the leader leaves an empty barrier
      ensures old(pc[t]).Poll? && pc[t].Left? ==> WaitingAmount == 0
      // nobody returns before all have arrived
      ensures pc[t].Left? ==> forall u | u in pc :: !B.NotArrived(pc[u])
    {
      B.DoKeepsInv(View(), if pc[t].Outside? then B.Call(t) else B.Step(t));
      match pc[t] {
        case Outside => pc := pc[t := B.Add];
        case Add => WaitingAmount := WaitingAmount + 1; pc := pc[t := B.Elect];
        case Elect =>
          if WaitingAmount == amount { WaitingAmount := amount - 1; leader := Some(t); pc := pc[t := B.Poll]; }
          else { pc := pc[t := B.Wait]; }
        case Wait => Cv := Cv + {t}; pc := pc[t := B.Asleep];
        case Asleep => if t !in Cv { pc := pc[t := B.Sub]; }
        case Sub => WaitingAmount := WaitingAmount - 1; pc := pc[t := B.Left];
        case Poll => if WaitingAmount != 0 { pc := pc[t := B.Notify]; } else { pc := pc[t := B.Left]; }
        case Notify => Cv := {}; pc := pc[t := B.Poll];
      }
    }
  }
}
