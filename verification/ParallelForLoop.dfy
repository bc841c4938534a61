/** The parallel loop as the source writes it: `operator()` and the function of its workers.  A
    call performs the next operation of the thread in question. */
module ParallelForObject {
  import opened Options
  import P = ParallelFor

  class ParallelFor {
    var Pos: int
    const start: int
    const End: int
    var StepMutex: Option<nat>
    var ThreadFinishingMutex: Option<nat>
    var EndedThreads: int
    var workers: seq<P.Worker>
    var op: P.OpPc
    var done: multiset<int>
    var notified: bool

    function View(): P.State
      reads this
    {
      P.State(Pos, start, End, StepMutex, ThreadFinishingMutex, EndedThreads, workers, op, done, notified)
    }

    ghost predicate Valid()
      reads this
    {
      P.Inv(View())
    }

    constructor (start: int, end: int, threadAmount: nat)
      requires start <= end
      ensures P.Init(View()) && Valid() && |workers| == threadAmount && this.start == start && End == end
    {
      this.start, End, Pos, StepMutex, ThreadFinishingMutex, EndedThreads := start, end, start, None, None, 0;
      workers := seq(threadAmount, _ => P.Worker(P.NotSpawned, start));
      op, done, notified := P.Spawning(0), multiset{}, false;
      new;
    }

    /** `operator()`: create the threads, then wait. */
    method Operator()
      requires Valid() && !op.Returned?
      modifies this
      ensures View() == P.Do(old(View()), P.OpStep) && Valid()
      // it returns with the body done once for every position and for no other
      ensures op.Returned? ==> forall q :: done[q] == if start <= q < End then 1 else 0
    {
      P.DoKeepsInv(View(), P.OpStep);
      forall q { P.ReturnedMeansDoneOnce(P.Do(View(), P.OpStep), q); }
      match op {
        case Spawning(i) =>
          if i < |workers| {
            workers := workers[i := P.Worker(P.LockStep, workers[i].local)];
            op := P.Spawning(i + 1);
          } else {
            op := P.StartWait;
          }
        case StartWait => op := P.Asleep;
        case Asleep =>
        case Woken => op := P.Returned;
      }
    }

    method ThreadFunc(k: nat)
      requires Valid() && k < |workers| && !workers[k].pc.NotSpawned? && !workers[k].pc.Exited?
      modifies this
      ensures View() == P.Do(old(View()), P.WorkerStep(k)) && Valid()
      // the body is run for a position that it was not run for, and the last worker notifies
      ensures old(workers[k].pc).Body? ==> start <= workers[k].local < Pos && old(done)[workers[k].local] == 0 && done[workers[k].local] == 1
      ensures old(workers[k].pc).Notify? ==> EndedThreads == |workers|
      ensures workers[k].pc.Exited? ==> Pos == End
    {
      P.DoKeepsInv(View(), P.WorkerStep(k));
      var p := workers[k].pc;
      if p.LockStep? || p.ReadPos? || p.TestPos? || p.Increment? || p.UnlockStep? || p.Body? {
        NextPosition(k);
      } else if p.LockFinishing? || p.CountEnd? || p.UnlockStepAtEnd? {
        CountAsEnded(k);
      } else {
        NotifyIfLast(k);
      }
    }

    /** Take the next position under StepMutex and run the body for it. */
    method NextPosition(k: nat)
      requires k < |workers|
      requires var p := workers[k].pc; p.LockStep? || p.ReadPos? || p.TestPos? || p.Increment? || p.UnlockStep? || p.Body?
      modifies this`StepMutex, this`workers, this`Pos, this`done
      ensures View() == P.Do(old(View()), P.WorkerStep(k))
    {
      var w := workers[k];
      match w.pc {
        case LockStep => if StepMutex == None { StepMutex := Some(k); Go(k, P.ReadPos); }
        case ReadPos => workers := workers[k := P.Worker(P.TestPos, Pos)];
        case TestPos => Go(k, if Pos != End then P.Increment else P.LockFinishing);
        case Increment => Pos := Pos + 1; Go(k, P.UnlockStep);
        case UnlockStep => StepMutex := None; Go(k, P.Body);
        case Body => done := done + multiset{w.local}; Go(k, P.LockStep);
      }
    }

    /** There was no position left: count the thread as ended. */
    method CountAsEnded(k: nat)
      requires k < |workers| && (workers[k].pc.LockFinishing? || workers[k].pc.CountEnd? || workers[k].pc.UnlockStepAtEnd?)
      modifies this`StepMutex, this`ThreadFinishingMutex, this`EndedThreads, this`workers
      ensures View() == P.Do(old(View()), P.WorkerStep(k))
    {
      var w := workers[k];
      match w.pc {
        case LockFinishing => if ThreadFinishingMutex == None { ThreadFinishingMutex := Some(k); Go(k, P.CountEnd); }
        case CountEnd => EndedThreads := EndedThreads + 1; Go(k, P.UnlockStepAtEnd);
        case UnlockStepAtEnd => StepMutex := None; Go(k, P.TestEnded);
      }
    }

    /** The last to be counted notifies. */
    method NotifyIfLast(k: nat)
      requires k < |workers| && (workers[k].pc.TestEnded? || workers[k].pc.Notify? || workers[k].pc.UnlockFinishing?)
      modifies this`ThreadFinishingMutex, this`workers, this`op, this`notified
      ensures View() == P.Do(old(View()), P.WorkerStep(k))
    {
      var w := workers[k];
      match w.pc {
        case TestEnded => if EndedThreads >= |workers| { Go(k, P.Notify); } else { Go(k, P.UnlockFinishing); }
        case Notify => NotifyAll(); Go(k, P.UnlockFinishing);
        case UnlockFinishing => ThreadFinishingMutex := None; Go(k, P.Exited);
      }
    }

    method NotifyAll()
      modifies this`op, this`notified
      ensures notified && op == if old(op).Asleep? then P.Woken else old(op)
    {
      if op.Asleep? { op := P.Woken; }
      notified := true;
    }

    method Go(k: nat, next: P.Pc)
      requires k < |workers|
      modifies this`workers
      ensures workers == old(workers)[k := P.Worker(next, old(workers)[k].local)]
    {
      workers := workers[k := P.Worker(next, workers[k].local)];
    }
  }
}
