/** One worker thread of the UDP server with the lists, mutex and gate it shares with the
    receiver, updated in place. */
module UdpWorkerObject {
  import opened Options
  import opened GateSpec
  import opened UdpServer

  /** What is popped is there, and is what the handler was given last. */
  lemma AtThePops(w: Worker, p: ReceiverPc)
    requires MutexOk(w, p) && ListsOk(w, p) && LogOk(w) && SeenOk(w)
    ensures w.pc.PopMessage? ==> w.messages != [] && w.log != [] && w.log[|w.log| - 1].message == Some(w.messages[0])
    ensures w.pc.PopAddress? ==> w.addresses != [] && |w.addresses| - 1 == |w.messages| - AddressDue(p)
    ensures w.pc.PopTime? ==> w.times != [] && |w.times| - 1 == |w.messages| - TimeDue(p)
  {
    if w.pc.PopMessage? { assert Reads(w.log[w.popped], w.pushed, w.popped); }
  }

  /** What the step reads is the field of the entry that is next for the handler; a time or an
      address is missing exactly where the receiver is still pushing that entry. */
  predicate ReadMeans(w: Worker, w': Worker, p: ReceiverPc) {
    var k := |w.log|;
    if w.pc.ReadTime? then
      && k < |w.pushed.times|
      && w'.seen == w.seen.(time := if TimeMissing(w, p) then None else Some(w.pushed.times[k]))
    else if w.pc.ReadMessage? then
      k < |w.pushed.messages| && w'.seen == w.seen.(message := Some(w.pushed.messages[k]))
    else if w.pc.ReadAddress? then
      && k < |w.pushed.addresses|
      && w'.seen == w.seen.(address := if AddressMissing(w, p) then None else Some(w.pushed.addresses[k]))
    else w'.seen == w.seen
  }

  lemma ReadIsMeant(w: Worker, p: ReceiverPc, sd: bool, n: nat)
    requires MutexOk(w, p) && ListsOk(w, p) && LogOk(w) && SeenOk(w) && WorkerEnabled(w)
    ensures ReadMeans(w, Work(w, sd, n), p)
  {
    if w.pc.ReadTime? || w.pc.ReadMessage? || w.pc.ReadAddress? { ReadsMean(w, p); }
  }

  /** What the worker's step means for its log, its lists and its sleep. */
  predicate WorkMeans(w: Worker, w': Worker, p: ReceiverPc, sd: bool) {
    && ReadMeans(w, w', p)
    && (if w.pc.Handle? then w'.log == w.log + [w.seen] && Reads(w.seen, w.pushed, |w.log|) else w'.log == w.log)
    && w'.pushed == w.pushed
    && (w.pc.PopMessage? ==> w.messages != [] && w.log != [] && w.log[|w.log| - 1].message == Some(w.messages[0]))
    && (w.pc.PopAddress? ==> w.addresses != [] && |w'.addresses| == |w'.messages| - AddressDue(p))
    && (w.pc.PopTime? ==> w.times != [] && |w'.times| == |w'.messages| - TimeDue(p))
    && (w.pc.Close? && w'.pc.Blocked? ==> !w.released && (w'.messages != [] ==> OpenPending(p)))
    && (w'.pc.Returned? ==> sd)
  }

  lemma WorkIsMeant(w: Worker, p: ReceiverPc, e: Entry, sd: bool, n: nat)
    requires WorkerOk(w, p, e, sd) && WorkerEnabled(w)
    ensures WorkMeans(w, Work(w, sd, n), p, sd)
  {
    AtThePops(w, p);
    ReadIsMeant(w, p, sd, n);
    if w.pc.Handle? { AtTheCall(w); }
    if w.pc.Close? { AtTheClose(w, p, sd); }
  }

  lemma AtTheCall(w: Worker)
    requires LogOk(w) && SeenOk(w) && w.pc.Handle?
    ensures Reads(w.seen, w.pushed, |w.log|)
  {}

  lemma AtTheClose(w: Worker, p: ReceiverPc, sd: bool)
    requires WakeOk(w, p) && ReleaseOk(w, sd) && w.pc.Close?
    ensures w.gate.signaled || (!w.released && (w.messages != [] ==> OpenPending(p)))
  {}

  lemma AtTheLastPush(w: Worker, r: Receiver)
    requires r.pc.PushTime? && MutexOk(w, r.pc) && ListsOk(w, r.pc) && EntryOk(w, r.pc, r.entry)
    ensures |w.addresses| == |w.times| + 1 == |w.messages| && w.addresses[|w.addresses| - 1] == r.entry.address
  {}

  lemma NewWorkerIsOk(w: Worker, e: Entry)
    requires InitWorker(w)
    ensures WorkerOk(w, Recv, e, false)
  {}

  class UdpWorker {
    var pc: Pc
    var Mutex: Holder
    var QueueMessage: seq<string>
    var QueueAddr: seq<string>
    var QueueTime: seq<int>
    var Gate: Event
    var seen: Seen
    var log: seq<Seen>
    var pushed: Pushed
    var popped: nat
    var released: bool

    function View(): Worker
      reads this
    {
      Worker(pc, Mutex, QueueMessage, QueueAddr, QueueTime, Gate, seen, log, pushed, popped, released)
    }

    /** `receiver` tells what the receiver is doing to this worker, with which entry. */
    ghost predicate Valid(receiver: ReceiverPc, entry: Entry, isShutdown: bool)
      reads this
    {
      WorkerOk(View(), receiver, entry, isShutdown)
    }

    constructor ()
      ensures InitWorker(View())
      ensures forall entry: Entry :: Valid(Recv, entry, false)
    {
      pc, Mutex, QueueMessage, QueueAddr, QueueTime := Top, Free, [], [], [];
      Gate, seen, log, pushed, popped, released := Event(false, false), Seen(None, None, None), [], Pushed([], [], []), 0, false;
      new;
      forall entry: Entry ensures WorkerOk(View(), Recv, entry, false) { NewWorkerIsOk(View(), entry); }
    }

    method NextOperation(isShutdown: bool, threadAmount: nat)
      requires WorkerEnabled(View())
      modifies this
      ensures View() == Work(old(View()), isShutdown, threadAmount)
    {
      match pc {
        case Top => if isShutdown { pc := Returned; } else { pc := Check; }
        case Check => if QueueMessage == [] { pc := Close; } else { pc := ReadTime; }
        case ReadTime => seen := seen.(time := Front(QueueTime)); pc := ReadMessage;
        case ReadMessage => seen := seen.(message := Front(QueueMessage)); pc := ReadAddress;
        case ReadAddress => seen := seen.(address := Front(QueueAddr)); pc := Handle;
        case Handle => log := log + [seen]; pc := LockMutex;
        case ShutStore => pc := ShutOpen(0);
        case ShutOpen(k) => if k < threadAmount { pc := ShutOpen(k + 1); } else { pc := LockMutex; }
        case LockMutex => Mutex := ByWorker; pc := PopMessage;
        case PopMessage => QueueMessage := Tail(QueueMessage); popped := popped + 1; pc := PopAddress;
        case PopAddress => QueueAddr := Tail(QueueAddr); pc := PopTime;
        case PopTime => QueueTime := Tail(QueueTime); pc := UnlockMutex;
        case UnlockMutex => Mutex := Free; pc := Check;
        case Close =>
          if Gate.signaled { Gate := Gate.(signaled := false); pc := Top; }
          else { Gate := Gate.(waiting := true); pc := Blocked; }
        case Blocked => pc := Top;
      }
    }

    /** The next operation of ThreadListHandler; what it does to other workers or to the flag
        is left to the caller. */
    method ThreadListHandler(isShutdown: bool, threadAmount: nat, ghost receiver: ReceiverPc, ghost entry: Entry)
      requires Valid(receiver, entry, isShutdown) && WorkerEnabled(View()) && (pc.ShutStore? ==> isShutdown)
      modifies this
      ensures View() == Work(old(View()), isShutdown, threadAmount) && Valid(receiver, entry, isShutdown)
      ensures WorkMeans(old(View()), View(), receiver, isShutdown)
    {
      WorkKeeps(View(), receiver, entry, isShutdown, threadAmount);
      WorkIsMeant(View(), receiver, entry, isShutdown, threadAmount);
      NextOperation(isShutdown, threadAmount);
    }

    /** The next operation of the dispatch loop of Run on the chosen worker. */
    method Dispatch(r: Receiver, ghost isShutdown: bool)
      requires ReceiverEnabled(r, View()) && Valid(Active(r.pc), r.entry, isShutdown)
      modifies this
      ensures View() == Deliver(r, old(View())) && Valid(Active(NextReceiverPc(r.pc)), r.entry, isShutdown)
      ensures pc == old(pc) && log == old(log) && seen == old(seen) && popped == old(popped)
      // the entry arrives whole: after the third push the lists are as long as each other
      ensures r.pc.PushMessage? ==> pushed == old(pushed).Add(r.entry)
      ensures r.pc.PushTime? ==> |QueueAddr| == |QueueTime| == |QueueMessage|
      ensures r.pc.PushTime? ==> QueueAddr != [] && QueueAddr[|QueueAddr| - 1] == r.entry.address
      ensures r.pc.PushTime? ==> QueueTime[|QueueTime| - 1] == r.entry.time
      // whoever was asleep is awake after the Open
      ensures r.pc.Open? ==> !Gate.waiting && (pc.Close? && QueueMessage != [] ==> Gate.signaled)
    {
      ghost var w := View();
      DeliverKeeps(w, r, isShutdown);
      if r.pc.PushTime? { AtTheLastPush(w, r); }
      match r.pc {
        case Lock => Mutex := ByReceiver;
        case PushMessage => QueueMessage := QueueMessage + [r.entry.message]; pushed := pushed.Add(r.entry);
        case PushAddress => QueueAddr := QueueAddr + [r.entry.address];
        case PushTime => QueueTime := QueueTime + [r.entry.time];
        case Unlock => Mutex := Free;
        case Open => if Gate.waiting { Gate := Gate.(waiting := false); } else { Gate := Gate.(signaled := true); }
      }
    }

    /** The handler, called with what was read, calls Shutdown. */
    method HandlerShutsDown(ghost isShutdown: bool, ghost receiver: ReceiverPc, ghost entry: Entry)
      requires Valid(receiver, entry, isShutdown) && pc.Handle?
      modifies this
      ensures View() == CallsShutdown(old(View())) && Valid(receiver, entry, isShutdown)
      ensures |log| == |old(log)| + 1 && log[..|old(log)|] == old(log) && Reads(log[|old(log)|], pushed, |old(log)|)
    {
      CallKeeps(View(), receiver, entry, isShutdown);
      log := log + [seen];
      pc := ShutStore;
    }

    /** Shutdown, having set the flag, opens this worker's gate. */
    method ShutdownOpens(ghost receiver: ReceiverPc, ghost entry: Entry)
      requires Valid(receiver, entry, true)
      modifies this
      ensures View() == Released(old(View())) && Valid(receiver, entry, true)
      ensures released && (WorkerEnabled(View()) || pc.LockMutex? || pc.Returned?)
    {
      ReleasedKeeps(View(), receiver, entry);
      if Gate.waiting { Gate := Gate.(waiting := false); } else { Gate := Gate.(signaled := true); }
      released := true;
    }
  }

  /** The receiver's choice: the first of the shortest queues, as it measured them. */
  method IndexMinQueue(sizes: seq<nat>) returns (index: nat)
    requires sizes != []
    ensures index < |sizes|
    ensures forall j | 0 <= j < |sizes| :: sizes[index] <= sizes[j]
    ensures forall j | 0 <= j < index :: sizes[index] < sizes[j]
  {
    index := 0;
    for i := 1 to |sizes|
      invariant index < i
      invariant forall j | 0 <= j < i :: sizes[index] <= sizes[j]
      invariant forall j | 0 <= j < index :: sizes[index] < sizes[j]
    {
      if sizes[i] < sizes[index] {
        index := i;
      }
    }
  }
}
