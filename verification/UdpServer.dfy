/** EN_UDP_Server in Queue mode: one receiver, any number of workers, callers of Shutdown.

    Each worker has three parallel lists, a mutex and a gate.  The gate is the event that
    `GateTheorems` shows EN_ThreadGate to be.  The worker reads its lists without the mutex,
    as the source does: reading the front of an empty list gives `None`. */
module UdpServer {
  import opened Machines
  import opened Options
  import opened GateSpec

  datatype Entry = Entry(message: string, address: string, time: int)

  /** What the handler is given; `None` where the worker read the front of an empty list. */
  datatype Seen = Seen(time: Option<int>, message: Option<string>, address: Option<string>)

  datatype Pc =
    | Top                                              // if (IsShutdown) return
    | Check                                            // while (!QueueMessageVec->empty())
    | ReadTime | ReadMessage | ReadAddress | Handle
    | ShutStore | ShutOpen(next: nat)                  // the handler called Shutdown
    | LockMutex | PopMessage | PopAddress | PopTime | UnlockMutex
    | Close | Blocked
    | Returned

  datatype Holder = Free | ByWorker | ByReceiver

  /** Every entry whose message was pushed, in order. */
  datatype Pushed = Pushed(messages: seq<string>, addresses: seq<string>, times: seq<int>) {
    function Add(e: Entry): Pushed {
      Pushed(messages + [e.message], addresses + [e.address], times + [e.time])
    }
  }

  /** `pushed` and `popped` only record what happened, `popped` counting messages; `released`
      tells that a Shutdown has opened this gate. */
  datatype Worker = Worker(
    pc: Pc,
    mutex: Holder,
    messages: seq<string>,
    addresses: seq<string>,
    times: seq<int>,
    gate: Event,
    seen: Seen,
    log: seq<Seen>,
    pushed: Pushed,
    popped: nat,
    released: bool)

  datatype ReceiverPc =
    | Recv | Test | Instant | Select
    | Lock | PushMessage | PushAddress | PushTime | Unlock | Open
    | Done

  datatype Receiver = Receiver(pc: ReceiverPc, entry: Entry, received: bool, target: nat)

  datatype State = State(workers: seq<Worker>, r: Receiver, isShutdown: bool)

  datatype Action =
    | WorkerStep(i: nat)
    | HandlerShutsDown(i: nat)          // the user's handler calls Shutdown
    | Datagram(entry: Entry) | RecvFails
    | InstantRejects                    // InstantClientMessageHandler returned false
    | Choose(i: nat)                    // the queue that looked shortest
    | ReceiverStep
    | ShutdownStores | ShutdownOpens(i: nat)   // Shutdown called by any other thread

  function Front<T>(q: seq<T>): Option<T> { if q == [] then None else Some(q[0]) }

  function Tail<T>(q: seq<T>): seq<T> { if q == [] then [] else q[1..] }

  predicate Init(s: State) {
    && s.r.pc.Recv? && !s.isShutdown
    && forall i | 0 <= i < |s.workers| :: InitWorker(s.workers[i])
  }

  predicate InitWorker(w: Worker) {
    && w.pc.Top? && w.mutex.Free? && w.messages == [] && w.addresses == [] && w.times == []
    && w.gate == Event(false, false) && w.log == [] && w.pushed == Pushed([], [], []) && w.popped == 0 && !w.released
  }

  predicate WorkerEnabled(w: Worker) {
    match w.pc
    case LockMutex => w.mutex.Free?
    case Blocked => !w.gate.waiting
    case Returned => false
    case _ => true
  }

  /** Where ThreadListHandler goes next; `n` is the number of workers. */
  function NextPc(w: Worker, isShutdown: bool, n: nat): Pc {
    match w.pc
    case Top => if isShutdown then Returned else Check
    case Check => if w.messages == [] then Close else ReadTime
    case ReadTime => ReadMessage
    case ReadMessage => ReadAddress
    case ReadAddress => Handle
    case Handle => LockMutex
    case ShutStore => ShutOpen(0)
    case ShutOpen(k) => if k < n then ShutOpen(k + 1) else LockMutex
    case LockMutex => PopMessage
    case PopMessage => PopAddress
    case PopAddress => PopTime
    case PopTime => UnlockMutex
    case UnlockMutex => Check
    case Close => if w.gate.signaled then Top else Blocked
    case Blocked => Top
    case Returned => Returned
  }

  /** What the step does to the worker's own lists, mutex, gate and log. */
  function Effect(w: Worker): Worker {
    match w.pc
    case ReadTime => w.(seen := w.seen.(time := Front(w.times)))
    case ReadMessage => w.(seen := w.seen.(message := Front(w.messages)))
    case ReadAddress => w.(seen := w.seen.(address := Front(w.addresses)))
    case Handle => w.(log := w.log + [w.seen])
    case LockMutex => w.(mutex := ByWorker)
    case PopMessage => w.(messages := Tail(w.messages), popped := w.popped + 1)
    case PopAddress => w.(addresses := Tail(w.addresses))
    case PopTime => w.(times := Tail(w.times))
    case UnlockMutex => w.(mutex := Free)
    case Close => w.(gate := Apply(Wait, w.gate))
    case _ => w
  }

  function Work(w: Worker, isShutdown: bool, n: nat): Worker
    requires WorkerEnabled(w)
  {
    Effect(w).(pc := NextPc(w, isShutdown, n))
  }

  /** The handler is given what was read, and calls Shutdown. */
  function CallsShutdown(w: Worker): Worker { w.(log := w.log + [w.seen], pc := ShutStore) }

  /** Shutdown opens a gate. */
  function Released(w: Worker): Worker {
    w.(gate := Apply(Set, w.gate), released := true)
  }

  predicate ReceiverEnabled(r: Receiver, w: Worker) {
    r.pc.PushMessage? || r.pc.PushAddress? || r.pc.PushTime? || r.pc.Unlock? || r.pc.Open? || (r.pc.Lock? && w.mutex.Free?)
  }

  /** The receiver's step at the worker it chose. */
  function Deliver(r: Receiver, w: Worker): Worker
    requires ReceiverEnabled(r, w)
  {
    match r.pc
    case Lock => w.(mutex := ByReceiver)
    case PushMessage => w.(messages := w.messages + [r.entry.message], pushed := w.pushed.Add(r.entry))
    case PushAddress => w.(addresses := w.addresses + [r.entry.address])
    case PushTime => w.(times := w.times + [r.entry.time])
    case Unlock => w.(mutex := Free)
    case Open => w.(gate := Apply(Set, w.gate))
    case _ => w
  }

  function NextReceiverPc(p: ReceiverPc): ReceiverPc {
    match p
    case Lock => PushMessage
    case PushMessage => PushAddress
    case PushAddress => PushTime
    case PushTime => Unlock
    case Unlock => Open
    case Open => Recv
    case _ => p
  }

  function Worked(s: State, i: nat): State
    requires i < |s.workers| && WorkerEnabled(s.workers[i])
  {
    s.(workers := s.workers[i := Work(s.workers[i], s.isShutdown, |s.workers|)])
  }

  function Opened(s: State, k: nat): State
    requires k < |s.workers|
  {
    s.(workers := s.workers[k := Released(s.workers[k])])
  }

  function Do(s: State, a: Action): State {
    match a
    case WorkerStep(i) =>
      if i < |s.workers| && WorkerEnabled(s.workers[i]) then
        match s.workers[i].pc
        case ShutStore => Worked(s.(isShutdown := true), i)
        case ShutOpen(k) => if k < |s.workers| then Opened(Worked(s, i), k) else Worked(s, i)
        case _ => Worked(s, i)
      else s
    case HandlerShutsDown(i) =>
      if i < |s.workers| && s.workers[i].pc.Handle? then
        s.(workers := s.workers[i := CallsShutdown(s.workers[i])])
      else s
    case Datagram(entry) => if s.r.pc.Recv? then s.(r := s.r.(pc := Test, entry := entry, received := true)) else s
    case RecvFails => if s.r.pc.Recv? then s.(r := s.r.(pc := Test, received := false)) else s
    case InstantRejects => if s.r.pc.Instant? then s.(r := s.r.(pc := Recv)) else s
    case Choose(i) => if s.r.pc.Select? && i < |s.workers| then s.(r := s.r.(pc := Lock, target := i)) else s
    case ReceiverStep =>
      if s.r.pc.Test? then s.(r := s.r.(pc := if s.isShutdown || !s.r.received then Done else Instant))
      else if s.r.pc.Instant? then s.(r := s.r.(pc := Select))
      else if s.r.target < |s.workers| && ReceiverEnabled(s.r, s.workers[s.r.target]) then
        State(s.workers[s.r.target := Deliver(s.r, s.workers[s.r.target])], s.r.(pc := NextReceiverPc(s.r.pc)), s.isShutdown)
      else s
    case ShutdownStores => s.(isShutdown := true)
    case ShutdownOpens(i) =>
      if s.isShutdown && i < |s.workers| then Opened(s, i) else s
  }

  // ----- the invariant, one worker at a time

  /** From the receiver's lock to its Open; all the rest is `Recv` to a worker. */
  function Active(p: ReceiverPc): ReceiverPc {
    if p.PushMessage? || p.PushAddress? || p.PushTime? || p.Unlock? || p.Open? then p else Recv
  }

  /** Where the receiver is with worker `i`. */
  function Serving(r: Receiver, i: nat): ReceiverPc {
    if r.target == i then Active(r.pc) else Recv
  }

  predicate MutexOk(w: Worker, p: ReceiverPc) {
    && (w.mutex.ByWorker? <==> w.pc.PopMessage? || w.pc.PopAddress? || w.pc.PopTime? || w.pc.UnlockMutex?)
    && (w.mutex.ByReceiver? <==> p.PushMessage? || p.PushAddress? || p.PushTime? || p.Unlock?)
  }

  /** How many entries each end of a list lags behind the message list. */
  function AddressLag(w: Worker): nat { if w.pc.PopAddress? then 1 else 0 }
  function TimeLag(w: Worker): nat { if w.pc.PopAddress? || w.pc.PopTime? then 1 else 0 }
  function AddressDue(p: ReceiverPc): nat { if p.PushAddress? then 1 else 0 }
  function TimeDue(p: ReceiverPc): nat { if p.PushAddress? || p.PushTime? then 1 else 0 }

  /** `list` holds the elements of `whole` from `lo` up to `hi`. */
  predicate Window<T(==)>(list: seq<T>, whole: seq<T>, lo: int, hi: int) {
    0 <= lo <= hi <= |whole| && |list| == hi - lo && forall i | 0 <= i < |list| :: list[i] == whole[lo + i]
  }

  function Count(w: Worker): nat { |w.pushed.messages| }

  predicate MessagesOk(w: Worker) {
    Window(w.messages, w.pushed.messages, w.popped, Count(w))
  }

  predicate AddressesOk(w: Worker, p: ReceiverPc) {
    && |w.pushed.addresses| == Count(w)
    && Window(w.addresses, w.pushed.addresses, w.popped - AddressLag(w), Count(w) - AddressDue(p))
  }

  predicate TimesOk(w: Worker, p: ReceiverPc) {
    && |w.pushed.times| == Count(w)
    && Window(w.times, w.pushed.times, w.popped - TimeLag(w), Count(w) - TimeDue(p))
  }

  predicate ListsOk(w: Worker, p: ReceiverPc) {
    MessagesOk(w) && AddressesOk(w, p) && TimesOk(w, p)
  }

  /** The entry being pushed is the last one whose message was pushed. */
  predicate EntryOk(w: Worker, p: ReceiverPc, e: Entry) {
    p.PushAddress? || p.PushTime? ==>
      && Count(w) > 0 && |w.pushed.addresses| == |w.pushed.times| == Count(w)
      && w.pushed.addresses[Count(w) - 1] == e.address
      && w.pushed.times[Count(w) - 1] == e.time
  }

  /** Between seeing the message list non-empty and popping it. */
  predicate InHand(p: Pc) {
    p.ReadTime? || p.ReadMessage? || p.ReadAddress? || p.Handle? || Handled(p)
  }

  /** The current front has been handled and not popped yet. */
  predicate Handled(p: Pc) {
    p.ShutStore? || p.ShutOpen? || p.LockMutex? || p.PopMessage?
  }

  /** The next entry for the handler is being pushed, and its time is not there yet. */
  predicate TimeMissing(w: Worker, p: ReceiverPc) {
    |w.log| + 1 == Count(w) && (p.PushAddress? || p.PushTime?)
  }

  /** Nor is its address. */
  predicate AddressMissing(w: Worker, p: ReceiverPc) {
    |w.log| + 1 == Count(w) && p.PushAddress?
  }

  predicate Has(q: Pushed, k: nat) { k < |q.messages| && k < |q.addresses| && k < |q.times| }

  /** What was read is the field of the `k`-th entry, unless the list was empty. */
  predicate Reads(seen: Seen, q: Pushed, k: nat) {
    && Has(q, k)
    && seen.message == Some(q.messages[k])
    && (seen.address == None || seen.address == Some(q.addresses[k]))
    && (seen.time == None || seen.time == Some(q.times[k]))
  }

  /** The handler has been given the popped entries, and at most the current front. */
  predicate LogOk(w: Worker) {
    && |w.log| == w.popped + (if Handled(w.pc) then 1 else 0)
    && forall k | 0 <= k < |w.log| :: Reads(w.log[k], w.pushed, k)
  }

  predicate SeenOk(w: Worker) {
    && (InHand(w.pc) ==> w.popped < Count(w) && |w.pushed.addresses| == |w.pushed.times| == Count(w))
    && (w.pc.ReadMessage? || w.pc.ReadAddress? || w.pc.Handle? ==>
          w.seen.time == None || w.seen.time == Some(w.pushed.times[w.popped]))
    && (w.pc.ReadAddress? || w.pc.Handle? ==> w.seen.message == Some(w.pushed.messages[w.popped]))
    && (w.pc.Handle? ==> w.seen.address == None || w.seen.address == Some(w.pushed.addresses[w.popped]))
  }

  /** The receiver has pushed a message and not opened the gate yet. */
  predicate OpenPending(p: ReceiverPc) {
    p.PushAddress? || p.PushTime? || p.Unlock? || p.Open?
  }

  /** A worker that is about to wait, or waits, on a non-empty queue will be woken. */
  predicate WakeOk(w: Worker, p: ReceiverPc) {
    && (w.gate.waiting ==> w.pc.Blocked? && !w.gate.signaled)
    && (w.pc.Close? && w.messages != [] ==> w.gate.signaled || OpenPending(p))
    && (w.pc.Blocked? && w.gate.waiting && w.messages != [] ==> OpenPending(p))
  }

  /** Once Shutdown has opened its gate a worker never waits again. */
  predicate ReleaseOk(w: Worker, isShutdown: bool) {
    && (w.pc.ShutOpen? ==> isShutdown)
    && (w.released ==> isShutdown && (w.gate.signaled || w.pc.Top? || w.pc.Returned? || (w.pc.Blocked? && !w.gate.waiting)))
  }

  predicate WorkerOk(w: Worker, p: ReceiverPc, e: Entry, isShutdown: bool) {
    MutexOk(w, p) && ListsOk(w, p) && EntryOk(w, p, e) && LogOk(w) && SeenOk(w) && WakeOk(w, p) && ReleaseOk(w, isShutdown)
  }

  predicate Inv(s: State) {
    forall i | 0 <= i < |s.workers| :: WorkerOk(s.workers[i], Serving(s.r, i), s.r.entry, s.isShutdown)
  }

  /** A list that stays, or loses its front. */
  lemma WindowMove<T>(list: seq<T>, list': seq<T>, whole: seq<T>, lo: int, lo': int, hi: int)
    requires Window(list, whole, lo, hi)
    requires (list' == list && lo' == lo) || (list' == Tail(list) && lo' == lo + 1 && lo < hi)
    ensures Window(list', whole, lo', hi)
  {
  }

  lemma WindowStays<T>(list: seq<T>, whole: seq<T>, lo: int, hi: int, x: T)
    requires Window(list, whole, lo, hi)
    ensures Window(list, whole + [x], lo, hi)
  {}

  lemma WindowGrows<T>(list: seq<T>, whole: seq<T>, lo: int, x: T)
    requires Window(list, whole, lo, |whole|)
    ensures Window(list + [x], whole + [x], lo, |whole| + 1)
  {}

  lemma WindowFills<T>(list: seq<T>, whole: seq<T>, lo: int, x: T)
    requires whole != [] && whole[|whole| - 1] == x
    requires Window(list, whole, lo, |whole| - 1)
    ensures Window(list + [x], whole, lo, |whole|)
  {}

  lemma WorkKeepsMutex(w: Worker, p: ReceiverPc, sd: bool, n: nat)
    requires MutexOk(w, p) && WorkerEnabled(w)
    ensures MutexOk(Work(w, sd, n), p)
  {
  }

  /** Each list stays or loses its front, in step with its lag. */
  predicate Pops(w: Worker, w': Worker) {
    && w'.pushed == w.pushed
    && w'.messages == (if w.pc.PopMessage? then Tail(w.messages) else w.messages)
    && w'.addresses == (if w.pc.PopAddress? then Tail(w.addresses) else w.addresses)
    && w'.times == (if w.pc.PopTime? then Tail(w.times) else w.times)
    && w'.popped == w.popped + (if w.pc.PopMessage? then 1 else 0)
    && w'.popped - AddressLag(w') == w.popped - AddressLag(w) + (if w.pc.PopAddress? then 1 else 0)
    && w'.popped - TimeLag(w') == w.popped - TimeLag(w) + (if w.pc.PopTime? then 1 else 0)
  }

  lemma WorkPops(w: Worker, sd: bool, n: nat)
    requires WorkerEnabled(w)
    ensures Pops(w, Work(w, sd, n))
  {
  }

  lemma PopsKeepMessages(w: Worker, w': Worker)
    requires MessagesOk(w) && SeenOk(w) && Pops(w, w')
    ensures MessagesOk(w')
  {
    WindowMove(w.messages, w'.messages, w.pushed.messages, w.popped, w'.popped, Count(w));
  }

  lemma PopsKeepAddresses(w: Worker, w': Worker, p: ReceiverPc)
    requires MutexOk(w, p) && MessagesOk(w) && AddressesOk(w, p) && Pops(w, w')
    ensures AddressesOk(w', p)
  {
    var lo, lo' := w.popped - AddressLag(w), w'.popped - AddressLag(w');
    WindowMove(w.addresses, w'.addresses, w.pushed.addresses, lo, lo', Count(w) - AddressDue(p));
    assert Window(w'.addresses, w'.pushed.addresses, lo', Count(w') - AddressDue(p));
  }

  lemma PopsKeepTimes(w: Worker, w': Worker, p: ReceiverPc)
    requires MutexOk(w, p) && MessagesOk(w) && TimesOk(w, p) && Pops(w, w')
    ensures TimesOk(w', p)
  {
    var lo, lo' := w.popped - TimeLag(w), w'.popped - TimeLag(w');
    WindowMove(w.times, w'.times, w.pushed.times, lo, lo', Count(w) - TimeDue(p));
    assert Window(w'.times, w'.pushed.times, lo', Count(w') - TimeDue(p));
  }

  lemma WorkKeepsSeen(w: Worker, p: ReceiverPc, sd: bool, n: nat)
    requires ListsOk(w, p) && SeenOk(w) && WorkerEnabled(w)
    ensures SeenOk(Work(w, sd, n))
  {
  }

  lemma WorkKeepsLog(w: Worker, sd: bool, n: nat)
    requires LogOk(w) && SeenOk(w) && WorkerEnabled(w)
    ensures LogOk(Work(w, sd, n))
  {
  }

  lemma WorkKeepsWake(w: Worker, p: ReceiverPc, sd: bool, n: nat)
    requires WakeOk(w, p) && ReleaseOk(w, sd) && WorkerEnabled(w) && (w.pc.ShutStore? ==> sd)
    ensures WakeOk(Work(w, sd, n), p) && ReleaseOk(Work(w, sd, n), sd)
  {
  }

  lemma PushMessageKeepsMessages(w: Worker, r: Receiver)
    requires r.pc.PushMessage? && MessagesOk(w)
    ensures MessagesOk(Deliver(r, w)) && EntryPushed(Deliver(r, w), r.entry)
  {
    WindowGrows(w.messages, w.pushed.messages, w.popped, r.entry.message);
  }

  predicate EntryPushed(w: Worker, e: Entry) {
    |w.pushed.messages| > 0 && |w.pushed.addresses| > 0 && |w.pushed.times| > 0
    && w.pushed.addresses[|w.pushed.addresses| - 1] == e.address && w.pushed.times[|w.pushed.times| - 1] == e.time
  }

  lemma PushMessageKeepsAddresses(w: Worker, r: Receiver)
    requires r.pc.PushMessage? && AddressesOk(w, r.pc)
    ensures AddressesOk(Deliver(r, w), PushAddress)
  {
    WindowStays(w.addresses, w.pushed.addresses, w.popped - AddressLag(w), Count(w), r.entry.address);
  }

  lemma PushMessageKeepsTimes(w: Worker, r: Receiver)
    requires r.pc.PushMessage? && TimesOk(w, r.pc)
    ensures TimesOk(Deliver(r, w), PushAddress)
  {
    WindowStays(w.times, w.pushed.times, w.popped - TimeLag(w), Count(w), r.entry.time);
  }

  lemma PushMessageKeeps(w: Worker, r: Receiver)
    requires r.pc.PushMessage? && ListsOk(w, r.pc)
    ensures ListsOk(Deliver(r, w), PushAddress) && EntryOk(Deliver(r, w), PushAddress, r.entry)
  {
    PushMessageKeepsMessages(w, r);
    PushMessageKeepsAddresses(w, r);
    PushMessageKeepsTimes(w, r);
  }

  lemma PushAddressKeeps(w: Worker, r: Receiver)
    requires r.pc.PushAddress? && ListsOk(w, r.pc) && EntryOk(w, r.pc, r.entry)
    ensures ListsOk(Deliver(r, w), PushTime) && EntryOk(Deliver(r, w), PushTime, r.entry)
  {
    WindowFills(w.addresses, w.pushed.addresses, w.popped - AddressLag(w), r.entry.address);
  }

  lemma PushTimeKeeps(w: Worker, r: Receiver)
    requires r.pc.PushTime? && ListsOk(w, r.pc) && EntryOk(w, r.pc, r.entry)
    ensures ListsOk(Deliver(r, w), Unlock) && EntryOk(Deliver(r, w), Unlock, r.entry)
  {
    WindowFills(w.times, w.pushed.times, w.popped - TimeLag(w), r.entry.time);
  }

  lemma DeliverKeepsLists(w: Worker, r: Receiver)
    requires ReceiverEnabled(r, w) && ListsOk(w, Active(r.pc)) && EntryOk(w, r.pc, r.entry)
    ensures ListsOk(Deliver(r, w), Active(NextReceiverPc(r.pc))) && EntryOk(Deliver(r, w), NextReceiverPc(r.pc), r.entry)
  {
    match r.pc
    case PushMessage => PushMessageKeeps(w, r);
    case PushAddress => PushAddressKeeps(w, r);
    case PushTime => PushTimeKeeps(w, r);
    case _ => OtherDeliveriesKeepLists(w, r);
  }

  lemma OtherDeliveriesKeepLists(w: Worker, r: Receiver)
    requires ReceiverEnabled(r, w) && ListsOk(w, Active(r.pc)) && EntryOk(w, r.pc, r.entry)
    requires !r.pc.PushMessage? && !r.pc.PushAddress? && !r.pc.PushTime?
    ensures ListsOk(Deliver(r, w), Active(NextReceiverPc(r.pc))) && EntryOk(Deliver(r, w), NextReceiverPc(r.pc), r.entry)
  {
  }

  lemma DeliverKeepsLog(w: Worker, r: Receiver)
    requires ReceiverEnabled(r, w) && LogOk(w) && SeenOk(w)
    ensures LogOk(Deliver(r, w)) && SeenOk(Deliver(r, w))
  {
  }

  lemma DeliverKeepsWake(w: Worker, r: Receiver, sd: bool)
    requires ReceiverEnabled(r, w) && MutexOk(w, Active(r.pc)) && WakeOk(w, Active(r.pc)) && ReleaseOk(w, sd)
    ensures MutexOk(Deliver(r, w), Active(NextReceiverPc(r.pc)))
    ensures WakeOk(Deliver(r, w), Active(NextReceiverPc(r.pc))) && ReleaseOk(Deliver(r, w), sd)
  {
  }

  lemma WorkKeeps(w: Worker, p: ReceiverPc, e: Entry, sd: bool, n: nat)
    requires WorkerOk(w, p, e, sd) && WorkerEnabled(w) && (w.pc.ShutStore? ==> sd)
    ensures WorkerOk(Work(w, sd, n), p, e, sd)
  {
    var w' := Work(w, sd, n);
    WorkPops(w, sd, n);
    PopsKeepMessages(w, w');
    PopsKeepAddresses(w, w', p);
    PopsKeepTimes(w, w', p);
    WorkKeepsMutex(w, p, sd, n);
    WorkKeepsSeen(w, p, sd, n);
    WorkKeepsLog(w, sd, n);
    WorkKeepsWake(w, p, sd, n);
  }

  lemma DeliverKeeps(w: Worker, r: Receiver, sd: bool)
    requires WorkerOk(w, Active(r.pc), r.entry, sd) && ReceiverEnabled(r, w)
    ensures WorkerOk(Deliver(r, w), Active(NextReceiverPc(r.pc)), r.entry, sd)
  {
    DeliverKeepsLists(w, r);
    DeliverKeepsLog(w, r);
    DeliverKeepsWake(w, r, sd);
  }

  lemma ReleasedKeeps(w: Worker, p: ReceiverPc, e: Entry)
    requires WorkerOk(w, p, e, true)
    ensures WorkerOk(Released(w), p, e, true)
  {
    var w' := Released(w);
    assert ListsOk(w', p) && EntryOk(w', p, e);
    assert LogOk(w') && SeenOk(w');
    assert MutexOk(w', p) && WakeOk(w', p) && ReleaseOk(w', true);
  }

  lemma IdleReceiver(w: Worker, e: Entry, e': Entry, sd: bool)
    requires WorkerOk(w, Recv, e, sd)
    ensures WorkerOk(w, Recv, e', sd)
  {
  }

  /** The flag only goes up. */
  lemma ShutdownKeeps(w: Worker, p: ReceiverPc, e: Entry, sd: bool)
    requires WorkerOk(w, p, e, sd)
    ensures WorkerOk(w, p, e, true)
  {
  }

  /** The unlocked reads give `None` exactly where the receiver is still pushing. */
  lemma ReadsMean(w: Worker, p: ReceiverPc)
    requires MutexOk(w, p) && ListsOk(w, p) && LogOk(w) && SeenOk(w)
    requires w.pc.ReadTime? || w.pc.ReadMessage? || w.pc.ReadAddress? || w.pc.Handle?
    ensures Has(w.pushed, |w.log|)
    ensures w.pc.ReadTime? ==> Front(w.times) == if TimeMissing(w, p) then None else Some(w.pushed.times[|w.log|])
    ensures w.pc.ReadMessage? ==> Front(w.messages) == Some(w.pushed.messages[|w.log|])
    ensures w.pc.ReadAddress? ==> Front(w.addresses) == if AddressMissing(w, p) then None else Some(w.pushed.addresses[|w.log|])
  {
  }

  lemma InitInv(s: State)
    requires Init(s)
    ensures Inv(s)
  {
  }

  lemma WorkedKeepsInv(s: State, i: nat)
    requires Inv(s) && i < |s.workers| && WorkerEnabled(s.workers[i]) && (s.workers[i].pc.ShutStore? ==> s.isShutdown)
    ensures Inv(Worked(s, i))
  {
    WorkKeeps(s.workers[i], Serving(s.r, i), s.r.entry, s.isShutdown, |s.workers|);
  }

  lemma RaisedKeepsInv(s: State)
    requires Inv(s)
    ensures Inv(s.(isShutdown := true))
  {
    var s' := s.(isShutdown := true);
    forall j | 0 <= j < |s.workers| ensures WorkerOk(s'.workers[j], Serving(s'.r, j), s'.r.entry, true) {
      ShutdownKeeps(s.workers[j], Serving(s.r, j), s.r.entry, s.isShutdown);
    }
  }

  lemma OpenedKeepsInv(s: State, k: nat)
    requires Inv(s) && s.isShutdown && k < |s.workers|
    ensures Inv(Opened(s, k))
  {
    ReleasedKeeps(s.workers[k], Serving(s.r, k), s.r.entry);
  }

  /** The receiver moves without touching a worker. */
  lemma ReceiverMovesKeepsInv(s: State, r: Receiver)
    requires Inv(s)
    requires forall i | 0 <= i < |s.workers| :: Serving(r, i).Recv? && Serving(s.r, i).Recv?
    ensures Inv(s.(r := r))
  {
    var s' := s.(r := r);
    forall j | 0 <= j < |s.workers| ensures WorkerOk(s'.workers[j], Serving(s'.r, j), s'.r.entry, s'.isShutdown) {
      IdleReceiver(s.workers[j], s.r.entry, r.entry, s.isShutdown);
    }
  }

  lemma DeliveryKeepsInv(s: State)
    requires Inv(s) && s.r.target < |s.workers| && ReceiverEnabled(s.r, s.workers[s.r.target])
    ensures Inv(Do(s, ReceiverStep))
  {
    DeliverKeeps(s.workers[s.r.target], s.r, s.isShutdown);
  }

  lemma CallKeeps(w: Worker, p: ReceiverPc, e: Entry, sd: bool)
    requires WorkerOk(w, p, e, sd) && w.pc.Handle?
    ensures WorkerOk(CallsShutdown(w), p, e, sd)
  {
    var w' := CallsShutdown(w);
    assert MessagesOk(w') && AddressesOk(w', p) && TimesOk(w', p) && EntryOk(w', p, e);
    assert MutexOk(w', p) && WakeOk(w', p) && ReleaseOk(w', sd);
    assert LogOk(w') && SeenOk(w');
  }

  lemma HandlerKeepsInv(s: State, i: nat)
    requires Inv(s)
    ensures Inv(Do(s, HandlerShutsDown(i)))
  {
    if i < |s.workers| && s.workers[i].pc.Handle? {
      CallKeeps(s.workers[i], Serving(s.r, i), s.r.entry, s.isShutdown);
    }
  }

  lemma WorkerStepKeepsInv(s: State, i: nat)
    requires Inv(s)
    ensures Inv(Do(s, WorkerStep(i)))
  {
    if i < |s.workers| && WorkerEnabled(s.workers[i]) {
      RaisedKeepsInv(s);
      WorkedKeepsInv(if s.workers[i].pc.ShutStore? then s.(isShutdown := true) else s, i);
      if s.workers[i].pc.ShutOpen? && s.workers[i].pc.next < |s.workers| { OpenedKeepsInv(Worked(s, i), s.workers[i].pc.next); }
    }
  }

  lemma ReceiverStepKeepsInv(s: State)
    requires Inv(s)
    ensures Inv(Do(s, ReceiverStep))
  {
    if s.r.pc.Test? || s.r.pc.Instant? {
      ReceiverMovesKeepsInv(s, Do(s, ReceiverStep).r);
    } else if s.r.target < |s.workers| && ReceiverEnabled(s.r, s.workers[s.r.target]) {
      DeliveryKeepsInv(s);
    }
  }

  lemma DoKeepsInv(s: State, a: Action)
    requires Inv(s)
    ensures Inv(Do(s, a))
  {
    match a
    case WorkerStep(i) => WorkerStepKeepsInv(s, i);
    case HandlerShutsDown(i) => HandlerKeepsInv(s, i);
    case ReceiverStep => ReceiverStepKeepsInv(s);
    case ShutdownStores => RaisedKeepsInv(s);
    case ShutdownOpens(i) => if s.isShutdown && i < |s.workers| { OpenedKeepsInv(s, i); }
    case _ => if Do(s, a) != s { ReceiverMovesKeepsInv(s, Do(s, a).r); }
  }

  lemma ReachableInv(init: State, schedule: seq<Action>)
    requires Init(init)
    ensures Inv(Run(Do, init, schedule))
  {
    InitInv(init);
    forall s: State, a: Action | Inv(s) ensures Inv(Do(s, a)) { DoKeepsInv(s, a); }
    InvariantOfRuns(Do, Inv, init, schedule);
  }
}
