/** What comes in and what becomes of it.

    A history observes the UDP server without influencing it: every receive and its fate, the
    queue chosen for every datagram, what was missing when a worker read an entry, and how
    often every gate was opened and passed. */
module UdpHistory {
  import opened Machines
  import opened Options
  import opened U = UdpServer
  import opened UdpTheorems

  datatype Fate =
    | Pending     // received, not decided on
    | FoundShut   // a Shutdown had begun: the loop ends
    | Failed      // nothing was received: the loop ends
    | Rejected    // InstantClientMessageHandler returned false
    | Accepted

  /** One receive; `None` when it failed. */
  datatype Receipt = Receipt(entry: Option<Entry>, fate: Fate)

  datatype Delivery = Delivery(worker: nat, entry: Entry)

  /** Which fields of an entry had not been pushed when the worker read them. */
  datatype Gaps = Gaps(time: bool, address: bool)

  /** One worker: the gaps of the entry it is reading and of those given to the handler, how
      often its gate was opened, and how often it came through. */
  datatype Account = Account(reading: Gaps, given: seq<Gaps>, opens: nat, passes: nat)

  datatype History = History(
    receipts: seq<Receipt>,
    chosen: seq<nat>,
    queued: seq<Delivery>,
    accounts: seq<Account>,
    asked: bool)          // Shutdown was called
  {
    function Decided(fate: Fate): History {
      if receipts == [] then this
      else this.(receipts := receipts[..|receipts| - 1] + [receipts[|receipts| - 1].(fate := fate)])
    }

    function OpenedAt(i: nat): History {
      if i < |accounts| then this.(accounts := accounts[i := accounts[i].(opens := accounts[i].opens + 1)]) else this
    }

    function HasFailed(): bool { receipts != [] && receipts[|receipts| - 1].entry.None? }
  }

  datatype Observed = Observed(u: State, h: History)

  predicate InitAccount(d: Account) { d.given == [] && d.opens == 0 && d.passes == 0 }

  predicate Init(s: Observed) {
    && U.Init(s.u)
    && s.h.receipts == [] && s.h.chosen == [] && s.h.queued == [] && !s.h.asked
    && |s.h.accounts| == |s.u.workers| && forall i | 0 <= i < |s.h.accounts| :: InitAccount(s.h.accounts[i])
  }

  /** What a step of worker `w` means, with the receiver at `p`; `w'` is the worker afterwards. */
  function Meaning(d: Account, w: Worker, w': Worker, p: ReceiverPc): Account {
    match w.pc
    case ReadTime => d.(reading := d.reading.(time := TimeMissing(w, p)))
    case ReadAddress => d.(reading := d.reading.(address := AddressMissing(w, p)))
    case Handle => d.(given := d.given + [d.reading])
    case Close => if w'.pc.Blocked? then d else d.(passes := d.passes + 1)
    case Blocked => d.(passes := d.passes + 1)
    case _ => d
  }

  function NoteWorker(s: Observed, i: nat): History {
    if i < |s.u.workers| && i < |s.h.accounts| && WorkerEnabled(s.u.workers[i]) then
      var w, w' := s.u.workers[i], U.Do(s.u, WorkerStep(i)).workers;
      if w.pc.ShutStore? then s.h.(asked := true)
      else if w.pc.ShutOpen? then (if w.pc.next < |s.u.workers| then s.h.OpenedAt(w.pc.next) else s.h)
      else if i < |w'| then s.h.(accounts := s.h.accounts[i := Meaning(s.h.accounts[i], w, w'[i], Serving(s.u.r, i))])
      else s.h
    else s.h
  }

  function NoteReceiver(s: Observed): History {
    match s.u.r.pc
    case Test => if s.h.asked then s.h.Decided(FoundShut) else if s.h.HasFailed() then s.h.Decided(Failed) else s.h
    case Instant => s.h.Decided(Accepted)
    case PushMessage => s.h.(queued := s.h.queued + [Delivery(s.u.r.target, s.u.r.entry)])
    case Open => s.h.OpenedAt(s.u.r.target)
    case _ => s.h
  }

  function Note(s: Observed, a: Action): History {
    match a
    case WorkerStep(i) => NoteWorker(s, i)
    case HandlerShutsDown(i) =>
      if i < |s.u.workers| && i < |s.h.accounts| && s.u.workers[i].pc.Handle? then
        s.h.(accounts := s.h.accounts[i := s.h.accounts[i].(given := s.h.accounts[i].given + [s.h.accounts[i].reading])])
      else s.h
    case Datagram(entry) => if s.u.r.pc.Recv? then s.h.(receipts := s.h.receipts + [Receipt(Some(entry), Pending)]) else s.h
    case RecvFails => if s.u.r.pc.Recv? then s.h.(receipts := s.h.receipts + [Receipt(None, Pending)]) else s.h
    case InstantRejects => if s.u.r.pc.Instant? then s.h.Decided(Rejected) else s.h
    case Choose(i) => if s.u.r.pc.Select? && i < |s.u.workers| then s.h.(chosen := s.h.chosen + [i]) else s.h
    case ReceiverStep => NoteReceiver(s)
    case ShutdownStores => s.h.(asked := true)
    case ShutdownOpens(i) => if s.h.asked then s.h.OpenedAt(i) else s.h
  }

  function Do(s: Observed, a: Action): Observed {
    Observed(U.Do(s.u, a), Note(s, a))
  }

  // ----- what is queued

  /** The datagrams that were accepted, in the order in which they came. */
  function AcceptedOf(receipts: seq<Receipt>): seq<Entry> {
    if receipts == [] then []
    else
      var n := |receipts| - 1;
      AcceptedOf(receipts[..n]) + (if receipts[n].fate.Accepted? && receipts[n].entry.Some? then [receipts[n].entry.value] else [])
  }

  function Entries(queued: seq<Delivery>): seq<Entry> { seq(|queued|, k requires 0 <= k < |queued| => queued[k].entry) }

  function Workers(queued: seq<Delivery>): seq<nat> { seq(|queued|, k requires 0 <= k < |queued| => queued[k].worker) }

  /** What was queued for worker `i`, in order. */
  function QueuedFor(queued: seq<Delivery>, i: nat): Pushed {
    if queued == [] then Pushed([], [], [])
    else
      var n := |queued| - 1;
      var before := QueuedFor(queued[..n], i);
      if queued[n].worker == i then before.Add(queued[n].entry) else before
  }

  /** The accepted datagram the receiver has not pushed yet. */
  function InHand(r: Receiver): seq<Entry> {
    if r.pc.Select? || r.pc.Lock? || r.pc.PushMessage? then [r.entry] else []
  }

  /** And the worker chosen for it. */
  function Target(r: Receiver): seq<nat> {
    if r.pc.Lock? || r.pc.PushMessage? then [r.target] else []
  }

  /** The receive is over and the loop went on. */
  predicate Passed(x: Receipt) {
    x.entry.Some? && (x.fate.Rejected? || x.fate.Accepted?)
  }

  /** The receive ended the loop. */
  predicate Ends(x: Receipt) {
    x.fate.FoundShut? || (x.fate.Failed? && x.entry.None?)
  }

  predicate LastOk(r: Receiver, x: Receipt) {
    match r.pc
    case Test => x == Receipt(if r.received then Some(r.entry) else None, Pending)
    case Instant => x == Receipt(Some(r.entry), Pending)
    case Done => Ends(x)
    case _ => Passed(x)
  }

  predicate ReceiptsOk(r: Receiver, receipts: seq<Receipt>) {
    && (forall k | 0 <= k < |receipts| - 1 :: Passed(receipts[k]))
    && (receipts != [] ==> LastOk(r, receipts[|receipts| - 1]))
    && (r.pc.Test? || r.pc.Instant? || r.pc.Done? ==> receipts != [])
  }

  predicate QueueOk(r: Receiver, h: History) {
    && AcceptedOf(h.receipts) == Entries(h.queued) + InHand(r)
    && h.chosen == Workers(h.queued) + Target(r)
  }

  predicate FlagOk(s: Observed) {
    && (s.h.asked <==> s.u.isShutdown)
    && (forall k | 0 <= k < |s.h.receipts| :: s.h.receipts[k].fate.FoundShut? ==> s.h.asked)
  }

  predicate PushedOk(s: Observed) {
    && (forall i | 0 <= i < |s.u.workers| :: QueuedFor(s.h.queued, i) == s.u.workers[i].pushed)
    && (s.u.r.pc.Lock? || Active(s.u.r.pc) == s.u.r.pc != Recv ==> s.u.r.target < |s.u.workers|)
  }

  // ----- what is handled

  /** What the handler is given of entry `k` when it was read with such gaps. */
  function Given(q: Pushed, k: nat, gaps: Gaps): Seen
    requires k < |q.messages| && k < |q.addresses| && k < |q.times|
  {
    Seen(if gaps.time then None else Some(q.times[k]),
         Some(q.messages[k]),
         if gaps.address then None else Some(q.addresses[k]))
  }

  predicate GivenOk(w: Worker, d: Account) {
    && |d.given| == |w.log|
    && forall k | 0 <= k < |w.log| :: Has(w.pushed, k) && w.log[k] == Given(w.pushed, k, d.given[k])
  }

  predicate ReadingOk(w: Worker, d: Account) {
    && (w.pc.ReadMessage? || w.pc.ReadAddress? || w.pc.Handle? ==>
          Has(w.pushed, |w.log|) && w.seen.time == Given(w.pushed, |w.log|, d.reading).time)
    && (w.pc.ReadAddress? || w.pc.Handle? ==>
          Has(w.pushed, |w.log|) && w.seen.message == Given(w.pushed, |w.log|, d.reading).message)
    && (w.pc.Handle? ==> Has(w.pushed, |w.log|) && w.seen.address == Given(w.pushed, |w.log|, d.reading).address)
  }

  /** The openings not used up yet. */
  function Unused(w: Worker): nat {
    (if w.gate.signaled then 1 else 0) + (if w.pc.Blocked? && !w.gate.waiting then 1 else 0)
  }

  /** The worker comes through its gate at most once for each opening. */
  predicate PassesOk(w: Worker, d: Account) {
    d.passes + Unused(w) <= d.opens
  }

  // ----- the invariant

  predicate AccountOk(w: Worker, d: Account) {
    GivenOk(w, d) && ReadingOk(w, d) && PassesOk(w, d)
  }

  predicate AccountsOk(s: Observed) {
    && |s.h.accounts| == |s.u.workers|
    && forall i | 0 <= i < |s.u.workers| :: AccountOk(s.u.workers[i], s.h.accounts[i])
  }

  predicate Inv(s: Observed) {
    U.Inv(s.u) && ReceiptsOk(s.u.r, s.h.receipts) && QueueOk(s.u.r, s.h) && FlagOk(s) && PushedOk(s) && AccountsOk(s)
  }

  lemma InitInv(s: Observed)
    requires Init(s)
    ensures Inv(s)
  {
    U.InitInv(s.u);
  }

  /** One more receipt. */
  lemma AcceptedGrows(receipts: seq<Receipt>, x: Receipt)
    ensures AcceptedOf(receipts + [x]) ==
            AcceptedOf(receipts) + (if x.fate.Accepted? && x.entry.Some? then [x.entry.value] else [])
  {
    assert (receipts + [x])[..|receipts|] == receipts;
  }

  /** Deciding on the last receipt. */
  lemma AcceptedDecided(h: History, fate: Fate)
    requires h.receipts != [] && !h.receipts[|h.receipts| - 1].fate.Accepted?
    ensures var x := h.receipts[|h.receipts| - 1];
            AcceptedOf(h.Decided(fate).receipts) == AcceptedOf(h.receipts) + (if fate.Accepted? && x.entry.Some? then [x.entry.value] else [])
  {
    var n := |h.receipts| - 1;
    AcceptedGrows(h.receipts[..n], h.receipts[n]);
    assert h.receipts[..n] + [h.receipts[n]] == h.receipts;
    AcceptedGrows(h.receipts[..n], h.receipts[n].(fate := fate));
  }

  lemma QueuedForGrows(queued: seq<Delivery>, d: Delivery, i: nat)
    ensures QueuedFor(queued + [d], i) == if d.worker == i then QueuedFor(queued, i).Add(d.entry) else QueuedFor(queued, i)
  {
    assert (queued + [d])[..|queued|] == queued;
  }

  // ----- the receiver's side

  /** What the receiver and the queues have in common with the history. */
  predicate ReceivedOk(s: Observed) {
    ReceiptsOk(s.u.r, s.h.receipts) && QueueOk(s.u.r, s.h) && FlagOk(s) && PushedOk(s)
  }

  lemma DatagramKeeps(s: Observed, a: Action)
    requires (a.Datagram? || a.RecvFails?) && s.u.r.pc.Recv? && ReceivedOk(s)
    ensures ReceivedOk(Do(s, a))
  {
    AcceptedGrows(s.h.receipts, Receipt(if a.Datagram? then Some(a.entry) else None, Pending));
  }

  /** A verdict on the receive that is being decided. */
  lemma DecidedKeeps(r: Receiver, h: History, r': Receiver, fate: Fate)
    requires (r.pc.Test? || r.pc.Instant?) && ReceiptsOk(r, h.receipts) && QueueOk(r, h)
    requires LastOk(r', h.receipts[|h.receipts| - 1].(fate := fate))
    requires if fate.Accepted? then r.pc.Instant? && r' == r.(pc := Select) else r'.pc.Recv? || r'.pc.Done?
    ensures ReceiptsOk(r', h.Decided(fate).receipts) && QueueOk(r', h.Decided(fate))
  {
    AcceptedDecided(h, fate);
  }

  lemma DecidedKeepsFlag(s: Observed, fate: Fate)
    requires FlagOk(s) && (fate.FoundShut? ==> s.h.asked)
    ensures FlagOk(s.(h := s.h.Decided(fate)))
  {}

  lemma VerdictKeeps(s: Observed, a: Action)
    requires (a.InstantRejects? && s.u.r.pc.Instant?) || (a.ReceiverStep? && (s.u.r.pc.Test? || s.u.r.pc.Instant?))
    requires ReceivedOk(s)
    ensures ReceivedOk(Do(s, a))
  {
    var r, r' := s.u.r, U.Do(s.u, a).r;
    var fate := if a.InstantRejects? then Rejected else if r.pc.Instant? then Accepted else if s.u.isShutdown then FoundShut else Failed;
    assert r'.pc == if a.InstantRejects? then Recv else if r.pc.Instant? then Select else if s.u.isShutdown || !r.received then Done else Instant;
    if r'.pc.Instant? {
      assert Do(s, a) == s.(u := s.u.(r := r'));
    } else {
      DecidedKeeps(r, s.h, r', fate);
      DecidedKeepsFlag(s, fate);
      assert Do(s, a) == Observed(s.u.(r := r'), s.h.Decided(fate));
    }
  }

  lemma ChoiceKeeps(s: Observed, i: nat)
    requires s.u.r.pc.Select? && i < |s.u.workers| && ReceivedOk(s)
    ensures ReceivedOk(Do(s, Choose(i)))
  {
  }

  lemma DeliverPushes(r: Receiver, w: Worker)
    requires ReceiverEnabled(r, w)
    ensures Deliver(r, w).pushed == if r.pc.PushMessage? then w.pushed.Add(r.entry) else w.pushed
  {}

  lemma PushKeepsQueue(r: Receiver, h: History)
    requires QueueOk(r, h) && r.pc.PushMessage?
    ensures QueueOk(r.(pc := PushAddress), h.(queued := h.queued + [Delivery(r.target, r.entry)]))
  {
    var h' := h.(queued := h.queued + [Delivery(r.target, r.entry)]);
    assert Entries(h'.queued) == Entries(h.queued) + [r.entry];
    assert Workers(h'.queued) == Workers(h.queued) + [r.target];
  }

  lemma DeliveryShape(s: Observed)
    requires s.u.r.target < |s.u.workers| && ReceiverEnabled(s.u.r, s.u.workers[s.u.r.target])
    ensures Do(s, ReceiverStep).u ==
            State(s.u.workers[s.u.r.target := Deliver(s.u.r, s.u.workers[s.u.r.target])], s.u.r.(pc := NextReceiverPc(s.u.r.pc)), s.u.isShutdown)
    ensures Do(s, ReceiverStep).h.receipts == s.h.receipts && Do(s, ReceiverStep).h.chosen == s.h.chosen
    ensures Do(s, ReceiverStep).h.queued == if s.u.r.pc.PushMessage? then s.h.queued + [Delivery(s.u.r.target, s.u.r.entry)] else s.h.queued
    ensures Do(s, ReceiverStep).h.asked == s.h.asked
  {}

  lemma DeliveryKeepsPushed(s: Observed)
    requires s.u.r.target < |s.u.workers| && ReceiverEnabled(s.u.r, s.u.workers[s.u.r.target]) && PushedOk(s)
    ensures PushedOk(Do(s, ReceiverStep))
  {
    var d := Delivery(s.u.r.target, s.u.r.entry);
    var s' := Do(s, ReceiverStep);
    DeliveryShape(s);
    DeliverPushes(s.u.r, s.u.workers[s.u.r.target]);
    forall i | 0 <= i < |s.u.workers| ensures QueuedFor(s'.h.queued, i) == s'.u.workers[i].pushed {
      QueuedForGrows(s.h.queued, d, i);
    }
  }

  lemma DeliveryKeepsQueue(s: Observed)
    requires s.u.r.target < |s.u.workers| && ReceiverEnabled(s.u.r, s.u.workers[s.u.r.target]) && ReceivedOk(s)
    ensures ReceivedOk(Do(s, ReceiverStep))
  {
    DeliveryShape(s);
    DeliveryKeepsPushed(s);
    if s.u.r.pc.PushMessage? { PushKeepsQueue(s.u.r, s.h); }
  }

  /** Nobody else has to do with the queues. */
  lemma OthersKeepQueue(s: Observed, a: Action)
    requires !a.ReceiverStep? && U.Do(s.u, a).r == s.u.r && ReceivedOk(s)
    requires Note(s, a).receipts == s.h.receipts && Note(s, a).queued == s.h.queued && Note(s, a).chosen == s.h.chosen
    requires FlagOk(Do(s, a))
    ensures ReceivedOk(Do(s, a))
  {
    OnlyDeliveryPushes(s.u, a);
  }

  lemma WorkerLeavesReceiver(s: Observed, i: nat)
    ensures U.Do(s.u, WorkerStep(i)).r == s.u.r
    ensures var h' := Note(s, WorkerStep(i)); h'.receipts == s.h.receipts && h'.queued == s.h.queued && h'.chosen == s.h.chosen
  {}

  lemma WorkerRaises(s: Observed, i: nat)
    requires |s.h.accounts| == |s.u.workers|
    ensures var raises := i < |s.u.workers| && WorkerEnabled(s.u.workers[i]) && s.u.workers[i].pc.ShutStore?;
            && U.Do(s.u, WorkerStep(i)).isShutdown == (s.u.isShutdown || raises)
            && Note(s, WorkerStep(i)).asked == (s.h.asked || raises)
  {}

  lemma StepKeepsReceived(s: Observed, a: Action)
    requires ReceivedOk(s) && |s.h.accounts| == |s.u.workers|
    ensures ReceivedOk(Do(s, a))
  {
    match a
    case WorkerStep(i) => WorkerLeavesReceiver(s, i); WorkerRaises(s, i); OthersKeepQueue(s, a);
    case HandlerShutsDown(i) => OthersKeepQueue(s, a);
    case ShutdownStores => OthersKeepQueue(s, a);
    case ShutdownOpens(i) => OthersKeepQueue(s, a);
    case Choose(i) => if s.u.r.pc.Select? && i < |s.u.workers| { ChoiceKeeps(s, i); }
    case InstantRejects => if s.u.r.pc.Instant? { VerdictKeeps(s, a); }
    case ReceiverStep =>
      if s.u.r.pc.Test? || s.u.r.pc.Instant? { VerdictKeeps(s, a); }
      else if s.u.r.target < |s.u.workers| && ReceiverEnabled(s.u.r, s.u.workers[s.u.r.target]) { DeliveryKeepsQueue(s); }
      else { IdleReceiverKeeps(s); }
    case _ => if s.u.r.pc.Recv? { DatagramKeeps(s, a); }
  }

  lemma IdleReceiverKeeps(s: Observed)
    requires !s.u.r.pc.Test? && !s.u.r.pc.Instant? && ReceivedOk(s)
    requires !(s.u.r.target < |s.u.workers| && ReceiverEnabled(s.u.r, s.u.workers[s.u.r.target]))
    ensures ReceivedOk(Do(s, ReceiverStep))
  {
  }

  // ----- the workers' side

  lemma WorkKeepsGiven(w: Worker, d: Account, sd: bool, n: nat, p: ReceiverPc)
    requires WorkerEnabled(w) && GivenOk(w, d) && ReadingOk(w, d)
    ensures var w' := Work(w, sd, n); GivenOk(w', Meaning(d, w, w', p))
  {
  }

  lemma WorkKeepsReading(w: Worker, d: Account, sd: bool, n: nat, p: ReceiverPc)
    requires WorkerEnabled(w) && ReadingOk(w, d) && MutexOk(w, p) && ListsOk(w, p) && LogOk(w) && SeenOk(w)
    ensures var w' := Work(w, sd, n); ReadingOk(w', Meaning(d, w, w', p))
  {
    if w.pc.ReadTime? || w.pc.ReadMessage? || w.pc.ReadAddress? || w.pc.Handle? { ReadsMean(w, p); }
  }

  lemma WorkKeepsPasses(w: Worker, d: Account, sd: bool, n: nat, p: ReceiverPc)
    requires WorkerEnabled(w) && PassesOk(w, d) && WakeOk(w, p)
    ensures var w' := Work(w, sd, n); PassesOk(w', Meaning(d, w, w', p))
  {
  }

  lemma WorkKeepsAccount(w: Worker, d: Account, p: ReceiverPc, e: Entry, sd: bool, n: nat)
    requires WorkerEnabled(w) && WorkerOk(w, p, e, sd) && AccountOk(w, d)
    ensures var w' := Work(w, sd, n); AccountOk(w', Meaning(d, w, w', p))
  {
    WorkKeepsGiven(w, d, sd, n, p);
    WorkKeepsReading(w, d, sd, n, p);
    WorkKeepsPasses(w, d, sd, n, p);
  }

  /** Opening a gate, by whomever. */
  lemma ReleasedKeepsAccount(w: Worker, d: Account)
    requires AccountOk(w, d)
    ensures AccountOk(Released(w), d.(opens := d.opens + 1))
  {
    assert Released(w).log == w.log && Released(w).pushed == w.pushed && Released(w).seen == w.seen && Released(w).pc == w.pc;
  }

  lemma GivenStays(q: Pushed, e: Entry, k: nat, gaps: Gaps)
    requires Has(q, k)
    ensures Has(q.Add(e), k) && Given(q.Add(e), k, gaps) == Given(q, k, gaps)
  {}

  lemma DeliverKeepsGiven(w: Worker, d: Account, r: Receiver)
    requires ReceiverEnabled(r, w) && GivenOk(w, d)
    ensures GivenOk(Deliver(r, w), d)
  {
    var w' := Deliver(r, w);
    assert w'.log == w.log && (w'.pushed == w.pushed || w'.pushed == w.pushed.Add(r.entry));
    forall k | 0 <= k < |w.log| ensures Has(w'.pushed, k) && w'.log[k] == Given(w'.pushed, k, d.given[k]) {
      GivenStays(w.pushed, r.entry, k, d.given[k]);
    }
  }

  lemma DeliverKeepsReading(w: Worker, d: Account, r: Receiver)
    requires ReceiverEnabled(r, w) && ReadingOk(w, d)
    ensures ReadingOk(Deliver(r, w), d)
  {
  }

  lemma DeliverKeepsAccount(w: Worker, d: Account, r: Receiver)
    requires ReceiverEnabled(r, w) && AccountOk(w, d)
    ensures AccountOk(Deliver(r, w), if r.pc.Open? then d.(opens := d.opens + 1) else d)
  {
    DeliverKeepsGiven(w, d, r);
    DeliverKeepsReading(w, d, r);
    var d' := if r.pc.Open? then d.(opens := d.opens + 1) else d;
    assert GivenOk(Deliver(r, w), d') && ReadingOk(Deliver(r, w), d') && PassesOk(Deliver(r, w), d');
  }

  lemma CallKeepsAccount(w: Worker, d: Account)
    requires AccountOk(w, d) && w.pc.Handle?
    ensures AccountOk(CallsShutdown(w), d.(given := d.given + [d.reading]))
  {
  }

  lemma WorkerStepAccounts(s: Observed, i: nat)
    requires |s.h.accounts| == |s.u.workers| && i < |s.u.workers| && WorkerEnabled(s.u.workers[i])
    requires !s.u.workers[i].pc.ShutOpen?
    ensures var w, s' := s.u.workers[i], Do(s, WorkerStep(i));
            var sd := s.u.isShutdown || w.pc.ShutStore?;
            && s'.u.workers == s.u.workers[i := Work(w, sd, |s.u.workers|)]
            && s'.h.accounts == s.h.accounts[i := Meaning(s.h.accounts[i], w, Work(w, sd, |s.u.workers|), Serving(s.u.r, i))]
  {
  }

  lemma WorkerKeepsAccounts(s: Observed, i: nat)
    requires U.Inv(s.u) && AccountsOk(s)
    ensures AccountsOk(Do(s, WorkerStep(i)))
  {
    if i < |s.u.workers| && WorkerEnabled(s.u.workers[i]) {
      var w, n := s.u.workers[i], |s.u.workers|;
      var sd := s.u.isShutdown || w.pc.ShutStore?;
      WorkKeepsAccount(w, s.h.accounts[i], Serving(s.u.r, i), s.u.r.entry, s.u.isShutdown, n);
      assert Work(w, sd, n) == Work(w, s.u.isShutdown, n);
      if w.pc.ShutOpen? { OpeningKeepsAccounts(s, i); } else { WorkerStepAccounts(s, i); }
    }
  }

  lemma OpeningKeepsAccounts(s: Observed, i: nat)
    requires AccountsOk(s) && i < |s.u.workers| && s.u.workers[i].pc.ShutOpen?
    requires AccountOk(Work(s.u.workers[i], s.u.isShutdown, |s.u.workers|), s.h.accounts[i])
    ensures AccountsOk(Do(s, WorkerStep(i)))
  {
    var k := s.u.workers[i].pc.next;
    var u := Worked(s.u, i);
    assert forall j | 0 <= j < |u.workers| :: AccountOk(u.workers[j], s.h.accounts[j]);
    if k < |u.workers| {
      ReleasedKeepsAccount(u.workers[k], s.h.accounts[k]);
      assert Do(s, WorkerStep(i)) == Observed(Opened(u, k), s.h.OpenedAt(k));
    } else {
      assert Do(s, WorkerStep(i)) == Observed(u, s.h);
    }
  }

  lemma ReceiverKeepsAccounts(s: Observed)
    requires U.Inv(s.u) && AccountsOk(s) && PushedOk(s)
    ensures AccountsOk(Do(s, ReceiverStep))
  {
    var r := s.u.r;
    if !r.pc.Test? && !r.pc.Instant? && r.target < |s.u.workers| && ReceiverEnabled(r, s.u.workers[r.target]) {
      DeliveryShape(s);
      assert WorkerOk(s.u.workers[r.target], Serving(r, r.target), r.entry, s.u.isShutdown);
      DeliverKeepsAccount(s.u.workers[r.target], s.h.accounts[r.target], r);
    }
  }

  lemma StepKeepsAccounts(s: Observed, a: Action)
    requires U.Inv(s.u) && AccountsOk(s) && PushedOk(s) && FlagOk(s)
    ensures AccountsOk(Do(s, a))
  {
    match a
    case WorkerStep(i) => WorkerKeepsAccounts(s, i);
    case HandlerShutsDown(i) =>
      if i < |s.u.workers| && s.u.workers[i].pc.Handle? { CallKeepsAccount(s.u.workers[i], s.h.accounts[i]); }
    case ReceiverStep => ReceiverKeepsAccounts(s);
    case ShutdownOpens(i) => if i < |s.u.workers| { ReleasedKeepsAccount(s.u.workers[i], s.h.accounts[i]); }
    case _ => assert U.Do(s.u, a).workers == s.u.workers && Note(s, a).accounts == s.h.accounts;
  }

  lemma DoKeepsInv(s: Observed, a: Action)
    requires Inv(s)
    ensures Inv(Do(s, a))
  {
    U.DoKeepsInv(s.u, a);
    StepKeepsReceived(s, a);
    StepKeepsAccounts(s, a);
  }

  lemma ReachableInv(init: Observed, schedule: seq<Action>)
    requires Init(init)
    ensures Inv(Run(Do, init, schedule))
  {
    InitInv(init);
    forall s: Observed, a: Action | Inv(s) ensures Inv(Do(s, a)) { DoKeepsInv(s, a); }
    InvariantOfRuns(Do, Inv, init, schedule);
  }

  /** The history watches the server and does not change it. */
  lemma {:induction false} OnlyObserves(init: Observed, schedule: seq<Action>)
    ensures Run(Do, init, schedule).u == Run(U.Do, init.u, schedule)
  {
    if schedule != [] { OnlyObserves(init, schedule[..|schedule| - 1]); }
  }

  // ----- theorems

  /** In every run the accepted datagrams, in the order in which they came, are the ones pushed,
      in the order of pushing, followed by the one in hand; each was pushed once, whole, to the
      worker chosen for it.  Every receive but the last was rejected or accepted; the loop is
      over exactly when the last one failed or found that Shutdown had been called. */
  lemma WhatIsAcceptedIsQueued(init: Observed, schedule: seq<Action>)
    requires Init(init)
    ensures var s := Run(Do, init, schedule);
            && AcceptedOf(s.h.receipts) == Entries(s.h.queued) + InHand(s.u.r)
            && s.h.chosen == Workers(s.h.queued) + Target(s.u.r)
            && (forall i | 0 <= i < |s.u.workers| :: QueuedFor(s.h.queued, i) == s.u.workers[i].pushed)
    ensures var s := Run(Do, init, schedule);
            && (forall k | 0 <= k < |s.h.receipts| - 1 :: Passed(s.h.receipts[k]))
            && (s.u.r.pc.Done? <==> s.h.receipts != [] && Ends(s.h.receipts[|s.h.receipts| - 1]))
            && (s.u.isShutdown <==> s.h.asked)
            && (forall k | 0 <= k < |s.h.receipts| :: s.h.receipts[k].fate.FoundShut? ==> s.h.asked)
  {
    ReachableInv(init, schedule);
  }

  /** After the end of the loop nothing is received or pushed any more, whatever happens. */
  lemma {:induction false} NothingAfterTheEnd(s: Observed, schedule: seq<Action>)
    requires Inv(s) && s.u.r.pc.Done?
    ensures var s' := Run(Do, s, schedule);
            && Inv(s') && s'.u.r == s.u.r && s'.h.receipts == s.h.receipts && s'.h.queued == s.h.queued
            && |s'.u.workers| == |s.u.workers|
            && forall i | 0 <= i < |s.u.workers| :: s'.u.workers[i].pushed == s.u.workers[i].pushed
  {
    if schedule != [] {
      var before, a := Run(Do, s, schedule[..|schedule| - 1]), schedule[|schedule| - 1];
      NothingAfterTheEnd(s, schedule[..|schedule| - 1]);
      DoKeepsInv(before, a);
      StaysOver(before, a);
    }
  }

  lemma StaysOver(s: Observed, a: Action)
    requires s.u.r.pc.Done?
    ensures var s' := Do(s, a);
            && s'.u.r == s.u.r && s'.h.receipts == s.h.receipts && s'.h.queued == s.h.queued
            && |s'.u.workers| == |s.u.workers|
            && forall i | 0 <= i < |s.u.workers| :: s'.u.workers[i].pushed == s.u.workers[i].pushed
  {
    if !a.ReceiverStep? { OnlyDeliveryPushes(s.u, a); }
  }

  /** The handler of every worker is given the entries pushed to it, in order, each field as it
      was pushed; a time or an address is missing exactly where the worker read it while the
      receiver was still pushing that entry. */
  lemma WhatIsHandled(init: Observed, schedule: seq<Action>, i: nat)
    requires Init(init) && i < |Run(Do, init, schedule).u.workers|
    ensures var s := Run(Do, init, schedule);
            && |s.h.accounts| == |s.u.workers|
            && var w, d := s.u.workers[i], s.h.accounts[i];
            && |d.given| == |w.log|
            && forall k | 0 <= k < |w.log| :: Has(w.pushed, k) && w.log[k] == Given(w.pushed, k, d.given[k])
  {
    ReachableInv(init, schedule);
    var s := Run(Do, init, schedule);
    assert AccountOk(s.u.workers[i], s.h.accounts[i]);
  }

  /** A worker comes through its gate at most once for every opening: it waits for its messages
      and does not turn round in its loop. */
  lemma OnePassForEachOpening(init: Observed, schedule: seq<Action>, i: nat)
    requires Init(init) && i < |Run(Do, init, schedule).u.workers|
    ensures var s := Run(Do, init, schedule);
            && |s.h.accounts| == |s.u.workers|
            && s.h.accounts[i].passes + Unused(s.u.workers[i]) <= s.h.accounts[i].opens
  {
    ReachableInv(init, schedule);
    var s := Run(Do, init, schedule);
    assert AccountOk(s.u.workers[i], s.h.accounts[i]);
  }
}
