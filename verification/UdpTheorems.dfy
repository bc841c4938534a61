/** What the UDP server keeps in every reachable state, and how Shutdown ends its workers. */
module UdpTheorems {
  import opened Machines
  import opened UdpServer

  lemma WindowIsSuffix<T>(list: seq<T>, whole: seq<T>, lo: int)
    requires Window(list, whole, lo, |whole|)
    ensures list == whole[lo..] && whole == whole[..lo] + list
  {}

  /** With the mutex free no list lags behind another. */
  lemma FreeListsAlign(w: Worker, p: ReceiverPc)
    requires MutexOk(w, p) && ListsOk(w, p) && w.mutex.Free?
    ensures Window(w.addresses, w.pushed.addresses, w.popped, |w.pushed.addresses|)
    ensures Window(w.times, w.pushed.times, w.popped, |w.pushed.times|)
    ensures |w.pushed.addresses| == |w.pushed.times| == |w.pushed.messages|
  {
    assert AddressLag(w) == TimeLag(w) == AddressDue(p) == TimeDue(p) == 0;
  }

  /** First in, first out: what was popped followed by what is queued is what was pushed; the
      handler was given exactly the popped messages and at most the current front; and with
      the mutex free the three lists hold the same entries. */
  lemma QueueIsFaithful(init: State, schedule: seq<Action>, i: nat)
    requires Init(init) && i < |Run(Do, init, schedule).workers|
    ensures var w := Run(Do, init, schedule).workers[i];
            && w.popped <= |w.pushed.messages|
            && w.pushed.messages == w.pushed.messages[..w.popped] + w.messages
            && w.popped <= |w.log| <= w.popped + 1
            && (forall k | 0 <= k < |w.log| :: Reads(w.log[k], w.pushed, k))
            && (w.mutex.Free? ==>
                  && |w.pushed.addresses| == |w.pushed.times| == |w.pushed.messages|
                  && w.addresses == w.pushed.addresses[w.popped..]
                  && w.times == w.pushed.times[w.popped..])
  {
    ReachableInv(init, schedule);
    var s := Run(Do, init, schedule);
    var w, p := s.workers[i], Serving(s.r, i);
    assert WorkerOk(w, p, s.r.entry, s.isShutdown);
    WindowIsSuffix(w.messages, w.pushed.messages, w.popped);
    if w.mutex.Free? {
      FreeListsAlign(w, p);
      WindowIsSuffix(w.addresses, w.pushed.addresses, w.popped);
      WindowIsSuffix(w.times, w.pushed.times, w.popped);
    }
  }

  /** A worker asleep in Close with messages queued is about to be woken by the receiver. */
  lemma NoLostWakeup(init: State, schedule: seq<Action>, i: nat)
    requires Init(init) && i < |Run(Do, init, schedule).workers|
    ensures var s := Run(Do, init, schedule);
            s.workers[i].pc.Blocked? && s.workers[i].gate.waiting && s.workers[i].messages != [] ==>
              s.r.target == i && OpenPending(s.r.pc)
  {
    ReachableInv(init, schedule);
    var s := Run(Do, init, schedule);
    assert WorkerOk(s.workers[i], Serving(s.r, i), s.r.entry, s.isShutdown);
  }

  /** The pops, done under the mutex, never meet an empty list. */
  lemma PopsFindAFront(init: State, schedule: seq<Action>, i: nat)
    requires Init(init) && i < |Run(Do, init, schedule).workers|
    ensures var w := Run(Do, init, schedule).workers[i];
            && (w.pc.PopMessage? ==> w.messages != [])
            && (w.pc.PopAddress? ==> w.addresses != [])
            && (w.pc.PopTime? ==> w.times != [])
  {
    ReachableInv(init, schedule);
    var s := Run(Do, init, schedule);
    assert WorkerOk(s.workers[i], Serving(s.r, i), s.r.entry, s.isShutdown);
  }

  // ----- the unlocked reads

  /** The receiver has pushed the message of the only queued entry, and its time is not there yet. */
  predicate HalfPushed(w: Worker, p: ReceiverPc) {
    |w.messages| == 1 && (p.PushAddress? || p.PushTime?)
  }

  /** Reading the time before taking the mutex is defined exactly when the entry is whole. */
  lemma ReadTimeIsDefined(init: State, schedule: seq<Action>, i: nat)
    requires Init(init) && i < |Run(Do, init, schedule).workers|
    ensures var s := Run(Do, init, schedule);
            s.workers[i].pc.ReadTime? ==> (s.workers[i].times != [] <==> !HalfPushed(s.workers[i], Serving(s.r, i)))
  {
    ReachableInv(init, schedule);
    var s := Run(Do, init, schedule);
    assert WorkerOk(s.workers[i], Serving(s.r, i), s.r.entry, s.isShutdown);
  }

  /** The same for the address. */
  lemma ReadAddressIsDefined(init: State, schedule: seq<Action>, i: nat)
    requires Init(init) && i < |Run(Do, init, schedule).workers|
    ensures var s := Run(Do, init, schedule);
            s.workers[i].pc.ReadAddress? ==>
              (s.workers[i].addresses != [] <==> !(|s.workers[i].messages| == 1 && Serving(s.r, i).PushAddress?))
  {
    ReachableInv(init, schedule);
    var s := Run(Do, init, schedule);
    assert WorkerOk(s.workers[i], Serving(s.r, i), s.r.entry, s.isShutdown);
  }

  /** A datagram arrives at an otherwise untouched server and is pushed as far as its message;
      then worker `i` looks at its queue. */
  function EarlyRead(e: Entry, i: nat): seq<Action> {
    [Datagram(e), ReceiverStep, ReceiverStep, Choose(i), ReceiverStep, ReceiverStep, WorkerStep(i), WorkerStep(i)]
  }

  /** So the unlocked read does meet an empty list: the worker stands at the front of an empty
      time list, in a reachable state, for any number of workers. */
  lemma EarlyReadIsReachable(init: State, e: Entry, i: nat)
    requires Init(init) && i < |init.workers|
    ensures var s := Run(Do, init, EarlyRead(e, i));
            && i < |s.workers| && s.workers[i].pc.ReadTime?
            && s.workers[i].times == [] && s.workers[i].addresses == []
  {
    var q := EarlyRead(e, i);
    var s1 := Do(init, q[0]);
    var s2 := Do(s1, q[1]);
    var s3 := Do(s2, q[2]);
    var s4 := Do(s3, q[3]);
    var s5 := Do(s4, q[4]);
    var s6 := Do(s5, q[5]);
    assert s4.r == Receiver(Lock, e, true, i) && s4.workers == init.workers && !s4.isShutdown;
    assert s6.workers[i] == Deliver(s5.r, Deliver(s4.r, init.workers[i]));
    assert s6.workers[i].messages == [e.message];
    var s7 := Do(s6, q[6]);
    assert s7.workers[i] == s6.workers[i].(pc := Check);
    EightSteps(init, q);
  }

  lemma EightSteps(s: State, q: seq<Action>)
    requires |q| == 8
    ensures Run(Do, s, q) == Do(Do(Do(Do(Do(Do(Do(Do(s, q[0]), q[1]), q[2]), q[3]), q[4]), q[5]), q[6]), q[7])
  {
    RunPrefixes(Do, s, q);
    assert Run(Do, s, q[..0 + 1]) == Do(s, q[0]);
    assert Run(Do, s, q[..1 + 1]) == Do(Run(Do, s, q[..1]), q[1]);
    assert Run(Do, s, q[..2 + 1]) == Do(Run(Do, s, q[..2]), q[2]);
    assert Run(Do, s, q[..3 + 1]) == Do(Run(Do, s, q[..3]), q[3]);
    assert Run(Do, s, q[..4 + 1]) == Do(Run(Do, s, q[..4]), q[4]);
    assert Run(Do, s, q[..5 + 1]) == Do(Run(Do, s, q[..5]), q[5]);
    assert Run(Do, s, q[..6 + 1]) == Do(Run(Do, s, q[..6]), q[6]);
    assert Run(Do, s, q[..7 + 1]) == Do(Run(Do, s, q[..7]), q[7]);
  }

  // ----- shutdown

  function Times(q: nat, k: nat): nat {
    if q == 0 then 0 else k + Times(q - 1, k)
  }

  /** One entry costs the worker at most this many steps, a Shutdown called by its handler included. */
  function PerEntry(n: nat): nat { n + 30 }

  function Weight(p: Pc, n: nat): nat {
    match p
    case Returned => 0
    case Top => 1
    case Blocked => 2
    case Close => 3
    case PopMessage => 11
    case LockMutex => 12
    case ShutOpen(k) => if k < n then n + 13 - k else 13
    case ShutStore => n + 14
    case Handle => n + 16
    case ReadAddress => n + 17
    case ReadMessage => n + 18
    case ReadTime => n + 19
    case Check => n + 20
    case UnlockMutex => n + 21
    case PopTime => n + 22
    case PopAddress => n + 23
  }

  /** Whether the receiver may still push one entry to worker `i`. */
  function PushesLeft(r: Receiver, i: nat): nat {
    if r.pc.Instant? || r.pc.Select? || ((r.pc.Lock? || r.pc.PushMessage?) && r.target == i) then 1 else 0
  }

  function Rank(s: State, i: nat): nat
    requires i < |s.workers|
  {
    Times(|s.workers[i].messages| + PushesLeft(s.r, i), PerEntry(|s.workers|)) + Weight(s.workers[i].pc, |s.workers|)
  }

  /** The actions that are a step of worker `i`. */
  predicate OwnStep(s: State, a: Action, i: nat)
    requires i < |s.workers|
  {
    (a == WorkerStep(i) && WorkerEnabled(s.workers[i])) || (a == HandlerShutsDown(i) && s.workers[i].pc.Handle?)
  }

  lemma WorkFalls(w: Worker, n: nat, left: nat)
    requires WorkerEnabled(w) && (w.pc.PopMessage? ==> w.messages != [])
    ensures var w' := Work(w, true, n);
            Times(|w'.messages| + left, PerEntry(n)) + Weight(w'.pc, n) < Times(|w.messages| + left, PerEntry(n)) + Weight(w.pc, n)
  {
  }

  /** What one action does to another worker, or to the receiver. */
  lemma OthersKeepRank(s: State, a: Action, i: nat)
    requires i < |s.workers| && s.isShutdown && !OwnStep(s, a, i)
    ensures |Do(s, a).workers| == |s.workers| && Rank(Do(s, a), i) <= Rank(s, i)
  {
  }

  lemma WorkerStepShape(s: State, i: nat)
    requires i < |s.workers| && s.isShutdown && WorkerEnabled(s.workers[i])
    ensures var s', w' := Do(s, WorkerStep(i)), Work(s.workers[i], true, |s.workers|);
            && |s'.workers| == |s.workers| && s'.isShutdown && s'.r == s.r
            && s'.workers[i].pc == w'.pc && s'.workers[i].messages == w'.messages
  {
  }

  lemma OwnStepFalls(s: State, a: Action, i: nat)
    requires i < |s.workers| && s.isShutdown && OwnStep(s, a, i)
    requires s.workers[i].pc.PopMessage? ==> s.workers[i].messages != []
    ensures |Do(s, a).workers| == |s.workers| && Do(s, a).isShutdown && Rank(Do(s, a), i) < Rank(s, i)
  {
    if a.WorkerStep? {
      WorkFalls(s.workers[i], |s.workers|, PushesLeft(s.r, i));
      WorkerStepShape(s, i);
    }
  }

  /** How many of the actions of `schedule`, performed from `s`, are steps of worker `i`. */
  function OwnSteps(s: State, schedule: seq<Action>, i: nat): nat {
    if schedule == [] then 0
    else
      var n := |schedule| - 1;
      var before := Run(Do, s, schedule[..n]);
      OwnSteps(s, schedule[..n], i) + (if i < |before.workers| && OwnStep(before, schedule[n], i) then 1 else 0)
  }

  /** After IsShutdown is set a worker takes at most `Rank` further steps, whatever the
      receiver, the other workers and the callers of Shutdown do meanwhile. */
  lemma {:induction false} ShutdownBoundsEveryWorker(s: State, schedule: seq<Action>, i: nat)
    requires Inv(s) && s.isShutdown && i < |s.workers|
    ensures var s' := Run(Do, s, schedule);
            && Inv(s') && s'.isShutdown && |s'.workers| == |s.workers|
            && OwnSteps(s, schedule, i) + Rank(s', i) <= Rank(s, i)
  {
    if schedule != [] {
      var n := |schedule| - 1;
      ShutdownBoundsEveryWorker(s, schedule[..n], i);
      var before := Run(Do, s, schedule[..n]);
      DoKeepsInv(before, schedule[n]);
      if OwnStep(before, schedule[n], i) {
        assert WorkerOk(before.workers[i], Serving(before.r, i), before.r.entry, true);
        OwnStepFalls(before, schedule[n], i);
      }
      else { OthersKeepRank(before, schedule[n], i); FlagStays(before, schedule[n]); }
    }
  }

  lemma FlagStays(s: State, a: Action)
    requires s.isShutdown
    ensures Do(s, a).isShutdown
  {
  }

  /** And it is never kept from taking them once its gate has been opened: asleep, draining or
      itself inside Shutdown, it can step unless the receiver holds its mutex, and then the
      receiver can step. */
  lemma ReleasedWorkersAreNotStuck(s: State, i: nat)
    requires Inv(s) && i < |s.workers| && s.workers[i].released && !s.workers[i].pc.Returned?
    ensures WorkerEnabled(s.workers[i])
         || (s.workers[i].pc.LockMutex? && s.workers[i].mutex.ByReceiver? && s.r.target == i && ReceiverEnabled(s.r, s.workers[i]))
  {
    assert WorkerOk(s.workers[i], Serving(s.r, i), s.r.entry, s.isShutdown);
  }

  lemma WorkLeavesReleased(w: Worker, sd: bool, n: nat)
    requires WorkerEnabled(w)
    ensures Work(w, sd, n).released == w.released
  {}

  lemma WorkerStepLeavesReleased(s: State, k: nat, i: nat)
    requires i < |s.workers|
    ensures |Do(s, WorkerStep(k)).workers| == |s.workers|
    ensures s.workers[i].released ==> Do(s, WorkerStep(k)).workers[i].released
  {
    if k < |s.workers| && WorkerEnabled(s.workers[k]) { WorkLeavesReleased(s.workers[k], s.isShutdown || s.workers[k].pc.ShutStore?, |s.workers|); }
  }

  /** Opening the gate after the flag is set is what releases a worker, for good. */
  lemma OpeningReleases(s: State, a: Action, i: nat)
    requires i < |s.workers|
    ensures a == ShutdownOpens(i) && s.isShutdown ==> Do(s, a).workers[i].released
    ensures |Do(s, a).workers| == |s.workers| && (s.workers[i].released ==> Do(s, a).workers[i].released)
  {
    if a.WorkerStep? { WorkerStepLeavesReleased(s, a.i, i); }
  }

  function AllPushed(ws: seq<Worker>): nat {
    if ws == [] then 0 else |ws[0].pushed.messages| + AllPushed(ws[1..])
  }

  lemma {:induction false} AllPushedUpdate(ws: seq<Worker>, ws': seq<Worker>, i: nat)
    requires i < |ws| == |ws'|
    requires forall j | 0 <= j < |ws| && j != i :: ws'[j].pushed == ws[j].pushed
    ensures AllPushed(ws') == AllPushed(ws) - |ws[i].pushed.messages| + |ws'[i].pushed.messages|
  {
    if i > 0 {
      AllPushedUpdate(ws[1..], ws'[1..], i - 1);
    } else if |ws| > 1 {
      AllPushedUpdate(ws[1..], ws'[1..], 0);
    }
  }

  function OnePush(r: Receiver): nat {
    if r.pc.Instant? || r.pc.Select? || r.pc.Lock? || r.pc.PushMessage? then 1 else 0
  }

  lemma OnlyDeliveryPushes(s: State, a: Action)
    requires !a.ReceiverStep?
    ensures |Do(s, a).workers| == |s.workers|
    ensures forall j | 0 <= j < |s.workers| :: Do(s, a).workers[j].pushed == s.workers[j].pushed
    ensures s.isShutdown ==> OnePush(Do(s, a).r) <= OnePush(s.r)
  {
  }

  lemma PushStep(s: State, a: Action)
    requires s.isShutdown
    ensures AllPushed(Do(s, a).workers) + OnePush(Do(s, a).r) <= AllPushed(s.workers) + OnePush(s.r)
  {
    if a.ReceiverStep? {
      if s.r.target < |s.workers| { AllPushedUpdate(s.workers, Do(s, a).workers, s.r.target); }
    } else if s.workers != [] {
      OnlyDeliveryPushes(s, a);
      AllPushedUpdate(s.workers, Do(s, a).workers, 0);
    }
  }

  /** After IsShutdown is set the receiver pushes at most one more entry, to all workers together. */
  lemma {:induction false} AtMostOneMorePush(s: State, schedule: seq<Action>)
    requires s.isShutdown
    ensures AllPushed(Run(Do, s, schedule).workers) + OnePush(Run(Do, s, schedule).r) <= AllPushed(s.workers) + OnePush(s.r)
    ensures AllPushed(Run(Do, s, schedule).workers) <= AllPushed(s.workers) + 1
    ensures Run(Do, s, schedule).isShutdown
  {
    if schedule != [] {
      var n := |schedule| - 1;
      AtMostOneMorePush(s, schedule[..n]);
      var before := Run(Do, s, schedule[..n]);
      PushStep(before, schedule[n]);
      FlagStays(before, schedule[n]);
    }
  }
}
