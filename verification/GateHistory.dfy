/** Which Open releases which Close.

    A history observes the gate without influencing it: it numbers the calls of Open and
    OpenIfClosed and records what became of each. */
module GateHistory {
  import opened Machines
  import opened Options
  import G = Gate

  datatype Fate =
    | Pending    // the call has not met the gate yet
    | Stored     // it left the gate open, for a Close to come
    | Replaced   // it had left the gate open and a later Open did so again
    | Taken      // a Close returned, or is returning, because of it
    | NoSleeper  // OpenIfClosed found nobody asleep

  datatype Call = Call(caller: Tid, isOpen: bool, fate: Fate)

  /** `current[t]` numbers the latest call of `t`, `token` the stored call, `fed` the call the
      running Close lives on, `taken` the calls used up by Closes, in order; `limited` tells
      whether the latest call of Close was begun with a time limit. */
  datatype History = History(
    calls: seq<Call>,
    current: map<Tid, nat>,
    token: Option<nat>,
    fed: Option<nat>,
    taken: seq<nat>,
    passed: nat,
    gaveUp: nat,
    limited: bool)
  {
    function Fated(i: nat, fate: Fate): History {
      if i < |calls| then this.(calls := calls[i := calls[i].(fate := fate)]) else this
    }

    function Begun(t: Tid, isOpen: bool): History {
      this.(calls := calls + [Call(t, isOpen, Pending)], current := current[t := |calls|])
    }

    function Fed(i: nat): History {
      Fated(i, Taken).(fed := Some(i), taken := taken + [i])
    }

    function Stores(i: nat): History {
      (if token.Some? then Fated(token.value, Replaced) else this).Fated(i, Stored).(token := Some(i))
    }

    function Returned(): History {
      if fed.Some? then this.(fed := None, passed := passed + 1) else this.(gaveUp := gaveUp + 1)
    }
  }

  datatype State = State(g: G.Gate, h: History)

  predicate Init(s: State) {
    && G.Init(s.g)
    && s.h.calls == [] && s.h.token == None && s.h.fed == None && s.h.taken == [] && s.h.passed == 0 && s.h.gaveUp == 0
    && s.h.current.Keys == s.g.pc.Keys
  }

  /** What the operation of `t` at `p` means: a failed attempt finds the closer covered by
      condVarMutex, clearing the flag stores the call, arming it takes the stored call. */
  function Meaning(g: G.Gate, h: History, t: Tid, p: G.Pc): History
    requires t in h.current
  {
    var i := h.current[t];
    match p
    case OpenTry => if g.condVarMutex == None then h else h.Fed(i)
    case IfClosedTry => if g.condVarMutex == None then h.Fated(i, NoSleeper) else h.Fed(i)
    case OpenClear => h.Stores(i)
    case CloseArm => if h.token.Some? then h.Fed(h.token.value).(token := None) else h
    case CloseReturn => h.Returned()
    case _ => h
  }

  function Note(s: State, a: G.Action): History {
    if !G.Possible(s.g, a) || a.t !in s.h.current then s.h
    else
      match a
      case CallOpen(t) => s.h.Begun(t, true)
      case CallOpenIfClosed(t) => s.h.Begun(t, false)
      case CallClose(t, kind) => s.h.(limited := kind.ForDuration? || kind.UntilTime?)
      case Step(t) => Meaning(s.g, s.h, t, s.g.pc[t])
      case Timeout(t) => s.h
  }

  function Do(s: State, a: G.Action): State {
    State(G.Do(s.g, a), Note(s, a))
  }

  // ----- the invariant

  /** The call has not met the gate yet. */
  predicate Fresh(p: G.Pc) {
    p.OpenMtx? || p.OpenTry? || p.OpenClear? || p.IfClosedMtx? || p.IfClosedTry?
  }

  predicate IfClosed(p: G.Pc) {
    p.IfClosedMtx? || p.IfClosedTry?
  }

  predicate Looping(p: G.Pc) {
    p.Retry? || p.Notify?
  }

  predicate KeysOk(pc: map<Tid, G.Pc>, h: History) {
    h.current.Keys == pc.Keys
  }

  /** A thread that has not met the gate owns a pending call of its kind. */
  predicate FreshOk(pc: map<Tid, G.Pc>, h: History) {
    forall t | t in pc && t in h.current :: Fresh(pc[t]) ==>
      h.current[t] < |h.calls| && h.calls[h.current[t]] == Call(t, !IfClosed(pc[t]), Pending)
  }

  /** A call stops pending before it returns. */
  predicate PendingOk(pc: map<Tid, G.Pc>, h: History) {
    forall i | 0 <= i < |h.calls| :: h.calls[i].fate.Pending? ==>
      h.calls[i].caller in pc && h.calls[i].caller in h.current
      && Fresh(pc[h.calls[i].caller]) && h.current[h.calls[i].caller] == i
  }

  /** OpenIfClosed never leaves the gate open. */
  predicate KindsOk(h: History) {
    forall i | 0 <= i < |h.calls| :: h.calls[i].fate.Stored? || h.calls[i].fate.Replaced? ==> h.calls[i].isOpen
  }

  /** The gate is open exactly when one call is stored. */
  predicate TokenOk(s: State) {
    && (s.h.token.Some? <==> !s.g.isActivated)
    && (s.h.token.Some? ==> s.h.token.value < |s.h.calls|)
    && (forall i | 0 <= i < |s.h.calls| :: s.h.calls[i].fate.Stored? <==> s.h.token == Some(i))
  }

  predicate Distinct(q: seq<nat>) {
    forall j, k | 0 <= j < k < |q| :: q[j] != q[k]
  }

  /** The calls used up are the calls of fate Taken, each once; one more than the Closes that
      returned while a Close has taken its call and not returned. */
  predicate TakenOk(h: History) {
    && Distinct(h.taken)
    && (forall k | 0 <= k < |h.taken| :: h.taken[k] < |h.calls| && h.calls[h.taken[k]].fate.Taken?)
    && (forall i | 0 <= i < |h.calls| :: h.calls[i].fate.Taken? ==> i in h.taken)
    && |h.taken| == h.passed + (if h.fed.Some? then 1 else 0)
    && (h.fed.Some? ==> |h.taken| > 0 && h.taken[|h.taken| - 1] == h.fed.value)
  }

  /** Where the closer may already live on some call. */
  predicate MayBeFed(p: G.Pc) {
    p.CloseWait? || p.Asleep? || p.CloseReleaseCv? || p.CloseRelock? || p.CloseUnlock? || p.CloseReturn?
  }

  predicate FedWhere(s: State, c: Tid) {
    c in s.g.pc && (s.h.fed.Some? ==> MayBeFed(s.g.pc[c]))
  }

  /** An opener in its loop feeds the closer that is, or was last, behind condVarMutex. */
  predicate LoopFeeds(s: State, c: Tid) {
    c in s.g.pc && forall t | t in s.g.pc && t in s.h.current :: Looping(s.g.pc[t]) ==>
      s.h.fed == Some(s.h.current[t])
      && (s.g.pc[c].CloseWait? || s.g.pc[c].Asleep? || s.g.pc[c].CloseReleaseCv? || s.g.pc[c].CloseRelock?)
  }

  /** While a fed closer is behind condVarMutex its opener holds mtx, so there is only one. */
  predicate FeederPresent(s: State, c: Tid) {
    c in s.g.pc
    && (s.h.fed.Some? && (s.g.pc[c].CloseWait? || s.g.pc[c].Asleep? || s.g.pc[c].CloseReleaseCv?) ==>
          s.g.mtx.Some? && s.g.mtx.value in s.g.pc && Looping(s.g.pc[s.g.mtx.value]))
  }

  /** Woken and not timed: somebody's Open is behind it. */
  predicate Woken(g: G.Gate, c: Tid) {
    c in g.pc && ((g.pc[c].Asleep? && c !in g.cv) || g.pc[c].CloseReleaseCv? || g.pc[c].CloseRelock? || g.pc[c].CloseUnlock? || g.pc[c].CloseReturn?)
  }

  predicate WokenOk(s: State, c: Tid) {
    Woken(s.g, c) && !s.g.timed ==> s.h.fed.Some?
  }

  predicate HistoryOk(s: State) {
    KeysOk(s.g.pc, s.h) && FreshOk(s.g.pc, s.h) && PendingOk(s.g.pc, s.h) && KindsOk(s.h) && TokenOk(s) && TakenOk(s.h)
  }

  /** The wait of the running Close has the time limit with which the call was begun. */
  predicate LimitOk(s: State, c: Tid) {
    c in s.g.pc && (G.Closing(s.g.pc[c]) ==> (s.g.timed <==> s.h.limited))
  }

  predicate FeedOk(s: State, c: Tid) {
    LimitOk(s, c) && FedWhere(s, c) && LoopFeeds(s, c) && FeederPresent(s, c) && WokenOk(s, c)
  }

  predicate Inv(s: State, c: Tid) {
    G.Inv(s.g, c) && HistoryOk(s) && FeedOk(s, c)
  }

  lemma InitInv(s: State, c: Tid)
    requires Init(s) && c in s.g.pc
    ensures Inv(s, c)
  {
    G.InitInv(s.g, c);
  }

  function After(s: State, t: Tid): State
    requires KeysOk(s.g.pc, s.h) && G.Enabled(s.g, t)
  {
    State(G.Take(s.g, t), Meaning(s.g, s.h, t, s.g.pc[t]))
  }

  lemma FedTaken(h: History, i: nat)
    requires TakenOk(h) && h.fed == None && i < |h.calls| && !h.calls[i].fate.Taken?
    ensures TakenOk(h.Fed(i))
  {
    var h' := h.Fed(i);
    assert i !in h.taken;
    assert h'.taken[|h.taken|] == i;
    forall j | 0 <= j < |h'.calls| && h'.calls[j].fate.Taken? ensures j in h'.taken {
      if j != i { assert j in h.taken; }
    }
  }

  lemma FatedTaken(h: History, i: nat, fate: Fate)
    requires TakenOk(h) && !fate.Taken? && (i < |h.calls| ==> !h.calls[i].fate.Taken?)
    ensures TakenOk(h.Fated(i, fate))
  {
  }

  lemma StoresTaken(h: History, i: nat)
    requires TakenOk(h) && i < |h.calls| && h.calls[i].fate.Pending?
    requires h.token.Some? ==> h.token.value < |h.calls| && h.calls[h.token.value].fate.Stored?
    ensures TakenOk(h.Stores(i))
  {
    if h.token.Some? { FatedTaken(h, h.token.value, Replaced); }
    FatedTaken(if h.token.Some? then h.Fated(h.token.value, Replaced) else h, i, Stored);
  }

  /** Nobody has fed the closer when an opener makes its first attempt, or when the closer
      finds the gate open. */
  lemma Unfed(s: State, c: Tid, t: Tid)
    requires Inv(s, c) && t in s.g.pc
    requires s.g.pc[t].CloseArm? || ((s.g.pc[t].OpenTry? || s.g.pc[t].IfClosedTry?) && s.g.condVarMutex.Some?)
    ensures s.h.fed == None
  {
  }

  /** What the invariant gives about the calls at `p`. */
  predicate Ready(g: G.Gate, h: History, t: Tid, p: G.Pc) {
    && t in h.current
    && (Fresh(p) ==> h.current[t] < |h.calls| && h.calls[h.current[t]] == Call(t, !IfClosed(p), Pending))
    && (h.token.Some? ==> h.token.value < |h.calls|)
    && (forall i | 0 <= i < |h.calls| :: h.calls[i].fate.Stored? <==> h.token == Some(i))
    && (p.CloseArm? ==> h.token.Some?)
    && (p.CloseArm? || ((p.OpenTry? || p.IfClosedTry?) && g.condVarMutex.Some?) ==> h.fed == None)
  }

  lemma StepIsReady(s: State, c: Tid, t: Tid)
    requires Inv(s, c) && G.Enabled(s.g, t)
    ensures Ready(s.g, s.h, t, s.g.pc[t])
  {
    var p := s.g.pc[t];
    if p.CloseArm? || ((p.OpenTry? || p.IfClosedTry?) && s.g.condVarMutex.Some?) { Unfed(s, c, t); }
  }

  lemma MeaningKeepsTaken(g: G.Gate, h: History, t: Tid, p: G.Pc)
    requires TakenOk(h) && Ready(g, h, t, p)
    ensures TakenOk(Meaning(g, h, t, p))
  {
    var i := h.current[t];
    match p
    case OpenTry => if g.condVarMutex.Some? { FedTaken(h, i); }
    case IfClosedTry => if g.condVarMutex.Some? { FedTaken(h, i); } else { FatedTaken(h, i, NoSleeper); }
    case OpenClear => StoresTaken(h, i);
    case CloseArm => FedTaken(h, h.token.value);
    case _ =>
  }

  lemma MeaningKeepsKinds(g: G.Gate, h: History, t: Tid, p: G.Pc)
    requires KindsOk(h) && Ready(g, h, t, p)
    ensures KindsOk(Meaning(g, h, t, p))
  {
  }

  lemma StepKeepsToken(s: State, t: Tid)
    requires TokenOk(s) && KeysOk(s.g.pc, s.h) && G.Enabled(s.g, t) && Ready(s.g, s.h, t, s.g.pc[t])
    ensures TokenOk(After(s, t))
  {
  }

  /** Only the call of the moving thread can stop pending, and it does when the thread stops
      being fresh. */
  lemma MeaningOfPending(g: G.Gate, h: History, t: Tid, p: G.Pc)
    requires Ready(g, h, t, p)
    ensures var h' := Meaning(g, h, t, p);
            && h'.current == h.current && |h'.calls| == |h.calls|
            && (forall j | 0 <= j < |h.calls| ::
                  h.calls[j].fate.Pending? && (j != h.current[t] || Fresh(G.Next(g, p)) || !Fresh(p)) ==> h'.calls[j] == h.calls[j])
            && (forall j | 0 <= j < |h.calls| :: h'.calls[j].fate.Pending? ==> h'.calls[j] == h.calls[j])
            && (Fresh(p) && !Fresh(G.Next(g, p)) ==> !h'.calls[h.current[t]].fate.Pending?)
  {
  }

  lemma CallsFrame(pc: map<Tid, G.Pc>, h: History, pc': map<Tid, G.Pc>, h': History, t: Tid, p': G.Pc)
    requires KeysOk(pc, h) && FreshOk(pc, h) && PendingOk(pc, h)
    requires t in pc && pc' == pc[t := p']
    requires Fresh(p') ==> Fresh(pc[t]) && (IfClosed(pc[t]) <==> IfClosed(p'))
    requires h'.current == h.current && |h'.calls| == |h.calls|
    requires forall j | 0 <= j < |h.calls| :: h.calls[j].fate.Pending? && (j != h.current[t] || Fresh(p') || !Fresh(pc[t])) ==> h'.calls[j] == h.calls[j]
    requires forall j | 0 <= j < |h.calls| :: h'.calls[j].fate.Pending? ==> h'.calls[j] == h.calls[j]
    requires Fresh(pc[t]) && !Fresh(p') ==> !h'.calls[h.current[t]].fate.Pending?
    ensures KeysOk(pc', h') && FreshOk(pc', h') && PendingOk(pc', h')
  {
  }

  lemma StepKeepsCalls(s: State, t: Tid)
    requires KeysOk(s.g.pc, s.h) && FreshOk(s.g.pc, s.h) && PendingOk(s.g.pc, s.h)
    requires G.Enabled(s.g, t) && Ready(s.g, s.h, t, s.g.pc[t])
    ensures var s' := After(s, t);
            KeysOk(s'.g.pc, s'.h) && FreshOk(s'.g.pc, s'.h) && PendingOk(s'.g.pc, s'.h)
  {
    var p := s.g.pc[t];
    MeaningOfPending(s.g, s.h, t, p);
    NextFresh(s.g, p);
    G.PcMove(s.g, t);
    CallsFrame(s.g.pc, s.h, After(s, t).g.pc, After(s, t).h, t, G.Next(s.g, p));
  }

  lemma NextFresh(g: G.Gate, p: G.Pc)
    ensures Fresh(G.Next(g, p)) ==> Fresh(p) && (IfClosed(p) <==> IfClosed(G.Next(g, p)))
  {
  }

  lemma StepKeepsFedWhere(s: State, c: Tid, t: Tid)
    requires Inv(s, c) && G.Enabled(s.g, t)
    ensures FedWhere(After(s, t), c)
  {
  }

  lemma StepKeepsFeeder(s: State, c: Tid, t: Tid)
    requires Inv(s, c) && G.Enabled(s.g, t)
    ensures FeederPresent(After(s, t), c)
  {
  }

  lemma StepKeepsLoop(s: State, c: Tid, t: Tid)
    requires G.MtxOk(s.g) && G.CvMtxOk(s.g) && G.CloserOk(s.g, c) && KeysOk(s.g.pc, s.h) && FedWhere(s, c) && LoopFeeds(s, c) && FeederPresent(s, c)
    requires G.Enabled(s.g, t)
    ensures LoopFeeds(After(s, t), c)
  {
  }

  lemma StepKeepsWoken(s: State, c: Tid, t: Tid)
    requires Inv(s, c) && G.Enabled(s.g, t)
    ensures WokenOk(After(s, t), c)
  {
  }

  lemma StepKeepsLimit(s: State, c: Tid, t: Tid)
    requires G.CloserOk(s.g, c) && KeysOk(s.g.pc, s.h) && LimitOk(s, c) && G.Enabled(s.g, t)
    ensures LimitOk(After(s, t), c)
  {
    assert G.Take(s.g, t).timed == s.g.timed && After(s, t).h.limited == s.h.limited;
    assert G.Closing(G.Next(s.g, s.g.pc[t])) ==> G.Closing(s.g.pc[t]);
    G.PcMove(s.g, t);
  }

  lemma StepKeepsInv(s: State, c: Tid, t: Tid)
    requires Inv(s, c) && G.Enabled(s.g, t)
    ensures Inv(After(s, t), c)
  {
    StepIsReady(s, c, t);
    G.TakeKeepsInv(s.g, c, t);
    StepKeepsCalls(s, t);
    MeaningKeepsKinds(s.g, s.h, t, s.g.pc[t]);
    MeaningKeepsTaken(s.g, s.h, t, s.g.pc[t]);
    StepKeepsToken(s, t);
    StepKeepsLimit(s, c, t);
    StepKeepsFedWhere(s, c, t);
    StepKeepsFeeder(s, c, t);
    StepKeepsLoop(s, c, t);
    StepKeepsWoken(s, c, t);
  }

  lemma BegunTaken(h: History, t: Tid, isOpen: bool)
    requires TakenOk(h)
    ensures TakenOk(h.Begun(t, isOpen))
  {
  }

  lemma BegunCalls(pc: map<Tid, G.Pc>, h: History, t: Tid, entry: G.Pc)
    requires KeysOk(pc, h) && FreshOk(pc, h) && PendingOk(pc, h)
    requires t in pc && pc[t].Idle? && (entry.OpenMtx? || entry.IfClosedMtx?)
    ensures KeysOk(pc[t := entry], h.Begun(t, entry.OpenMtx?))
    ensures FreshOk(pc[t := entry], h.Begun(t, entry.OpenMtx?))
    ensures PendingOk(pc[t := entry], h.Begun(t, entry.OpenMtx?))
  {
  }

  lemma OpenKeepsHistory(s: State, a: G.Action)
    requires HistoryOk(s) && G.Possible(s.g, a) && (a.CallOpen? || a.CallOpenIfClosed?)
    ensures HistoryOk(Do(s, a))
  {
    BegunTaken(s.h, a.t, a.CallOpen?);
    BegunCalls(s.g.pc, s.h, a.t, if a.CallOpen? then G.OpenMtx else G.IfClosedMtx);
  }

  lemma OpenKeepsFeed(s: State, c: Tid, a: G.Action)
    requires FeedOk(s, c) && G.MtxOk(s.g) && KeysOk(s.g.pc, s.h) && G.CvOk(s.g, c)
    requires G.Possible(s.g, a) && (a.CallOpen? || a.CallOpenIfClosed?)
    ensures FeedOk(Do(s, a), c)
  {
    var s' := Do(s, a);
    assert s'.h.fed == s.h.fed && s'.h.limited == s.h.limited && s'.g.timed == s.g.timed;
    assert LimitOk(s', c);
    assert LoopFeeds(s', c) && FeederPresent(s', c);
  }

  lemma CloseKeepsHistory(s: State, c: Tid, a: G.Action)
    requires HistoryOk(s) && G.ByOneCloser(c, a) && G.Possible(s.g, a) && (a.CallClose? || a.Timeout?)
    ensures HistoryOk(Do(s, a))
  {
    var s' := Do(s, a);
    assert s'.h == s.h.(limited := s'.h.limited);
    assert forall t | t in s.g.pc :: Fresh(s'.g.pc[t]) == Fresh(s.g.pc[t]) && (Fresh(s.g.pc[t]) ==> s'.g.pc[t] == s.g.pc[t]);
    assert FreshOk(s'.g.pc, s'.h) && PendingOk(s'.g.pc, s'.h);
  }

  lemma CloseKeepsFeed(s: State, c: Tid, a: G.Action)
    requires Inv(s, c) && G.ByOneCloser(c, a) && G.Possible(s.g, a) && (a.CallClose? || a.Timeout?)
    ensures FeedOk(Do(s, a), c)
  {
    var s' := Do(s, a);
    assert s'.h == s.h.(limited := s'.h.limited);
    assert LimitOk(s', c);
    assert FedWhere(s', c) && LoopFeeds(s', c) && FeederPresent(s', c) && WokenOk(s', c);
  }

  lemma DoKeepsInv(s: State, c: Tid, a: G.Action)
    requires Inv(s, c) && G.ByOneCloser(c, a)
    ensures Inv(Do(s, a), c)
  {
    if G.Possible(s.g, a) {
      G.DoKeepsInv(s.g, c, a);
      if a.Step? { StepKeepsInv(s, c, a.t); }
      else if a.CallOpen? || a.CallOpenIfClosed? { OpenKeepsHistory(s, a); OpenKeepsFeed(s, c, a); }
      else { CloseKeepsHistory(s, c, a); CloseKeepsFeed(s, c, a); }
    }
  }
}
