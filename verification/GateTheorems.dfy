/** The gate, with one closer and any number of openers, is that event. */
module GateTheorems {
  import opened Machines
  import opened Options
  import opened GateSpec
  import opened GateHistory

  /** Waiting, from the moment condVarMutex is taken until some call feeds the closer. */
  function Abs(s: State, c: Tid): Event {
    Event(!s.g.isActivated, c in s.g.pc && G.Covers(s.g.pc[c]) && s.h.fed == None)
  }

  /** The operation on the event performed by the step at `p`. */
  function OpAt(g: G.Gate, p: G.Pc): Op {
    match p
    case OpenTry => if g.condVarMutex == None then Skip else Set
    case OpenClear => Set
    case IfClosedTry => Pulse
    case CloseArm => Wait
    case CloseCvMtx => Wait
    case CloseReleaseCv => Cancel
    case _ => Skip
  }

  function OpOf(g: G.Gate, a: G.Action): Op {
    if a.Step? && G.Enabled(g, a.t) then OpAt(g, g.pc[a.t]) else Skip
  }

  /** Where the flag is written. */
  lemma FlagAfter(g: G.Gate, t: Tid)
    requires G.Enabled(g, t)
    ensures G.Take(g, t).isActivated == if g.pc[t].CloseArm? then true else if g.pc[t].OpenClear? then false else g.isActivated
  {}

  lemma SignalRefines(s: State, c: Tid, t: Tid)
    requires Inv(s, c) && G.Enabled(s.g, t)
    ensures !G.Take(s.g, t).isActivated == Apply(OpAt(s.g, s.g.pc[t]), Abs(s, c)).signaled
  {
    var p := s.g.pc[t];
    FlagAfter(s.g, t);
    if p.OpenTry? && s.g.condVarMutex.Some? {
      Unfed(s, c, t);
      assert s.g.condVarMutex == Some(c);
    }
  }

  predicate Feeds(g: G.Gate, p: G.Pc) { (p.OpenTry? || p.IfClosedTry?) && g.condVarMutex != None }

  /** What an opener's step does to the call the closer lives on, and to where the closer is. */
  lemma OpenersStep(s: State, c: Tid, t: Tid)
    requires KeysOk(s.g.pc, s.h) && G.Enabled(s.g, t) && !G.Closing(s.g.pc[t])
    ensures After(s, t).h.fed == if Feeds(s.g, s.g.pc[t]) then Some(s.h.current[t]) else s.h.fed
    ensures c in After(s, t).g.pc <==> c in s.g.pc
    ensures c in s.g.pc ==> (G.Covers(After(s, t).g.pc[c]) <==> G.Covers(s.g.pc[c]))
  {
    G.PcMove(s.g, t);
  }

  /** An opener's step ends the waiting exactly when it feeds the closer. */
  lemma FeedingRefines(s: State, c: Tid, t: Tid)
    requires Inv(s, c) && G.Enabled(s.g, t) && !G.Closing(s.g.pc[t])
    ensures Abs(After(s, t), c).waiting == Apply(OpAt(s.g, s.g.pc[t]), Abs(s, c)).waiting
  {
    OpenersStep(s, c, t);
    assert s.g.pc[t].OpenClear? ==> !G.Covers(s.g.pc[c]);
  }

  lemma ClosingRefines(s: State, c: Tid)
    requires KeysOk(s.g.pc, s.h) && FedWhere(s, c) && G.Enabled(s.g, c) && G.Closing(s.g.pc[c]) && TokenOk(s) && G.ActiveOk(s.g, c)
    ensures Abs(After(s, c), c).waiting == Apply(OpAt(s.g, s.g.pc[c]), Abs(s, c)).waiting
  {
    G.PcMove(s.g, c);
  }

  lemma StepRefines(s: State, c: Tid, t: Tid)
    requires Inv(s, c) && G.Enabled(s.g, t)
    ensures Abs(After(s, t), c) == Apply(OpAt(s.g, s.g.pc[t]), Abs(s, c))
  {
    SignalRefines(s, c, t);
    if G.Closing(s.g.pc[t]) { ClosingRefines(s, c); } else { FeedingRefines(s, c, t); }
  }

  /** Calling and being timed out do not show. */
  lemma CallsDoNotShow(s: State, c: Tid, a: G.Action)
    requires Inv(s, c) && G.ByOneCloser(c, a) && !a.Step?
    ensures Abs(Do(s, a), c) == Abs(s, c)
  {}

  lemma BlockedStep(s: State, c: Tid, a: G.Action)
    requires a.Step? && !G.Enabled(s.g, a.t)
    ensures Abs(Do(s, a), c) == Abs(s, c)
  {}

  /** Every action is one operation of the event, or invisible. */
  lemma Refines(s: State, c: Tid, a: G.Action)
    requires Inv(s, c) && G.ByOneCloser(c, a)
    ensures Abs(Do(s, a), c) == Apply(OpOf(s.g, a), Abs(s, c))
  {
    if !a.Step? {
      CallsDoNotShow(s, c, a);
    } else if G.Enabled(s.g, a.t) {
      StepRefines(s, c, a.t);
    } else {
      BlockedStep(s, c, a);
    }
  }

  /** The machine in which only thread `c` calls Close. */
  function OneCloser(c: Tid): (State, G.Action) -> State {
    (s: State, a: G.Action) => if G.ByOneCloser(c, a) then Do(s, a) else s
  }

  lemma ReachableInv(init: State, schedule: seq<G.Action>, c: Tid)
    requires Init(init) && c in init.g.pc
    ensures Inv(Run(OneCloser(c), init, schedule), c)
  {
    InitInv(init, c);
    var step, inv := OneCloser(c), (s: State) => Inv(s, c);
    forall s: State, a: G.Action | inv(s) ensures inv(step(s, a)) {
      if G.ByOneCloser(c, a) { DoKeepsInv(s, c, a); }
    }
    InvariantOfRuns(step, inv, init, schedule);
  }

  /** No two Closes live on the same Open; every Open that returned was taken by a Close, is
      the one stored signal, or was replaced by a later Open; OpenIfClosed stores nothing. */
  lemma EachCloseHasItsOwnOpen(init: State, schedule: seq<G.Action>, c: Tid)
    requires Init(init) && c in init.g.pc
    ensures var s := Run(OneCloser(c), init, schedule);
            && Distinct(s.h.taken)
            && s.h.passed <= |s.h.taken| <= s.h.passed + 1
            && (forall k | 0 <= k < |s.h.taken| :: s.h.taken[k] < |s.h.calls| && s.h.calls[s.h.taken[k]].fate.Taken?)
            && (forall i | 0 <= i < |s.h.calls| && s.h.calls[i].fate.Pending? ::
                  s.h.calls[i].caller in s.g.pc && Fresh(s.g.pc[s.h.calls[i].caller]))
            && (forall i, j | 0 <= i < |s.h.calls| && 0 <= j < |s.h.calls| ::
                  s.h.calls[i].fate.Stored? && s.h.calls[j].fate.Stored? ==> i == j)
            && (forall i | 0 <= i < |s.h.calls| && !s.h.calls[i].isOpen ::
                  !s.h.calls[i].fate.Stored? && !s.h.calls[i].fate.Replaced?)
            && (s.h.token.Some? <==> !s.g.isActivated)
  {
    ReachableInv(init, schedule, c);
  }

  /** EN_ThreadGate: no time limits and no OpenIfClosed. */
  predicate Plain(a: G.Action) {
    !a.CallOpenIfClosed? && !a.Timeout? && (a.CallClose? ==> a.kind.Unlimited?)
  }

  /** Without time limits every Close that returns has taken an Open. */
  lemma PlainClosesNeverGiveUp(init: State, schedule: seq<G.Action>, c: Tid)
    requires Init(init) && c in init.g.pc
    requires forall k | 0 <= k < |schedule| :: Plain(schedule[k])
    ensures Run(OneCloser(c), init, schedule).h.gaveUp == 0
  {
    PlainInv(init, schedule, c);
  }

  predicate NeverTimed(s: State, c: Tid) {
    s.h.gaveUp == 0 && c in s.g.pc && (G.Closing(s.g.pc[c]) ==> !s.g.timed)
  }

  lemma {:induction false} PlainInv(init: State, schedule: seq<G.Action>, c: Tid)
    requires Init(init) && c in init.g.pc
    requires forall k | 0 <= k < |schedule| :: Plain(schedule[k])
    ensures NeverTimed(Run(OneCloser(c), init, schedule), c)
  {
    if schedule != [] {
      var n := |schedule| - 1;
      PlainInv(init, schedule[..n], c);
      ReachableInv(init, schedule[..n], c);
      var s := Run(OneCloser(c), init, schedule[..n]);
      if G.ByOneCloser(c, schedule[n]) && G.Possible(s.g, schedule[n]) {
        if schedule[n].Step? { PlainStep(s, c, schedule[n].t); }
      }
    }
  }

  lemma PlainStep(s: State, c: Tid, t: Tid)
    requires G.CloserOk(s.g, c) && KeysOk(s.g.pc, s.h) && WokenOk(s, c) && NeverTimed(s, c) && G.Enabled(s.g, t)
    ensures NeverTimed(After(s, t), c)
  {
    G.TakeKeepsCloser(s.g, c, t);
    assert Meaning(s.g, s.h, t, s.g.pc[t]).gaveUp == 0;
    assert t != c ==> G.Take(s.g, t).pc[c] == s.g.pc[c];
  }

  // ----- the timed gate

  /** Only an Open leaves the gate open, and only while no closer is behind condVarMutex. */
  lemma OnlyOpenLeavesOpen(s: State, c: Tid, a: G.Action)
    requires Inv(s, c) && G.ByOneCloser(c, a)
    requires s.g.isActivated && !Do(s, a).g.isActivated
    ensures a.Step? && a.t in s.g.pc && s.g.pc[a.t].OpenClear? && !G.Covers(s.g.pc[c])
    ensures s.h.current[a.t] < |s.h.calls| && s.h.calls[s.h.current[a.t]].isOpen
  {
    if a.Step? && G.Enabled(s.g, a.t) { FlagAfter(s.g, a.t); }
    assert Fresh(s.g.pc[a.t]);
  }

  /** On its way out of a Close that nobody opened, or out. */
  predicate GivingUp(s: State, c: Tid, before: nat) {
    || s.h.gaveUp > before
    || (s.h.gaveUp == before && s.h.fed == None && c in s.g.pc
        && (s.g.pc[c].CloseRelock? || s.g.pc[c].CloseUnlock? || s.g.pc[c].CloseReturn?))
  }

  lemma StepsKeepGivingUp(s: State, c: Tid, before: nat, a: G.Action)
    requires Inv(s, c) && G.ByOneCloser(c, a) && GivingUp(s, c, before)
    ensures GivingUp(Do(s, a), c, before)
  {
    if a.Step? && G.Enabled(s.g, a.t) {
      StepIsReady(s, c, a.t);
      G.PcMove(s.g, a.t);
    }
  }

  /** At some action of `schedule` an Open leaves the gate open. */
  ghost predicate OpenStores(s: State, schedule: seq<G.Action>, c: Tid) {
    exists k :: 0 <= k < |schedule| && Stores(Run(OneCloser(c), s, schedule[..k]), schedule[k])
  }

  predicate Stores(s: State, a: G.Action) {
    a.Step? && a.t in s.g.pc && s.g.pc[a.t].OpenClear?
  }

  lemma OpenStoresEarlier(s: State, schedule: seq<G.Action>, c: Tid)
    requires schedule != []
    ensures OpenStores(s, schedule, c) <==>
            OpenStores(s, schedule[..|schedule| - 1], c)
            || Stores(Run(OneCloser(c), s, schedule[..|schedule| - 1]), schedule[|schedule| - 1])
  {
    var n := |schedule| - 1;
    forall k | 0 <= k < n ensures schedule[..n][..k] == schedule[..k] && schedule[..n][k] == schedule[k] {}
    if OpenStores(s, schedule[..n], c) {
      var k :| 0 <= k < n && Stores(Run(OneCloser(c), s, schedule[..n][..k]), schedule[..n][k]);
      assert Stores(Run(OneCloser(c), s, schedule[..k]), schedule[k]);
    }
    if OpenStores(s, schedule, c) {
      var k :| 0 <= k < |schedule| && Stores(Run(OneCloser(c), s, schedule[..k]), schedule[k]);
      if k < n { assert Stores(Run(OneCloser(c), s, schedule[..n][..k]), schedule[..n][k]); }
    }
  }

  lemma ReleasedUnfed(s: State, c: Tid)
    requires Inv(s, c) && s.g.pc[c].CloseReleaseCv? && s.h.fed == None
    ensures var s' := Do(s, G.Step(c)); s'.g.isActivated && s'.g.condVarMutex == None && GivingUp(s', c, s.h.gaveUp)
  {}

  /** A Close that gives up with no Open behind it leaves the gate activated, on its return and
      for good, until some Open, one that met the gate afterwards, leaves it open. */
  lemma {:induction false} TimedOutStaysActivated(s: State, c: Tid, schedule: seq<G.Action>)
    requires Inv(s, c) && s.g.pc[c].CloseReleaseCv? && s.h.fed == None
    ensures var released := Do(s, G.Step(c));
            var s' := Run(OneCloser(c), released, schedule);
            && Inv(s', c) && GivingUp(s', c, s.h.gaveUp)
            && (s'.g.isActivated || OpenStores(released, schedule, c))
    decreases |schedule|
  {
    var released := Do(s, G.Step(c));
    DoKeepsInv(s, c, G.Step(c));
    ReleasedUnfed(s, c);
    if schedule != [] {
      var n := |schedule| - 1;
      var before, a := Run(OneCloser(c), released, schedule[..n]), schedule[n];
      TimedOutStaysActivated(s, c, schedule[..n]);
      OpenStoresEarlier(released, schedule, c);
      if G.ByOneCloser(c, a) {
        DoKeepsInv(before, c, a);
        StepsKeepGivingUp(before, c, s.h.gaveUp, a);
        if before.g.isActivated && !Do(before, a).g.isActivated { OnlyOpenLeavesOpen(before, c, a); }
      }
    }
  }

  /** An Open that finds the closer behind condVarMutex, timed out or not, is that closer's. */
  lemma RacingOpenIsAbsorbed(s: State, c: Tid, t: Tid)
    requires Inv(s, c) && t in s.g.pc && s.g.pc[t].OpenTry? && G.Covers(s.g.pc[c])
    ensures Do(s, G.Step(t)).h.fed == Some(s.h.current[t]) && Do(s, G.Step(t)).g.isActivated
  {
    assert s.g.condVarMutex == Some(c);
  }

  /** What feeds a Close stays with it until it returns, and is then counted. */
  lemma FedUntilReturn(s: State, c: Tid, a: G.Action)
    requires Inv(s, c) && G.ByOneCloser(c, a) && s.h.fed.Some?
    ensures Do(s, a).h.fed == s.h.fed || (a == G.Step(c) && s.g.pc[c].CloseReturn? && Do(s, a).h.passed == s.h.passed + 1)
  {
    if a.Step? && G.Enabled(s.g, a.t) { StepIsReady(s, c, a.t); }
  }

  /** A notification only ever reaches the Close its Open feeds, never a later one. */
  lemma NotifyWakesItsOwnClose(s: State, c: Tid, t: Tid)
    requires Inv(s, c) && t in s.g.pc && s.g.pc[t].Notify? && c in s.g.cv
    ensures s.h.fed == Some(s.h.current[t]) && s.g.mtx == Some(t)
  {
  }
}
