/** CloseFor and CloseUntil: a sleep that was begun with a limit can expire, and the call
    returns under every fair schedule, opened or given up. */
module GateTimeouts {
  import opened Machines
  import opened Options
  import opened Fairness
  import opened G = Gate
  import opened GateTheorems
  import H = GateHistory

  /** In every reachable state the sleep of the closer can expire exactly when the call was
      begun as CloseFor or CloseUntil. */
  lemma ExpiryIsPossible(init: H.State, schedule: seq<Action>, c: Tid)
    requires H.Init(init) && c in init.g.pc
    ensures var s := Run(OneCloser(c), init, schedule);
            && (c in s.g.pc && s.g.pc[c].Asleep? && c in s.g.cv ==> (Possible(s.g, Timeout(c)) <==> s.h.limited))
  {
    ReachableInv(init, schedule, c);
  }

  // ----- the call returns

  /** A call of CloseFor or CloseUntil by `c`, begun after so many returns; `fed` tells that some
      Open feeds it. */
  datatype Call = Call(c: Tid, threads: set<Tid>, passed: nat, gaveUp: nat, fed: bool)

  /** It is in progress. */
  predicate InCall(k: Call, s: H.State) {
    && k.c in s.g.pc && Closing(s.g.pc[k.c]) && s.h.limited
    && s.h.passed == k.passed && s.h.gaveUp == k.gaveUp && (k.fed ==> s.h.fed.Some?)
  }

  /** It has returned: once, opened or given up. */
  predicate Over(k: Call, s: H.State) {
    && k.c in s.g.pc && s.g.pc[k.c].Idle?
    && ((s.h.passed == k.passed + 1 && s.h.gaveUp == k.gaveUp) || (!k.fed && s.h.passed == k.passed && s.h.gaveUp == k.gaveUp + 1))
  }

  /** The closer's way to its return; asleep and waiting counts one more. */
  function WayLeft(p: Pc, waiting: bool): nat {
    match p
    case CloseLk => 13
    case CloseMtx => 12
    case CloseTest => 11
    case CloseCvMtx => 10
    case CloseUnlockMtx => 9
    case CloseWait => 8
    case Asleep => if waiting then 6 else 5
    case CloseReleaseCv => 4
    case CloseArm => 3
    case CloseRelock => 3
    case CloseUnlock => 2
    case CloseReturn => 1
    case _ => 0
  }

  function CallLeft(c: Tid, s: H.State): nat { if c in s.g.pc then WayLeft(s.g.pc[c], c in s.g.cv) else 0 }

  predicate CanStep(c: Tid, s: H.State) { Enabled(s.g, c) }

  ghost predicate Within(k: Call, s: H.State) {
    H.Inv(s, k.c) && s.g.pc.Keys == k.threads && (InCall(k, s) || Over(k, s))
  }

  /** Every other thread leaves the closer where it is, or wakes it. */
  lemma OthersLeaveGate(g: Gate, c: Tid, a: Action)
    requires CloserOk(g, c) && Closing(g.pc[c]) && a != Step(c) && ByOneCloser(c, a)
    ensures var g' := Do(g, a); c in g'.pc && g'.pc[c] == g.pc[c] && g'.cv <= g.cv
  {
  }

  lemma OthersLeaveHistory(s: H.State, c: Tid, a: Action)
    requires H.KeysOk(s.g.pc, s.h) && CloserOk(s.g, c) && Closing(s.g.pc[c]) && a != Step(c) && ByOneCloser(c, a)
    ensures var h' := H.Note(s, a);
            && h'.limited == s.h.limited && h'.passed == s.h.passed && h'.gaveUp == s.h.gaveUp
            && (s.h.fed.Some? ==> h'.fed.Some?)
  {
  }

  /** What the closer's own step does to the gate, and to the history. */
  lemma CloserSteps(g: Gate, c: Tid)
    requires CvOk(g, c) && Closing(g.pc[c]) && Enabled(g, c)
    ensures var g' := Take(g, c);
            && c in g'.pc && g'.pc[c] == Next(g, g.pc[c]) && (Closing(g'.pc[c]) || (g.pc[c].CloseReturn? && g'.pc[c].Idle?))
            && WayLeft(g'.pc[c], c in g'.cv) < WayLeft(g.pc[c], c in g.cv)
  {
    PcMove(g, c);
  }

  lemma CloserNotes(g: Gate, h: H.History, c: Tid, p: Pc)
    requires c in h.current && Closing(p) && (p.CloseArm? ==> h.fed == None)
    ensures var h' := H.Meaning(g, h, c, p);
            && h'.limited == h.limited
            && (!p.CloseReturn? ==> h'.passed == h.passed && h'.gaveUp == h.gaveUp && (h.fed.Some? ==> h'.fed.Some?))
            && (p.CloseReturn? ==> h'.passed + h'.gaveUp == h.passed + h.gaveUp + 1 && h'.passed == h.passed + (if h.fed.Some? then 1 else 0))
  {
  }

  /** The closer's own step brings it nearer to its return. */
  lemma CloserGoesOn(s: H.State, k: Call)
    requires H.Inv(s, k.c) && InCall(k, s) && Enabled(s.g, k.c)
    ensures var s' := OneCloser(k.c)(s, Step(k.c)); (InCall(k, s') || Over(k, s')) && CallLeft(k.c, s') < CallLeft(k.c, s)
  {
    var c := k.c;
    H.StepIsReady(s, c, c);
    CloserSteps(s.g, c);
    CloserNotes(s.g, s.h, c, s.g.pc[c]);
    assert Do(s.g, Step(c)) == Take(s.g, c);
    assert H.Do(s, Step(c)) == H.State(Take(s.g, c), H.Meaning(s.g, s.h, c, s.g.pc[c]));
  }

  lemma SameThreads(g: Gate, a: Action)
    ensures Do(g, a).pc.Keys == g.pc.Keys
  {
  }

  lemma StaysWithin(s: H.State, k: Call, a: Action)
    requires Within(k, s) && !Over(k, s)
    ensures Within(k, OneCloser(k.c)(s, a))
    ensures CallLeft(k.c, OneCloser(k.c)(s, a)) <= CallLeft(k.c, s)
    ensures a == Step(k.c) && CanStep(k.c, s) ==> CallLeft(k.c, OneCloser(k.c)(s, a)) < CallLeft(k.c, s)
  {
    if ByOneCloser(k.c, a) {
      H.DoKeepsInv(s, k.c, a);
      SameThreads(s.g, a);
      if a != Step(k.c) { OthersLeaveGate(s.g, k.c, a); OthersLeaveHistory(s, k.c, a); }
      else if Enabled(s.g, k.c) { CloserGoesOn(s, k); }
    }
  }

  // ----- the closer is not kept waiting for good

  /** What an opener that holds mtx has left to do, with nobody behind condVarMutex. */
  function OpenerLeft(p: Pc): nat {
    match p
    case OpenTry => 8
    case IfClosedTry => 8
    case OpenClear => 7
    case OpenRelease => 6
    case Notify => 5
    case Retry => 4
    case RetryRelease => 3
    case OpenReturn => 2
    case _ => 1
  }

  /** What keeps the closer from its step: its sleep, or the holder of mtx. */
  function WaitLeft(c: Tid, g: Gate): nat {
    if c in g.cv then 10
    else if g.mtx.Some? && g.mtx.value in g.pc then OpenerLeft(g.pc[g.mtx.value])
    else 0
  }

  /** The actions that end the wait. */
  predicate Helps(c: Tid, g: Gate, a: Action) {
    if c in g.cv then a == Timeout(c) || (a.Step? && a.t in g.pc && g.pc[a.t].Notify?)
    else a.Step? && g.mtx == Some(a.t)
  }

  /** In a call with a limit, and not able to step. */
  predicate Kept(c: Tid, g: Gate) {
    Inv(g, c) && Closing(g.pc[c]) && g.timed && !Enabled(g, c)
  }

  lemma WhyKept(g: Gate, c: Tid)
    requires Kept(c, g)
    ensures c in g.cv ==> Possible(g, Timeout(c))
    ensures c !in g.cv ==>
              && g.mtx.Some? && g.mtx.value in g.pc && g.mtx.value != c && HoldsMtx(g.pc[g.mtx.value])
              && (g.condVarMutex.Some? ==> g.condVarMutex == g.mtx && HoldsCv(g.pc[g.mtx.value]))
  {
  }

  /** The holder of mtx goes on to its return. */
  lemma HolderGoesOn(g: Gate, c: Tid, t: Tid)
    requires MtxOk(g) && CloserOk(g, c) && g.mtx == Some(t) && t in g.pc && t != c && c !in g.cv
    requires g.condVarMutex.Some? ==> g.condVarMutex == g.mtx && HoldsCv(g.pc[t])
    ensures Enabled(g, t) && c !in Take(g, t).cv
    ensures Take(g, t).mtx == None || (Take(g, t).mtx == Some(t) && OpenerLeft(Take(g, t).pc[t]) < OpenerLeft(g.pc[t]))
  {
    PcMove(g, t);
  }

  lemma HelpEndsWait(g: Gate, c: Tid, a: Action)
    requires Kept(c, g) && Helps(c, g, a)
    ensures WaitLeft(c, Do(g, a)) < WaitLeft(c, g)
  {
    WhyKept(g, c);
    if c !in g.cv { HolderGoesOn(g, c, a.t); }
  }

  /** Whoever does not help changes neither the sleep nor the holder of mtx. */
  lemma OthersDoNotHelp(g: Gate, c: Tid, a: Action)
    requires Kept(c, g) && ByOneCloser(c, a) && !Helps(c, g, a)
    ensures var g' := Do(g, a);
            && (c in g'.cv <==> c in g.cv)
            && (c !in g.cv ==> g'.mtx == g.mtx && g.mtx.Some? && g.mtx.value in g'.pc && g'.pc[g.mtx.value] == g.pc[g.mtx.value])
  {
    WhyKept(g, c);
  }

  /** What would end the wait still would. */
  lemma HelpStays(g: Gate, c: Tid, a: Action, u: Action)
    requires Kept(c, g) && ByOneCloser(c, u) && Helps(c, g, a) && !Helps(c, g, u)
    ensures Helps(c, Do(g, u), a)
  {
    OthersDoNotHelp(g, c, u);
    if c in g.cv && a.Step? { NotifierStays(g, c, a.t, u); }
  }

  lemma NotifierStays(g: Gate, c: Tid, t: Tid, u: Action)
    requires t in g.pc && g.pc[t].Notify? && u != Step(t)
    ensures t in Do(g, u).pc && Do(g, u).pc[t].Notify?
  {
  }

  // ----- with the history

  function WaitOf(k: Call): H.State -> nat { (s: H.State) => WaitLeft(k.c, s.g) }

  ghost function WithinOf(k: Call): H.State -> bool { (s: H.State) => Within(k, s) }

  function OverOf(k: Call): H.State -> bool { (s: H.State) => Over(k, s) }

  function CanStepOf(k: Call): H.State -> bool { (s: H.State) => CanStep(k.c, s) }

  /** The closer can step, or its call is over. */
  function FreeOf(k: Call): H.State -> bool { (s: H.State) => CanStep(k.c, s) || Over(k, s) }

  function CallLeftOf(k: Call): H.State -> nat { (s: H.State) => CallLeft(k.c, s) }

  /** The steps of all threads, and the expiry of the limit. */
  ghost function StepsAndExpiry(k: Call): set<Action> {
    (set t | t in k.threads :: Step(t)) + {Timeout(k.c)}
  }

  lemma WithinIsKept(k: Call, s: H.State)
    requires Within(k, s) && !FreeOf(k)(s)
    ensures Kept(k.c, s.g)
  {}

  lemma WaitMoves(k: Call, s: H.State, a: Action)
    requires Within(k, s) && !FreeOf(k)(s)
    ensures WaitOf(k)(OneCloser(k.c)(s, a)) <= WaitOf(k)(s)
    ensures WaitOf(k)(OneCloser(k.c)(s, a)) < WaitOf(k)(s) <==> Helps(k.c, s.g, a)
  {
    WithinIsKept(k, s);
    if Helps(k.c, s.g, a) { HelpEndsWait(s.g, k.c, a); }
    else if ByOneCloser(k.c, a) { OthersDoNotHelp(s.g, k.c, a); }
  }

  lemma SomeoneHelps(k: Call, s: H.State) returns (a: Action)
    requires Within(k, s) && !FreeOf(k)(s)
    ensures a in StepsAndExpiry(k) && Helps(k.c, s.g, a)
  {
    WithinIsKept(k, s);
    WhyKept(s.g, k.c);
    a := if k.c in s.g.cv then Timeout(k.c) else Step(s.g.mtx.value);
  }

  lemma WaitIsFair(k: Call)
    ensures RankedUntil(OneCloser(k.c), WithinOf(k), FreeOf(k), WaitOf(k))
    ensures NeverStuck(OneCloser(k.c), WithinOf(k), FreeOf(k), WaitOf(k), StepsAndExpiry(k))
  {
    var step := OneCloser(k.c);
    forall s: H.State, a: Action | Within(k, s) && !FreeOf(k)(s)
      ensures WithinOf(k)(step(s, a)) && WaitOf(k)(step(s, a)) <= WaitOf(k)(s)
      ensures Useful(step, WaitOf(k), s, a) <==> Helps(k.c, s.g, a)
    {
      StaysWithin(s, k, a);
      WaitMoves(k, s, a);
    }
    forall s: H.State, a: Action, u: Action | Within(k, s) && !FreeOf(k)(s) && Useful(step, WaitOf(k), s, a)
                                              && !FreeOf(k)(step(s, u)) && WaitOf(k)(step(s, u)) == WaitOf(k)(s)
      ensures Useful(step, WaitOf(k), step(s, u), a)
    {
      StaysWithin(s, k, u);
      WaitMoves(k, s, u);
      WithinIsKept(k, s);
      if ByOneCloser(k.c, u) { HelpStays(s.g, k.c, a, u); }
      assert Within(k, step(s, u));
    }
    forall s: H.State | Within(k, s) && !FreeOf(k)(s)
      ensures exists a :: a in StepsAndExpiry(k) && Useful(step, WaitOf(k), s, a)
    {
      var a := SomeoneHelps(k, s);
      assert Useful(step, WaitOf(k), s, a);
    }
  }

  /** The call of CloseFor or CloseUntil that is in progress. */
  function Running(s: H.State, c: Tid): Call { Call(c, s.g.pc.Keys, s.h.passed, s.h.gaveUp, s.h.fed.Some?) }

  /** From every reachable state inside CloseFor or CloseUntil every run comes to the call's
      return, counted once as passed or as given up, and as passed if an Open fed it, whatever is
      called meanwhile: if all threads get their steps again and again, the limit expires sooner or later,
      and the closer, which competes for mtx with ever new openers, is not passed over for ever. */
  lemma LimitedCloseReturns(s: H.State, c: Tid, f: nat -> Action) returns (n: nat)
    requires H.Inv(s, c) && Closing(s.g.pc[c]) && s.h.limited
    requires Fair(f, StepsAndExpiry(Running(s, c)))
    requires HappensAgain(OneCloser(c), CanStepOf(Running(s, c)), Step(c), f, s)
    ensures Over(Running(s, c), After(OneCloser(c), f, s, n))
  {
    var k, step := Running(s, c), OneCloser(c);
    forall x: H.State, a: Action | WithinOf(k)(x) && !OverOf(k)(x)
      ensures WithinOf(k)(step(x, a)) && CallLeftOf(k)(step(x, a)) <= CallLeftOf(k)(x)
      ensures a == Step(c) && CanStepOf(k)(x) ==> CallLeftOf(k)(step(x, a)) < CallLeftOf(k)(x)
    {
      StaysWithin(x, k, a);
    }
    forall m: nat | WithinOf(k)(After(step, f, s, m)) && !OverOf(k)(After(step, f, s, m))
      ensures MayFrom(step, CanStepOf(k), f, s, m) || EventuallyFrom(step, OverOf(k), f, s, m)
    {
      WaitIsFair(k);
      var j := FairRunsReach(step, WithinOf(k), FreeOf(k), WaitOf(k), StepsAndExpiry(k), f, s, m);
      assert m <= j && (CanStepOf(k)(After(step, f, s, j)) || OverOf(k)(After(step, f, s, j)));
    }
    n := StronglyFairRunsReach(step, WithinOf(k), OverOf(k), CallLeftOf(k), CanStepOf(k), Step(c), f, s);
  }

  // ----- giving up happens

  /** A call of CloseFor or CloseUntil alone at the gate, up to its sleep. */
  function FallsAsleep(c: Tid, kind: Kind): seq<Action> {
    [CallClose(c, kind), Step(c), Step(c), Step(c), Step(c), Step(c), Step(c)]
  }

  /** Its limit expires, and it returns. */
  function WakesUp(c: Tid): seq<Action> {
    [Timeout(c), Step(c), Step(c), Step(c), Step(c), Step(c)]
  }

  lemma Goes(g: Gate, h: H.History, c: Tid, here: Pc, after: Gate, rest: seq<Action>)
    requires c in g.pc && c in h.current && Enabled(g.At(c, here), c)
    requires after == Effect(g.At(c, here), c, here).(pc := g.pc)
    requires !here.CloseArm? && Closing(here)
    ensures var h' := if here.CloseReturn? then h.Returned() else h;
            Run(H.Do, H.State(g.At(c, here), h), [Step(c)] + rest) == Run(H.Do, H.State(after.At(c, Next(g, here)), h'), rest)
  {
    assert g.At(c, here).At(c, Next(g, here)) == g.At(c, Next(g, here));
    RunCons(H.Do, H.State(g.At(c, here), h), Step(c), rest);
  }

  /** Nobody holds anything or waits. */
  predicate Quiet(g: Gate) { g.mtx == None && g.condVarMutex == None && g.lockMutex == None && g.cv == {} && g.isActivated }

  lemma FindsItActivated(g: Gate, h: H.History, c: Tid, rest: seq<Action>)
    requires c in g.pc && c in h.current && Quiet(g)
    ensures Run(H.Do, H.State(g.At(c, CloseLk), h), [Step(c), Step(c), Step(c)] + rest) ==
            Run(H.Do, H.State(g.(lockMutex := Some(c), mtx := Some(c)).At(c, CloseCvMtx), h), rest)
  {
    var lk := g.(lockMutex := Some(c));
    assert [Step(c), Step(c), Step(c)] + rest == [Step(c)] + ([Step(c)] + ([Step(c)] + rest));
    Goes(g, h, c, CloseLk, lk, [Step(c)] + ([Step(c)] + rest));
    Goes(lk, h, c, CloseMtx, lk.(mtx := Some(c)), [Step(c)] + rest);
    Goes(lk.(mtx := Some(c)), h, c, CloseTest, lk.(mtx := Some(c)), rest);
  }

  lemma GoesToSleep(g: Gate, h: H.History, c: Tid)
    requires c in g.pc && c in h.current && Quiet(g)
    ensures Run(H.Do, H.State(g.(lockMutex := Some(c), mtx := Some(c)).At(c, CloseCvMtx), h), [Step(c), Step(c), Step(c)]) ==
            H.State(g.(condVarMutex := Some(c), cv := {c}).At(c, Asleep), h)
  {
    var lkm := g.(lockMutex := Some(c), mtx := Some(c));
    var lkc := g.(lockMutex := Some(c), condVarMutex := Some(c));
    assert [Step(c), Step(c), Step(c)] == [Step(c)] + ([Step(c)] + ([Step(c)] + []));
    Goes(lkm, h, c, CloseCvMtx, lkm.(condVarMutex := Some(c)), [Step(c)] + ([Step(c)] + []));
    Goes(lkm.(condVarMutex := Some(c)), h, c, CloseUnlockMtx, lkc, [Step(c)] + []);
    Goes(lkc, h, c, CloseWait, g.(condVarMutex := Some(c), cv := {c}), []);
  }

  lemma AloneItFallsAsleep(s: H.State, c: Tid, kind: Kind)
    requires H.Init(s) && c in s.g.pc && kind != Unlimited
    ensures Run(H.Do, s, FallsAsleep(c, kind)) ==
            H.State(s.g.(timed := true, condVarMutex := Some(c), cv := {c}).At(c, Asleep), s.h.(limited := true))
  {
    var g, h, three := s.g.(timed := true), s.h.(limited := true), [Step(c), Step(c), Step(c)];
    assert FallsAsleep(c, kind) == [CallClose(c, kind)] + (three + three);
    RunCons(H.Do, s, CallClose(c, kind), three + three);
    FindsItActivated(g, h, c, three);
    GoesToSleep(g, h, c);
  }

  lemma Expires(g: Gate, h: H.History, c: Tid, rest: seq<Action>)
    requires c in g.pc && c in h.current && Quiet(g) && g.timed
    ensures Run(H.Do, H.State(g.(condVarMutex := Some(c), cv := {c}).At(c, Asleep), h), [Timeout(c), Step(c)] + rest) ==
            Run(H.Do, H.State(g.(condVarMutex := Some(c), lockMutex := Some(c)).At(c, CloseReleaseCv), h), rest)
  {
    var asleep := g.(condVarMutex := Some(c));
    assert [Timeout(c), Step(c)] + rest == [Timeout(c)] + ([Step(c)] + rest);
    RunCons(H.Do, H.State(asleep.(cv := {c}).At(c, Asleep), h), Timeout(c), [Step(c)] + rest);
    assert asleep.(cv := {c}).At(c, Asleep).(cv := {c} - {c}) == asleep.At(c, Asleep);
    Goes(asleep, h, c, Asleep, asleep.(lockMutex := Some(c)), rest);
  }

  lemma TakesMtxAgain(g: Gate, h: H.History, c: Tid, rest: seq<Action>)
    requires c in g.pc && c in h.current && Quiet(g)
    ensures Run(H.Do, H.State(g.(condVarMutex := Some(c), lockMutex := Some(c)).At(c, CloseReleaseCv), h), [Step(c), Step(c)] + rest) ==
            Run(H.Do, H.State(g.(lockMutex := Some(c), mtx := Some(c)).At(c, CloseUnlock), h), rest)
  {
    var lk := g.(lockMutex := Some(c));
    assert [Step(c), Step(c)] + rest == [Step(c)] + ([Step(c)] + rest);
    Goes(lk.(condVarMutex := Some(c)), h, c, CloseReleaseCv, lk, [Step(c)] + rest);
    Goes(lk, h, c, CloseRelock, lk.(mtx := Some(c)), rest);
  }

  lemma ReturnsUnopened(g: Gate, h: H.History, c: Tid)
    requires c in g.pc && c in h.current && Quiet(g) && h.fed == None
    ensures Run(H.Do, H.State(g.(lockMutex := Some(c), mtx := Some(c)).At(c, CloseUnlock), h), [Step(c), Step(c)]) ==
            H.State(g.At(c, Idle), h.(gaveUp := h.gaveUp + 1))
  {
    var lk := g.(lockMutex := Some(c));
    assert [Step(c), Step(c)] == [Step(c)] + ([Step(c)] + []);
    Goes(lk.(mtx := Some(c)), h, c, CloseUnlock, lk, [Step(c)] + []);
    Goes(lk, h, c, CloseReturn, g, []);
  }

  /** Nobody opens: the expiry lets it go, and it returns with the gate activated. */
  lemma AloneItGivesUp(g: Gate, h: H.History, c: Tid)
    requires c in g.pc && c in h.current && Quiet(g) && g.timed && h.fed == None
    ensures Run(H.Do, H.State(g.(condVarMutex := Some(c), cv := {c}).At(c, Asleep), h), WakesUp(c)) ==
            H.State(g.At(c, Idle), h.(gaveUp := h.gaveUp + 1))
  {
    var two := [Step(c), Step(c)];
    assert WakesUp(c) == [Timeout(c), Step(c)] + (two + two);
    Expires(g, h, c, two + two);
    TakesMtxAgain(g, h, c, two);
    ReturnsUnopened(g, h, c);
  }

  /** CloseFor and CloseUntil of a new gate do give up when nobody opens it: they return with the
      gate activated and nothing held. */
  lemma GivingUpIsReachable(init: H.State, c: Tid, kind: Kind)
    requires H.Init(init) && c in init.g.pc && kind != Unlimited
    ensures Run(H.Do, init, FallsAsleep(c, kind) + WakesUp(c)) ==
            H.State(init.g.(timed := true), init.h.(limited := true, gaveUp := 1))
  {
    RunConcat(H.Do, init, FallsAsleep(c, kind), WakesUp(c));
    AloneItFallsAsleep(init, c, kind);
    var g, h := init.g.(timed := true), init.h.(limited := true);
    AloneItGivesUp(g, h, c);
    assert g.At(c, Idle) == g;
  }
}
