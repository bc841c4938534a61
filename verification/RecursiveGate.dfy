/** EN_RecursiveThreadGate: a gate that counts its opens.

    `opens` and `closes` count the calls that have unlocked mtx for the last time; no step
    reads them. */
module RecursiveGate {
  import opened Machines
  import opened Options

  datatype Pc =
    | Idle
    | CloseLk | CloseMtx | CloseTest
    | CloseCvMtx | CloseUnlockMtx | CloseWait | Asleep | CloseReleaseCv | CloseRelock
    | CloseTake | CloseUnlock | CloseReturn
    | OpenMtx | OpenTry | OpenRelease
    | Retry | Notify | RetryRelease
    | OpenCount | OpenReturn

  datatype Gate = Gate(
    mtx: Option<Tid>,
    condVarMutex: Option<Tid>,
    lockMutex: Option<Tid>,
    closingAmount: int,
    cv: set<Tid>,
    opens: nat,
    closes: nat,
    pc: map<Tid, Pc>)
  {
    function At(t: Tid, next: Pc): Gate { this.(pc := pc[t := next]) }
  }

  datatype Action = CallClose(t: Tid) | CallOpen(t: Tid) | Step(t: Tid)

  predicate Init(g: Gate) {
    && g.mtx == None && g.condVarMutex == None && g.lockMutex == None && g.closingAmount == 0 && g.cv == {}
    && g.opens == 0 && g.closes == 0
    && forall t | t in g.pc :: g.pc[t] == Idle
  }

  predicate Enabled(g: Gate, t: Tid) {
    && t in g.pc
    && match g.pc[t]
       case Idle => false
       case CloseLk => g.lockMutex == None
       case CloseMtx => g.mtx == None
       case CloseCvMtx => g.condVarMutex == None
       case Asleep => t !in g.cv && g.lockMutex == None
       case CloseRelock => g.mtx == None
       case OpenMtx => g.mtx == None
       case _ => true
  }

  function Next(g: Gate, p: Pc): Pc {
    match p
    case Idle => Idle
    case CloseLk => CloseMtx
    case CloseMtx => CloseTest
    case CloseTest => if g.closingAmount <= 0 then CloseCvMtx else CloseTake
    case CloseCvMtx => CloseUnlockMtx
    case CloseUnlockMtx => CloseWait
    case CloseWait => Asleep
    case Asleep => CloseReleaseCv
    case CloseReleaseCv => CloseRelock
    case CloseRelock => CloseTake
    case CloseTake => CloseUnlock
    case CloseUnlock => CloseReturn
    case CloseReturn => Idle
    case OpenMtx => OpenTry
    case OpenTry => if g.condVarMutex == None then OpenRelease else Retry
    case OpenRelease => OpenCount
    case Retry => if g.condVarMutex == None then RetryRelease else Notify
    case Notify => Retry
    case RetryRelease => OpenCount
    case OpenCount => OpenReturn
    case OpenReturn => Idle
  }

  function Effect(g: Gate, t: Tid, p: Pc): Gate {
    match p
    case CloseLk => g.(lockMutex := Some(t))
    case CloseMtx => g.(mtx := Some(t))
    case CloseCvMtx => g.(condVarMutex := Some(t))
    case CloseUnlockMtx => g.(mtx := None)
    case CloseWait => g.(cv := g.cv + {t}, lockMutex := None)
    case Asleep => g.(lockMutex := Some(t))
    case CloseReleaseCv => g.(condVarMutex := None)
    case CloseRelock => g.(mtx := Some(t))
    case CloseTake => g.(closingAmount := g.closingAmount - 1)
    case CloseUnlock => g.(mtx := None, closes := g.closes + 1)
    case CloseReturn => g.(lockMutex := None)
    case OpenMtx => g.(mtx := Some(t))
    case OpenTry => if g.condVarMutex == None then g.(condVarMutex := Some(t)) else g
    case OpenRelease => g.(condVarMutex := None)
    case Retry => if g.condVarMutex == None then g.(condVarMutex := Some(t)) else g
    case Notify => g.(cv := {})
    case RetryRelease => g.(condVarMutex := None)
    case OpenCount => g.(closingAmount := g.closingAmount + 1)
    case OpenReturn => g.(mtx := None, opens := g.opens + 1)
    case _ => g
  }

  function Take(g: Gate, t: Tid): Gate
    requires Enabled(g, t)
  {
    Effect(g, t, g.pc[t]).(pc := g.pc[t := Next(g, g.pc[t])])
  }

  function Do(g: Gate, a: Action): Gate {
    match a
    case CallClose(t) => if t in g.pc && g.pc[t].Idle? then g.At(t, CloseLk) else g
    case CallOpen(t) => if t in g.pc && g.pc[t].Idle? then g.At(t, OpenMtx) else g
    case Step(t) => if Enabled(g, t) then Take(g, t) else g
  }

  // ----- the invariant, with thread `c` as the only closer

  predicate Closing(p: Pc) {
    || p.CloseLk? || p.CloseMtx? || p.CloseTest? || p.CloseCvMtx? || p.CloseUnlockMtx? || p.CloseWait?
    || p.Asleep? || p.CloseReleaseCv? || p.CloseRelock? || p.CloseTake? || p.CloseUnlock? || p.CloseReturn?
  }

  predicate HoldsMtx(p: Pc) {
    || p.CloseTest? || p.CloseCvMtx? || p.CloseUnlockMtx? || p.CloseTake? || p.CloseUnlock?
    || p.OpenTry? || p.OpenRelease? || p.Retry? || p.Notify? || p.RetryRelease? || p.OpenCount? || p.OpenReturn?
  }

  predicate Covers(p: Pc) {
    p.CloseUnlockMtx? || p.CloseWait? || p.Asleep? || p.CloseReleaseCv?
  }

  predicate HoldsLk(p: Pc) {
    Closing(p) && !p.CloseLk? && !p.Asleep?
  }

  predicate HoldsCv(p: Pc) {
    Covers(p) || p.OpenRelease? || p.RetryRelease?
  }

  /** The opener has met the gate and its increment is still to come. */
  predicate Counting(p: Pc) {
    p.Retry? || p.Notify? || p.RetryRelease? || p.OpenCount?
  }

  predicate CloserOk(g: Gate, c: Tid) {
    c in g.pc && forall t | t in g.pc :: Closing(g.pc[t]) ==> t == c
  }

  predicate MtxOk(g: Gate) {
    && (g.mtx.Some? ==> g.mtx.value in g.pc)
    && forall t | t in g.pc :: HoldsMtx(g.pc[t]) <==> g.mtx == Some(t)
  }

  predicate CvMtxOk(g: Gate) {
    && (g.condVarMutex.Some? ==> g.condVarMutex.value in g.pc)
    && forall t | t in g.pc :: HoldsCv(g.pc[t]) <==> g.condVarMutex == Some(t)
  }

  predicate LkOk(g: Gate, c: Tid) {
    c in g.pc && g.lockMutex == (if HoldsLk(g.pc[c]) then Some(c) else None)
  }

  predicate CvOk(g: Gate, c: Tid) {
    c in g.pc && g.cv <= {c} && (c in g.cv ==> g.pc[c].Asleep?)
  }

  /** The one call, if any, that has changed the amount and not unlocked mtx yet. */
  function Unreturned(g: Gate): int {
    if g.mtx.None? || g.mtx.value !in g.pc then 0
    else if g.pc[g.mtx.value].OpenReturn? then 1
    else if g.pc[g.mtx.value].CloseUnlock? then -1
    else 0
  }

  /** Conservation: the amount is what was opened less what was closed. */
  predicate AmountOk(g: Gate) {
    g.closingAmount == g.opens - g.closes + Unreturned(g) && g.closingAmount >= 0
  }

  /** The closer sleeps only at amount 0, and no increment happens behind its back. */
  predicate SleepOk(g: Gate, c: Tid) {
    && c in g.pc
    && (g.pc[c].CloseCvMtx? || Covers(g.pc[c]) ==> g.closingAmount == 0)
    && (forall t | t in g.pc :: g.pc[t].OpenCount? ==> !Covers(g.pc[c]))
  }

  predicate Woken(g: Gate, c: Tid) {
    c in g.pc && ((g.pc[c].Asleep? && c !in g.cv) || g.pc[c].CloseReleaseCv? || g.pc[c].CloseRelock?)
  }

  /** A woken closer may decrement without looking: an increment precedes it. */
  predicate WokenOk(g: Gate, c: Tid) {
    && (Woken(g, c) ==> g.closingAmount >= 1 || (g.mtx.Some? && g.mtx.value in g.pc && Counting(g.pc[g.mtx.value])))
    && (c in g.pc && g.pc[c].CloseTake? ==> g.closingAmount >= 1)
  }

  predicate Inv(g: Gate, c: Tid) {
    CloserOk(g, c) && MtxOk(g) && CvMtxOk(g) && LkOk(g, c) && CvOk(g, c) && AmountOk(g) && SleepOk(g, c) && WokenOk(g, c)
  }

  predicate ByOneCloser(c: Tid, a: Action) {
    a.CallClose? ==> a.t == c
  }

  lemma PcMove(g: Gate, t: Tid)
    requires Enabled(g, t)
    ensures Take(g, t).pc == g.pc[t := Next(g, g.pc[t])]
  {
  }

  lemma TakeKeepsCloser(g: Gate, c: Tid, t: Tid)
    requires CloserOk(g, c) && Enabled(g, t)
    ensures CloserOk(Take(g, t), c)
  {
  }

  lemma TakeKeepsMtx(g: Gate, t: Tid)
    requires MtxOk(g) && Enabled(g, t)
    ensures MtxOk(Take(g, t))
  {
  }

  lemma TakeKeepsCvMtx(g: Gate, t: Tid)
    requires CvMtxOk(g) && Enabled(g, t)
    ensures CvMtxOk(Take(g, t))
  {
  }

  lemma TakeKeepsLk(g: Gate, c: Tid, t: Tid)
    requires CloserOk(g, c) && LkOk(g, c) && Enabled(g, t)
    ensures LkOk(Take(g, t), c)
  {
  }

  lemma TakeKeepsCv(g: Gate, c: Tid, t: Tid)
    requires CloserOk(g, c) && CvOk(g, c) && Enabled(g, t)
    ensures CvOk(Take(g, t), c)
  {
  }

  lemma TakeKeepsAmount(g: Gate, c: Tid, t: Tid)
    requires Inv(g, c) && Enabled(g, t)
    ensures AmountOk(Take(g, t))
  {
  }

  lemma TakeKeepsSleep(g: Gate, c: Tid, t: Tid)
    requires Inv(g, c) && Enabled(g, t)
    ensures SleepOk(Take(g, t), c)
  {
  }

  lemma TakeKeepsWoken(g: Gate, c: Tid, t: Tid)
    requires Inv(g, c) && Enabled(g, t)
    ensures WokenOk(Take(g, t), c)
  {
  }

  lemma TakeKeepsInv(g: Gate, c: Tid, t: Tid)
    requires Inv(g, c) && Enabled(g, t)
    ensures Inv(Take(g, t), c)
  {
    TakeKeepsCloser(g, c, t);
    TakeKeepsMtx(g, t);
    TakeKeepsCvMtx(g, t);
    TakeKeepsLk(g, c, t);
    TakeKeepsCv(g, c, t);
    TakeKeepsAmount(g, c, t);
    TakeKeepsSleep(g, c, t);
    TakeKeepsWoken(g, c, t);
  }

  lemma CallKeepsInv(g: Gate, c: Tid, t: Tid, entry: Pc)
    requires Inv(g, c) && t in g.pc && g.pc[t].Idle?
    requires entry.OpenMtx? || (entry.CloseLk? && t == c)
    ensures Inv(g.At(t, entry), c)
  {
    var g' := g.At(t, entry);
    assert MtxOk(g') && CvMtxOk(g');
    assert AmountOk(g') && SleepOk(g', c) && WokenOk(g', c);
  }

  lemma DoKeepsInv(g: Gate, c: Tid, a: Action)
    requires Inv(g, c) && ByOneCloser(c, a)
    ensures Inv(Do(g, a), c)
  {
    match a
    case CallClose(t) => if t in g.pc && g.pc[t].Idle? { CallKeepsInv(g, c, t, CloseLk); }
    case CallOpen(t) => if t in g.pc && g.pc[t].Idle? { CallKeepsInv(g, c, t, OpenMtx); }
    case Step(t) => if Enabled(g, t) { TakeKeepsInv(g, c, t); }
  }

  function OneCloser(c: Tid): (Gate, Action) -> Gate {
    (g: Gate, a: Action) => if ByOneCloser(c, a) then Do(g, a) else g
  }

  /** One closer, any number of openers, any interleaving: whenever mtx is free the amount is
      the number of opens less the number of closes, so there are never more closes than
      opens, and the closer sleeps only while they are equal. */
  lemma CountsOpens(init: Gate, schedule: seq<Action>, c: Tid)
    requires Init(init) && c in init.pc
    ensures var g := Run(OneCloser(c), init, schedule);
            && Inv(g, c)
            && g.closingAmount >= 0
            && (g.mtx == None ==> g.closingAmount == g.opens - g.closes)
            && (c in g.cv && g.mtx == None ==> g.opens == g.closes)
  {
    var step, inv := OneCloser(c), (g: Gate) => Inv(g, c);
    forall g: Gate, a: Action | inv(g) ensures inv(step(g, a)) {
      if ByOneCloser(c, a) { DoKeepsInv(g, c, a); }
    }
    InvariantOfRuns(step, inv, init, schedule);
  }

  /** An Open counts from its attempt to take condVarMutex on, though it adds to the amount later. */
  predicate Counted(p: Pc) {
    p.OpenRelease? || Counting(p)
  }

  /** The value of the semaphore. */
  function Abs(g: Gate): int {
    g.closingAmount + (if g.mtx.Some? && g.mtx.value in g.pc && Counted(g.pc[g.mtx.value]) then 1 else 0)
  }

  lemma StepRefines(g: Gate, c: Tid, t: Tid)
    requires Inv(g, c) && Enabled(g, t)
    ensures Abs(Take(g, t)) == Abs(g) + (if g.pc[t].OpenTry? then 1 else if g.pc[t].CloseTake? then -1 else 0)
  {
    PcMove(g, t);
    assert HoldsMtx(g.pc[t]) ==> g.mtx == Some(t);
  }

  lemma CallsDoNotShow(g: Gate, c: Tid, t: Tid, entry: Pc)
    requires Inv(g, c) && t in g.pc && g.pc[t].Idle? && (entry.OpenMtx? || entry.CloseLk?)
    ensures Abs(g.At(t, entry)) == Abs(g)
  {}

  /** Refinement of a counting semaphore: its value grows by one at the attempt of an Open, falls
      by one, from a positive value, when the closer takes, and changes at no other step.  The
      closer is let to sleep only at value 0, and once it is woken the value is positive. */
  lemma RefinesSemaphore(g: Gate, c: Tid, a: Action)
    requires Inv(g, c) && ByOneCloser(c, a)
    ensures var up := a.Step? && a.t in g.pc && g.pc[a.t].OpenTry?;
            var down := a == Step(c) && g.pc[c].CloseTake?;
            && Abs(Do(g, a)) == Abs(g) + (if up then 1 else if down then -1 else 0)
            && (down ==> Abs(g) > 0)
    ensures Abs(g) >= 0
    ensures g.pc[c].CloseUnlockMtx? ==> Abs(g) == 0
    ensures Woken(g, c) || g.pc[c].CloseTake? ==> Abs(g) > 0
  {
    match a
    case CallClose(t) => if t in g.pc && g.pc[t].Idle? { CallsDoNotShow(g, c, t, CloseLk); }
    case CallOpen(t) => if t in g.pc && g.pc[t].Idle? { CallsDoNotShow(g, c, t, OpenMtx); }
    case Step(t) => if Enabled(g, t) { StepRefines(g, c, t); }
  }
}
