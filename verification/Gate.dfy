/** EN_ThreadGate and EN_TimeThreadGate.

    The two classes share the code of Close and Open; the timed one adds closing with a time
    limit and OpenIfClosed.  One machine models both: EN_ThreadGate is the machine without
    `CallOpenIfClosed`, `Timeout` and timed calls.  One step is one operation on a mutex, on
    the flag or on the condition variable.  Waiting releases lockMutex and takes it again. */
module Gate {
  import opened Machines
  import opened Options

  datatype Pc =
    | Idle
    // Close, CloseFor, CloseUntil
    | CloseLk | CloseMtx | CloseTest | CloseArm
    | CloseCvMtx | CloseUnlockMtx | CloseWait | Asleep | CloseReleaseCv | CloseRelock
    | CloseUnlock | CloseReturn
    // Open
    | OpenMtx | OpenTry | OpenClear | OpenRelease
    // OpenIfClosed: the first attempt of its loop
    | IfClosedMtx | IfClosedTry
    // the loop of both, and their common end
    | Retry | Notify | RetryRelease | OpenReturn

  datatype Gate = Gate(
    mtx: Option<Tid>,
    condVarMutex: Option<Tid>,
    lockMutex: Option<Tid>,
    isActivated: bool,
    cv: set<Tid>,
    timed: bool,
    pc: map<Tid, Pc>)
  {
    function At(t: Tid, next: Pc): Gate { this.(pc := pc[t := next]) }
  }

  /** Close, CloseFor and CloseUntil: the last two have a time limit. */
  datatype Kind = Unlimited | ForDuration | UntilTime

  datatype Action =
    | CallClose(t: Tid, kind: Kind) | CallOpen(t: Tid) | CallOpenIfClosed(t: Tid)
    | Step(t: Tid)
    | Timeout(t: Tid)

  predicate Init(g: Gate) {
    && g.mtx == None && g.condVarMutex == None && g.lockMutex == None && g.isActivated && g.cv == {}
    && forall t | t in g.pc :: g.pc[t] == Idle
  }

  predicate Enabled(g: Gate, t: Tid) {
    && t in g.pc
    && match g.pc[t]
       case Idle => false
       case CloseLk => g.lockMutex == None
       case CloseMtx => g.mtx == None
       case CloseCvMtx => g.condVarMutex == None
       case Asleep => t !in g.cv && g.lockMutex == None
       case CloseRelock => g.mtx == None
       case OpenMtx => g.mtx == None
       case IfClosedMtx => g.mtx == None
       case _ => true
  }

  /** Where thread control goes from `p`.  `try_lock` succeeds exactly when the mutex is free. */
  function Next(g: Gate, p: Pc): Pc {
    match p
    case Idle => Idle
    case CloseLk => CloseMtx
    case CloseMtx => CloseTest
    case CloseTest => if g.isActivated then CloseCvMtx else CloseArm
    case CloseArm => CloseUnlock
    case CloseCvMtx => CloseUnlockMtx
    case CloseUnlockMtx => CloseWait
    case CloseWait => Asleep
    case Asleep => CloseReleaseCv
    case CloseReleaseCv => CloseRelock
    case CloseRelock => CloseUnlock
    case CloseUnlock => CloseReturn
    case CloseReturn => Idle
    case OpenMtx => OpenTry
    case OpenTry => if g.condVarMutex == None then OpenClear else Retry
    case OpenClear => OpenRelease
    case OpenRelease => OpenReturn
    case IfClosedMtx => IfClosedTry
    case IfClosedTry => if g.condVarMutex == None then RetryRelease else Notify
    case Retry => if g.condVarMutex == None then RetryRelease else Notify
    case Notify => Retry
    case RetryRelease => OpenReturn
    case OpenReturn => Idle
  }

  /** What the operation at `p` does to the shared fields. */
  function Effect(g: Gate, t: Tid, p: Pc): Gate {
    match p
    case CloseLk => g.(lockMutex := Some(t))
    case CloseMtx => g.(mtx := Some(t))
    case CloseArm => g.(isActivated := true)
    case CloseCvMtx => g.(condVarMutex := Some(t))
    case CloseUnlockMtx => g.(mtx := None)
    case CloseWait => g.(cv := g.cv + {t}, lockMutex := None)
    case Asleep => g.(lockMutex := Some(t))
    case CloseReleaseCv => g.(condVarMutex := None)
    case CloseRelock => g.(mtx := Some(t))
    case CloseUnlock => g.(mtx := None)
    case CloseReturn => g.(lockMutex := None)
    case OpenMtx => g.(mtx := Some(t))
    case OpenTry => if g.condVarMutex == None then g.(condVarMutex := Some(t)) else g
    case OpenClear => g.(isActivated := false)
    case OpenRelease => g.(condVarMutex := None)
    case IfClosedMtx => g.(mtx := Some(t))
    case IfClosedTry => if g.condVarMutex == None then g.(condVarMutex := Some(t)) else g
    case Retry => if g.condVarMutex == None then g.(condVarMutex := Some(t)) else g
    case Notify => g.(cv := {})
    case RetryRelease => g.(condVarMutex := None)
    case OpenReturn => g.(mtx := None)
    case _ => g
  }

  function Take(g: Gate, t: Tid): Gate
    requires Enabled(g, t)
  {
    Effect(g, t, g.pc[t]).(pc := g.pc[t := Next(g, g.pc[t])])
  }

  /** A call is begun by an idle thread; a wait with a time limit can end without a notification. */
  predicate Possible(g: Gate, a: Action) {
    match a
    case Step(t) => Enabled(g, t)
    case Timeout(t) => t in g.pc && g.pc[t].Asleep? && t in g.cv && g.timed
    case _ => a.t in g.pc && g.pc[a.t].Idle?
  }

  function Do(g: Gate, a: Action): Gate {
    if !Possible(g, a) then g
    else
      match a
      case CallClose(t, kind) => g.(timed := !kind.Unlimited?).At(t, CloseLk)
      case CallOpen(t) => g.At(t, OpenMtx)
      case CallOpenIfClosed(t) => g.At(t, IfClosedMtx)
      case Step(t) => Take(g, t)
      case Timeout(t) => g.(cv := g.cv - {t})
  }

  // ----- the invariant, with thread `c` as the only closer

  predicate Closing(p: Pc) {
    || p.CloseLk? || p.CloseMtx? || p.CloseTest? || p.CloseArm? || p.CloseCvMtx? || p.CloseUnlockMtx?
    || p.CloseWait? || p.Asleep? || p.CloseReleaseCv? || p.CloseRelock? || p.CloseUnlock? || p.CloseReturn?
  }

  predicate HoldsMtx(p: Pc) {
    || p.CloseTest? || p.CloseArm? || p.CloseCvMtx? || p.CloseUnlockMtx? || p.CloseUnlock?
    || p.OpenTry? || p.OpenClear? || p.OpenRelease? || p.IfClosedTry? || p.Retry? || p.Notify? || p.RetryRelease? || p.OpenReturn?
  }

  /** The closer holds condVarMutex from before it sleeps until it is awake. */
  predicate Covers(p: Pc) {
    p.CloseUnlockMtx? || p.CloseWait? || p.Asleep? || p.CloseReleaseCv?
  }

  predicate HoldsCv(p: Pc) {
    Covers(p) || p.OpenClear? || p.OpenRelease? || p.RetryRelease?
  }

  predicate HoldsLk(p: Pc) {
    Closing(p) && !p.CloseLk? && !p.Asleep?
  }

  predicate CloserOk(g: Gate, c: Tid) {
    c in g.pc && forall t | t in g.pc :: Closing(g.pc[t]) ==> t == c
  }

  predicate MtxOk(g: Gate) {
    && (g.mtx.Some? ==> g.mtx.value in g.pc)
    && forall t | t in g.pc :: HoldsMtx(g.pc[t]) <==> g.mtx == Some(t)
  }

  predicate CvMtxOk(g: Gate) {
    && (g.condVarMutex.Some? ==> g.condVarMutex.value in g.pc)
    && forall t | t in g.pc :: HoldsCv(g.pc[t]) <==> g.condVarMutex == Some(t)
  }

  predicate LkOk(g: Gate, c: Tid) {
    c in g.pc && g.lockMutex == (if HoldsLk(g.pc[c]) then Some(c) else None)
  }

  predicate CvOk(g: Gate, c: Tid) {
    c in g.pc && g.cv <= {c} && (c in g.cv ==> g.pc[c].Asleep?)
  }

  /** A closer that found the gate activated keeps it so until condVarMutex is free again. */
  predicate ActiveOk(g: Gate, c: Tid) {
    && c in g.pc
    && (g.pc[c].CloseCvMtx? || Covers(g.pc[c]) ==> g.isActivated)
    && (g.pc[c].CloseArm? ==> !g.isActivated)
  }

  predicate Inv(g: Gate, c: Tid) {
    CloserOk(g, c) && MtxOk(g) && CvMtxOk(g) && LkOk(g, c) && CvOk(g, c) && ActiveOk(g, c)
  }

  lemma InitInv(g: Gate, c: Tid)
    requires Init(g) && c in g.pc
    ensures Inv(g, c)
  {
  }

  /** The calls that keep to one closer. */
  predicate ByOneCloser(c: Tid, a: Action) {
    a.CallClose? ==> a.t == c
  }

  lemma PcMove(g: Gate, t: Tid)
    requires Enabled(g, t)
    ensures Take(g, t).pc == g.pc[t := Next(g, g.pc[t])]
  {
  }

  lemma TakeKeepsCloser(g: Gate, c: Tid, t: Tid)
    requires CloserOk(g, c) && Enabled(g, t)
    ensures CloserOk(Take(g, t), c)
  {
  }

  lemma TakeKeepsMtx(g: Gate, t: Tid)
    requires MtxOk(g) && Enabled(g, t)
    ensures MtxOk(Take(g, t))
  {
  }

  lemma TakeKeepsCvMtx(g: Gate, t: Tid)
    requires CvMtxOk(g) && Enabled(g, t)
    ensures CvMtxOk(Take(g, t))
  {
  }

  lemma TakeKeepsLk(g: Gate, c: Tid, t: Tid)
    requires CloserOk(g, c) && LkOk(g, c) && Enabled(g, t)
    ensures LkOk(Take(g, t), c)
  {
  }

  lemma TakeKeepsCv(g: Gate, c: Tid, t: Tid)
    requires CloserOk(g, c) && CvOk(g, c) && Enabled(g, t)
    ensures CvOk(Take(g, t), c)
  {
  }

  lemma TakeKeepsActive(g: Gate, c: Tid, t: Tid)
    requires Inv(g, c) && Enabled(g, t)
    ensures ActiveOk(Take(g, t), c)
  {
  }

  lemma TakeKeepsInv(g: Gate, c: Tid, t: Tid)
    requires Inv(g, c) && Enabled(g, t)
    ensures Inv(Take(g, t), c)
  {
    TakeKeepsCloser(g, c, t);
    TakeKeepsMtx(g, t);
    TakeKeepsCvMtx(g, t);
    TakeKeepsLk(g, c, t);
    TakeKeepsCv(g, c, t);
    TakeKeepsActive(g, c, t);
  }

  lemma CallKeepsInv(g: Gate, c: Tid, t: Tid, entry: Pc, timed: bool)
    requires Inv(g, c) && t in g.pc && g.pc[t].Idle?
    requires entry.OpenMtx? || entry.IfClosedMtx? || (entry.CloseLk? && t == c)
    ensures Inv(g.(timed := timed).At(t, entry), c)
  {
  }

  lemma TimeoutKeepsInv(g: Gate, c: Tid, t: Tid)
    requires Inv(g, c)
    ensures Inv(g.(cv := g.cv - {t}), c)
  {
  }

  lemma DoKeepsInv(g: Gate, c: Tid, a: Action)
    requires Inv(g, c) && ByOneCloser(c, a)
    ensures Inv(Do(g, a), c)
  {
    if Possible(g, a) {
      match a
      case CallClose(t, kind) => CallKeepsInv(g, c, t, CloseLk, !kind.Unlimited?);
      case CallOpen(t) => CallKeepsInv(g, c, t, OpenMtx, g.timed);
      case CallOpenIfClosed(t) => CallKeepsInv(g, c, t, IfClosedMtx, g.timed);
      case Step(t) => TakeKeepsInv(g, c, t);
      case Timeout(t) => TimeoutKeepsInv(g, c, t);
    }
  }
}
