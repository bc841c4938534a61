/** Shared vocabulary of the concurrent models: thread names, schedules and counting.

    Every concurrent object below is a step machine.  Its step function is total: an action
    that is blocked, or that its thread is not about to perform, leaves the state alone.  A
    schedule is then any finite sequence of actions, and "for every schedule" ranges over
    every interleaving of every number of threads. */
module Machines {
  type Tid = nat

  /** The state reached from `s` by performing the actions of `schedule` in order. */
  function Run<S, A>(step: (S, A) -> S, s: S, schedule: seq<A>): S
  {
    if schedule == [] then s
    else step(Run(step, s, schedule[..|schedule| - 1]), schedule[|schedule| - 1])
  }

  /** What every step keeps, every schedule keeps. */
  lemma {:induction false} InvariantOfRuns<S(!new), A(!new)>(step: (S, A) -> S, inv: S -> bool, s: S, schedule: seq<A>)
    requires inv(s)
    requires forall s, a :: inv(s) ==> inv(step(s, a))
    ensures inv(Run(step, s, schedule))
  {
    if schedule != [] {
      InvariantOfRuns(step, inv, s, schedule[..|schedule| - 1]);
    }
  }

  /** Running one schedule after another is running their concatenation. */
  lemma {:induction false} RunConcat<S, A>(step: (S, A) -> S, s: S, first: seq<A>, second: seq<A>)
    ensures Run(step, s, first + second) == Run(step, Run(step, s, first), second)
  {
    if second == [] {
      assert first + second == first;
    } else {
      var n := |second| - 1;
      RunConcat(step, s, first, second[..n]);
      assert (first + second)[..|first + second| - 1] == first + second[..n];
    }
  }

  /** One more action at the end of a schedule. */
  lemma RunSnoc<S, A>(step: (S, A) -> S, s: S, schedule: seq<A>, a: A)
    ensures Run(step, s, schedule + [a]) == step(Run(step, s, schedule), a)
  {
    assert (schedule + [a])[..|schedule + [a]| - 1] == schedule;
  }

  /** Every prefix of a schedule is one action longer than the one before. */
  lemma RunPrefixes<S, A>(step: (S, A) -> S, s: S, q: seq<A>)
    ensures Run(step, s, q[..0]) == s
    ensures forall k | 0 <= k < |q| :: Run(step, s, q[..k + 1]) == step(Run(step, s, q[..k]), q[k])
    ensures q[..|q|] == q
  {
    forall k | 0 <= k < |q| ensures Run(step, s, q[..k + 1]) == step(Run(step, s, q[..k]), q[k]) {
      assert q[..k + 1] == q[..k] + [q[k]];
      RunSnoc(step, s, q[..k], q[k]);
    }
  }

  /** A schedule that starts with `a`. */
  lemma RunCons<S, A>(step: (S, A) -> S, s: S, a: A, rest: seq<A>)
    ensures Run(step, s, [a] + rest) == Run(step, step(s, a), rest)
  {
    RunConcat(step, s, [a], rest);
    RunSnoc(step, s, [], a);
    assert [] + [a] == [a];
  }
}

/** Sums of a natural number per thread. */
module Sums {
  import opened Machines

  ghost function Total(m: map<Tid, nat>): nat
    decreases |m|
  {
    if m == map[] then 0
    else
      var k :| k in m;
      m[k] + Total(m - {k})
  }

  lemma {:induction false} TotalSplit(m: map<Tid, nat>, k: Tid)
    requires k in m
    ensures Total(m) == m[k] + Total(m - {k})
    decreases |m|
  {
    var j :| j in m && Total(m) == m[j] + Total(m - {j});
    if j != k {
      TotalSplit(m - {j}, k);
      TotalSplit(m - {k}, j);
      assert m - {j} - {k} == m - {k} - {j};
    }
  }

  /** Changing one thread's number changes the sum by the difference. */
  lemma TotalUpdate(m: map<Tid, nat>, m': map<Tid, nat>, k: Tid)
    requires k in m && m'.Keys == m.Keys
    requires forall j | j in m && j != k :: m'[j] == m[j]
    ensures Total(m') == Total(m) - m[k] + m'[k]
  {
    TotalSplit(m, k);
    TotalSplit(m', k);
    assert m - {k} == m' - {k};
  }
}

/** Progress of step machines under weakly fair scheduling.

    `step(s, t)` lets `t` take its next step, or leaves `s` alone when `t` is blocked; `t` is a
    thread, or an action where a thread has a choice of them.
    A rank that never grows, a useful step in every unfinished state, and usefulness that
    survives the useless steps of other threads together force every fair run to finish. */
module Fairness {
  ghost predicate ScheduledFrom<A>(f: nat -> A, t: A, n: nat) {
    exists m: nat :: n <= m && f(m) == t
  }

  /** Each of them is scheduled again and again. */
  ghost predicate Fair<A(!new)>(f: nat -> A, threads: set<A>) {
    forall t, n: nat | t in threads :: ScheduledFrom(f, t, n)
  }

  ghost function After<S, A>(step: (S, A) -> S, f: nat -> A, s: S, n: nat): S {
    if n == 0 then s else step(After(step, f, s, n - 1), f(n - 1))
  }

  ghost predicate Useful<S, A>(step: (S, A) -> S, rank: S -> nat, s: S, t: A) {
    rank(step(s, t)) < rank(s)
  }

  ghost predicate Ranked<S(!new), A(!new)>(step: (S, A) -> S, inv: S -> bool, rank: S -> nat) {
    && (forall s, t :: inv(s) ==> inv(step(s, t)) && rank(step(s, t)) <= rank(s))
    && (forall s, t, u :: inv(s) && Useful(step, rank, s, t) && rank(step(s, u)) == rank(s) ==>
          Useful(step, rank, step(s, u), t))
  }

  ghost predicate NeverStuck<S(!new), A(!new)>(step: (S, A) -> S, inv: S -> bool, done: S -> bool, rank: S -> nat, threads: set<A>) {
    forall s :: inv(s) && !done(s) ==> exists t :: t in threads && Useful(step, rank, s, t)
  }

  lemma {:induction false} AfterInv<S(!new), A(!new)>(step: (S, A) -> S, inv: S -> bool, rank: S -> nat, f: nat -> A, s: S, n: nat)
    requires Ranked(step, inv, rank) && inv(s)
    ensures inv(After(step, f, s, n))
  {
    if n > 0 {
      AfterInv(step, inv, rank, f, s, n - 1);
    }
  }

  /** What is useful stays useful until the rank falls, at the latest when it is scheduled. */
  lemma {:induction false} FallsBy<S(!new), A(!new)>(step: (S, A) -> S, inv: S -> bool, rank: S -> nat, f: nat -> A, s: S, n: nat, t: A, m: nat)
    returns (k: nat)
    requires Ranked(step, inv, rank) && inv(s)
    requires n <= m && f(m) == t && Useful(step, rank, After(step, f, s, n), t)
    ensures rank(After(step, f, s, k)) < rank(After(step, f, s, n))
    decreases m - n
  {
    AfterInv(step, inv, rank, f, s, n);
    var here, next := After(step, f, s, n), After(step, f, s, n + 1);
    assert next == step(here, f(n));
    if rank(next) < rank(here) {
      k := n + 1;
    } else {
      assert Useful(step, rank, next, t);
      k := FallsBy(step, inv, rank, f, s, n + 1, t, m);
    }
  }

  /** Every weakly fair run reaches a finished state. */
  lemma {:induction false} FairRunsFinish<S(!new), A(!new)>(
      step: (S, A) -> S, inv: S -> bool, done: S -> bool, rank: S -> nat, threads: set<A>, f: nat -> A, s: S, n: nat)
    returns (k: nat)
    requires Ranked(step, inv, rank) && NeverStuck(step, inv, done, rank, threads)
    requires inv(s) && Fair(f, threads)
    ensures done(After(step, f, s, k))
    decreases rank(After(step, f, s, n))
  {
    AfterInv(step, inv, rank, f, s, n);
    var here := After(step, f, s, n);
    if done(here) {
      k := n;
    } else {
      var t :| t in threads && Useful(step, rank, here, t);
      assert ScheduledFrom(f, t, n);
      var m: nat :| n <= m && f(m) == t;
      var j := FallsBy(step, inv, rank, f, s, n, t, m);
      k := FairRunsFinish(step, inv, done, rank, threads, f, s, j);
    }
  }

  /** The schedule without its first `n` steps. */
  ghost function Later<A>(f: nat -> A, n: nat): nat -> A { (m: nat) => f(n + m) }

  /** A run goes on as the run from where it has got to. */
  lemma {:induction false} AfterMore<S, A>(step: (S, A) -> S, f: nat -> A, s: S, n: nat, k: nat)
    ensures After(step, Later(f, n), After(step, f, s, n), k) == After(step, f, s, n + k)
  {
    if k > 0 {
      AfterMore(step, f, s, n, k - 1);
    }
  }

  /** What such a run comes to, the whole run comes to. */
  lemma Rejoin<S, A>(step: (S, A) -> S, post: S -> bool, f: nat -> A, s: S, n: nat, j: nat) returns (k: nat)
    requires post(After(step, Later(f, n), After(step, f, s, n), j))
    ensures n <= k && post(After(step, f, s, k))
  {
    AfterMore(step, f, s, n, j);
    k := n + j;
  }

  lemma FairLater<A(!new)>(f: nat -> A, threads: set<A>, n: nat)
    requires Fair(f, threads)
    ensures Fair(Later(f, n), threads)
  {
    var g := Later(f, n);
    forall t, k: nat | t in threads ensures ScheduledFrom(g, t, k) {
      assert ScheduledFrom(f, t, n + k);
      var m: nat :| n + k <= m && f(m) == t;
      assert g(m - n) == t;
    }
  }

  /** The same from any point of a run at which the invariant holds. */
  lemma FairRunsFinishFrom<S(!new), A(!new)>(
      step: (S, A) -> S, inv: S -> bool, done: S -> bool, rank: S -> nat, threads: set<A>, f: nat -> A, s: S, n: nat)
    returns (k: nat)
    requires Ranked(step, inv, rank) && NeverStuck(step, inv, done, rank, threads)
    requires inv(After(step, f, s, n)) && Fair(f, threads)
    ensures done(After(step, f, s, k)) && inv(After(step, f, s, k))
  {
    FairLater(f, threads, n);
    var later := After(step, f, s, n);
    var j := FairRunsFinish(step, inv, done, rank, threads, Later(f, n), later, 0);
    AfterInv(step, inv, rank, Later(f, n), later, j);
    AfterMore(step, f, s, n, j);
    k := n + j;
  }

  /** What only `t` can end holds when `t` comes to its next step. */
  lemma {:induction false} HoldsUntil<S(!new), A(!new)>(step: (S, A) -> S, inv: S -> bool, t: A, f: nat -> A, s: S, n: nat, next: nat)
    returns (m: nat)
    requires n <= next && f(next) == t && inv(After(step, f, s, n))
    requires forall s, a :: inv(s) && a != t ==> inv(step(s, a))
    ensures n <= m && f(m) == t && inv(After(step, f, s, m))
    decreases next - n
  {
    m := n;
    if f(n) != t {
      m := HoldsUntil(step, inv, t, f, s, n + 1, next);
    }
  }

  /** What only `t` can end leads to what the step of `t` then brings about. */
  lemma LeadsTo<S(!new), A(!new)>(
      step: (S, A) -> S, inv: S -> bool, post: S -> bool, threads: set<A>, t: A, f: nat -> A, s: S, n: nat)
    returns (k: nat)
    requires Fair(f, threads) && t in threads && inv(After(step, f, s, n))
    requires forall s, a :: inv(s) && a != t ==> inv(step(s, a))
    requires forall s :: inv(s) ==> post(step(s, t))
    ensures post(After(step, f, s, k))
  {
    assert ScheduledFrom(f, t, n);
    var next: nat :| n <= next && f(next) == t;
    var m := HoldsUntil(step, inv, t, f, s, n, next);
    k := m + 1;
  }

  /** What every step keeps holds from when it holds first. */
  lemma {:induction false} AfterKeeps<S(!new), A(!new)>(step: (S, A) -> S, inv: S -> bool, f: nat -> A, s: S, n: nat, k: nat)
    requires n <= k && inv(After(step, f, s, n))
    requires forall s, a :: inv(s) ==> inv(step(s, a))
    ensures inv(After(step, f, s, k))
    decreases k
  {
    if n < k {
      AfterKeeps(step, inv, f, s, n, k - 1);
    }
  }

  ghost predicate Eventually<S(!new), A(!new)>(step: (S, A) -> S, inv: S -> bool, f: nat -> A, s: S) {
    exists k: nat :: inv(After(step, f, s, k))
  }

  /** Conditions that every step keeps and that hold at some time, one by one, hold together. */
  lemma {:induction false} AllEventually<S(!new), A(!new)>(step: (S, A) -> S, inv: nat -> S -> bool, f: nat -> A, s: S, n: nat)
    returns (k: nat)
    requires forall i: nat, s, a | i < n :: inv(i)(s) ==> inv(i)(step(s, a))
    requires forall i: nat | i < n :: Eventually(step, inv(i), f, s)
    ensures forall i: nat | i < n :: inv(i)(After(step, f, s, k))
  {
    if n == 0 {
      k := 0;
    } else {
      var before := AllEventually(step, inv, f, s, n - 1);
      assert Eventually(step, inv(n - 1), f, s);
      var there: nat :| inv(n - 1)(After(step, f, s, there));
      k := if before < there then there else before;
      forall i: nat | i < n ensures inv(i)(After(step, f, s, k)) {
        AfterKeeps(step, inv(i), f, s, if i < n - 1 then before else there, k);
      }
    }
  }

  // ----- reaching a state that need not last

  /** The same as `Ranked` and `NeverStuck`, asked for only until `done` holds for the first time. */
  ghost predicate RankedUntil<S(!new), A(!new)>(step: (S, A) -> S, inv: S -> bool, done: S -> bool, rank: S -> nat) {
    && (forall s, t :: inv(s) && !done(s) ==> inv(step(s, t)) && rank(step(s, t)) <= rank(s))
    && (forall s, t, u :: inv(s) && !done(s) && Useful(step, rank, s, t) && !done(step(s, u)) && rank(step(s, u)) == rank(s) ==>
          Useful(step, rank, step(s, u), t))
  }

  lemma {:induction false} FallsOrDone<S(!new), A(!new)>(
      step: (S, A) -> S, inv: S -> bool, done: S -> bool, rank: S -> nat, f: nat -> A, s: S, n: nat, t: A, m: nat)
    returns (k: nat)
    requires RankedUntil(step, inv, done, rank)
    requires inv(After(step, f, s, n)) && !done(After(step, f, s, n))
    requires n <= m && f(m) == t && Useful(step, rank, After(step, f, s, n), t)
    ensures n <= k && inv(After(step, f, s, k))
    ensures done(After(step, f, s, k)) || rank(After(step, f, s, k)) < rank(After(step, f, s, n))
    decreases m - n
  {
    var here, next := After(step, f, s, n), After(step, f, s, n + 1);
    assert next == step(here, f(n));
    if done(next) || rank(next) < rank(here) {
      k := n + 1;
    } else {
      assert Useful(step, rank, next, t);
      k := FallsOrDone(step, inv, done, rank, f, s, n + 1, t, m);
    }
  }

  lemma {:induction false} FairRunsReach<S(!new), A(!new)>(
      step: (S, A) -> S, inv: S -> bool, done: S -> bool, rank: S -> nat, threads: set<A>, f: nat -> A, s: S, n: nat)
    returns (k: nat)
    requires RankedUntil(step, inv, done, rank) && NeverStuck(step, inv, done, rank, threads)
    requires inv(After(step, f, s, n)) && Fair(f, threads)
    ensures n <= k && inv(After(step, f, s, k)) && done(After(step, f, s, k))
    decreases rank(After(step, f, s, n))
  {
    var here := After(step, f, s, n);
    if done(here) {
      k := n;
    } else {
      var t :| t in threads && Useful(step, rank, here, t);
      assert ScheduledFrom(f, t, n);
      var m: nat :| n <= m && f(m) == t;
      var j := FallsOrDone(step, inv, done, rank, f, s, n, t, m);
      k := if done(After(step, f, s, j)) then j else n;
      if !done(After(step, f, s, j)) { k := FairRunsReach(step, inv, done, rank, threads, f, s, j); }
    }
  }

  // ----- ranks that fall sooner or later

  ghost predicate FallsLater<S(!new), A(!new)>(step: (S, A) -> S, rank: S -> nat, f: nat -> A, s: S, n: nat) {
    exists k: nat :: rank(After(step, f, s, k)) < rank(After(step, f, s, n))
  }

  /** A rank that falls again until `done` makes the run come to it. */
  lemma {:induction false} ByRank<S(!new), A(!new)>(step: (S, A) -> S, done: S -> bool, rank: S -> nat, f: nat -> A, s: S, n: nat)
    returns (k: nat)
    requires forall m: nat :: !done(After(step, f, s, m)) ==> FallsLater(step, rank, f, s, m)
    ensures done(After(step, f, s, k))
    decreases rank(After(step, f, s, n))
  {
    k := n;
    if !done(After(step, f, s, n)) {
      assert FallsLater(step, rank, f, s, n);
      var j: nat :| rank(After(step, f, s, j)) < rank(After(step, f, s, n));
      k := ByRank(step, done, rank, f, s, j);
    }
  }

  /** What stays until the rank falls, and makes it fall at time `m` at the latest. */
  lemma {:induction false} FallsWhenTaken<S(!new), A(!new)>(
      step: (S, A) -> S, inv: S -> bool, busy: S -> bool, rank: S -> nat, f: nat -> A, s: S, n: nat, m: nat)
    requires n <= m && inv(After(step, f, s, n)) && busy(After(step, f, s, n))
    requires forall s, a :: inv(s) ==> inv(step(s, a)) && rank(step(s, a)) <= rank(s)
    requires forall s, a :: inv(s) && busy(s) ==> busy(step(s, a)) || rank(step(s, a)) < rank(s)
    requires var there := After(step, f, s, m); inv(there) && busy(there) ==> rank(step(there, f(m))) < rank(there)
    ensures FallsLater(step, rank, f, s, n)
    decreases m - n
  {
    var here, next := After(step, f, s, n), After(step, f, s, n + 1);
    assert next == step(here, f(n));
    if n < m && rank(next) >= rank(here) {
      FallsWhenTaken(step, inv, busy, rank, f, s, n + 1, m);
      var k: nat :| rank(After(step, f, s, k)) < rank(next);
    }
  }

  /** A rank that no step raises is not higher later. */
  lemma {:induction false} NotHigher<S(!new), A(!new)>(step: (S, A) -> S, inv: S -> bool, rank: S -> nat, f: nat -> A, s: S, n: nat, k: nat)
    requires n <= k && inv(After(step, f, s, n))
    requires forall s, a :: inv(s) ==> inv(step(s, a)) && rank(step(s, a)) <= rank(s)
    ensures inv(After(step, f, s, k)) && rank(After(step, f, s, k)) <= rank(After(step, f, s, n))
    decreases k
  {
    if n < k {
      NotHigher(step, inv, rank, f, s, n, k - 1);
    }
  }

  /** Strong fairness: what may happen again and again does happen again. */
  ghost predicate HappensAgain<S(!new), A(!new)>(step: (S, A) -> S, may: S -> bool, t: A, f: nat -> A, s: S) {
    forall n: nat :: MayAgain(step, may, f, s, n) ==> HappensFrom(step, may, t, f, s, n)
  }

  ghost predicate MayFrom<S(!new), A(!new)>(step: (S, A) -> S, may: S -> bool, f: nat -> A, s: S, n: nat) {
    exists m: nat :: n <= m && may(After(step, f, s, m))
  }

  ghost predicate MayAgain<S(!new), A(!new)>(step: (S, A) -> S, may: S -> bool, f: nat -> A, s: S, n: nat) {
    forall m: nat :: n <= m ==> MayFrom(step, may, f, s, m)
  }

  ghost predicate HappensFrom<S(!new), A(!new)>(step: (S, A) -> S, may: S -> bool, t: A, f: nat -> A, s: S, n: nat) {
    exists m: nat :: n <= m && f(m) == t && may(After(step, f, s, m))
  }

  ghost predicate EventuallyFrom<S(!new), A(!new)>(step: (S, A) -> S, done: S -> bool, f: nat -> A, s: S, n: nat) {
    exists k: nat :: n <= k && done(After(step, f, s, k))
  }

  /** The first time at which `done` holds, and what every step keeps until then. */
  lemma {:induction false} FirstTime<S(!new), A(!new)>(step: (S, A) -> S, inv: S -> bool, done: S -> bool, f: nat -> A, s: S, n: nat)
    returns (k: nat)
    requires inv(s) && done(After(step, f, s, n))
    requires forall s, a :: inv(s) && !done(s) ==> inv(step(s, a))
    ensures k <= n && inv(After(step, f, s, k)) && done(After(step, f, s, k))
  {
    if j: nat :| j < n && done(After(step, f, s, j)) {
      k := FirstTime(step, inv, done, f, s, j);
    } else {
      k := n;
      KeptUntil(step, inv, done, f, s, n);
    }
  }

  lemma {:induction false} KeptUntil<S(!new), A(!new)>(step: (S, A) -> S, inv: S -> bool, done: S -> bool, f: nat -> A, s: S, n: nat)
    requires inv(s) && forall j: nat | j < n :: !done(After(step, f, s, j))
    requires forall s, a :: inv(s) && !done(s) ==> inv(step(s, a))
    ensures inv(After(step, f, s, n))
  {
    if n > 0 { KeptUntil(step, inv, done, f, s, n - 1); }
  }

  /** A step that lowers the rank and may be taken again and again, unless the run is done, makes
      the run come to its end when it is given its turn in that strong sense. */
  lemma StronglyFairRunsReach<S(!new), A(!new)>(
      step: (S, A) -> S, inv: S -> bool, done: S -> bool, rank: S -> nat, may: S -> bool, t: A, f: nat -> A, s: S)
    returns (k: nat)
    requires inv(s) && HappensAgain(step, may, t, f, s)
    requires forall s, a :: inv(s) && !done(s) ==> inv(step(s, a)) && rank(step(s, a)) <= rank(s)
    requires forall s :: inv(s) && !done(s) && may(s) ==> rank(step(s, t)) < rank(s)
    requires forall n: nat | inv(After(step, f, s, n)) && !done(After(step, f, s, n)) ::
               MayFrom(step, may, f, s, n) || EventuallyFrom(step, done, f, s, n)
    ensures inv(After(step, f, s, k)) && done(After(step, f, s, k))
  {
    var n := 0;
    if j: nat :| done(After(step, f, s, j)) {
      n := j;
    } else {
      NeverDoneFalls(step, inv, done, rank, may, t, f, s);
      n := ByRank(step, done, rank, f, s, 0);
    }
    k := FirstTime(step, inv, done, f, s, n);
  }

  lemma NeverDoneFalls<S(!new), A(!new)>(
      step: (S, A) -> S, inv: S -> bool, done: S -> bool, rank: S -> nat, may: S -> bool, t: A, f: nat -> A, s: S)
    requires inv(s) && HappensAgain(step, may, t, f, s) && forall n: nat :: !done(After(step, f, s, n))
    requires forall s, a :: inv(s) && !done(s) ==> inv(step(s, a)) && rank(step(s, a)) <= rank(s)
    requires forall s :: inv(s) && !done(s) && may(s) ==> rank(step(s, t)) < rank(s)
    requires forall n: nat | inv(After(step, f, s, n)) && !done(After(step, f, s, n)) ::
               MayFrom(step, may, f, s, n) || EventuallyFrom(step, done, f, s, n)
    ensures forall n: nat :: FallsLater(step, rank, f, s, n)
  {
    forall n: nat ensures FallsLater(step, rank, f, s, n) {
      forall m: nat | n <= m ensures MayFrom(step, may, f, s, m) { KeptUntil(step, inv, done, f, s, m); }
      assert MayAgain(step, may, f, s, n);
      var m: nat :| n <= m && f(m) == t && may(After(step, f, s, m));
      NeverHigher(step, inv, done, rank, f, s, n, m);
      KeptUntil(step, inv, done, f, s, m);
      assert After(step, f, s, m + 1) == step(After(step, f, s, m), f(m));
    }
  }

  lemma {:induction false} NeverHigher<S(!new), A(!new)>(
      step: (S, A) -> S, inv: S -> bool, done: S -> bool, rank: S -> nat, f: nat -> A, s: S, n: nat, k: nat)
    requires n <= k && inv(s) && forall n: nat :: !done(After(step, f, s, n))
    requires forall s, a :: inv(s) && !done(s) ==> inv(step(s, a)) && rank(step(s, a)) <= rank(s)
    ensures rank(After(step, f, s, k)) <= rank(After(step, f, s, n))
    decreases k
  {
    if n < k {
      NeverHigher(step, inv, done, rank, f, s, n, k - 1);
      KeptUntil(step, inv, done, f, s, k - 1);
    }
  }
}
