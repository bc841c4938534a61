/** The four scanners have one meaning. */
module ScannerTheorems {
  import opened Options
  import opened Sockets
  import opened Scanners

  // ----- which places are cut

  /** Places that do not overlap, such that every place overlaps one of them from the left. */
  ghost predicate Leftmost(places: set<nat>, width: nat, from: nat, cuts: seq<nat>) {
    Among(places, from, cuts) && Apart(width, cuts) && CoversAll(places, width, from, cuts)
  }

  ghost predicate Covered(width: nat, cuts: seq<nat>, j: nat) {
    exists k :: 0 <= k < |cuts| && cuts[k] <= j < cuts[k] + width
  }

  lemma HeadAndTail(q: seq<nat>, head: nat, tail: seq<nat>)
    requires q != []
    ensures q == [head] + tail <==> q[0] == head && q[1..] == tail
  {
    assert q == [q[0]] + q[1..];
  }

  lemma NothingAbove(places: set<nat>, width: nat, length: nat, from: nat, cuts: seq<nat>)
    requires length <= from && forall j | j in places :: j < length
    ensures Leftmost(places, width, from, cuts) <==> cuts == []
  {
    if cuts != [] { assert cuts[0] in places ==> cuts[0] < length; }
  }

  lemma SomethingAbove(places: set<nat>, width: nat, from: nat)
    requires from in places
    ensures !Leftmost(places, width, from, [])
  {
    assert !Covered(width, [], from);
  }

  /** Going up greedily is the only leftmost choice. */
  lemma {:induction false} GreedyIsLeftmost(places: set<nat>, width: nat, length: nat, from: nat, cuts: seq<nat>)
    requires width > 0 && forall j | j in places :: j < length
    ensures Leftmost(places, width, from, cuts) <==> cuts == Greedy(places, width, length, from)
    decreases length - from
  {
    if from >= length {
      NothingAbove(places, width, length, from, cuts);
    } else if from !in places {
      GreedyIsLeftmost(places, width, length, from + 1, cuts);
      LaterStart(places, width, from, cuts);
    } else if cuts == [] {
      SomethingAbove(places, width, from);
    } else {
      GreedyIsLeftmost(places, width, length, from + width, cuts[1..]);
      FirstCut(places, width, from, cuts);
      HeadAndTail(cuts, from, Greedy(places, width, length, from + width));
    }
  }

  lemma LaterStart(places: set<nat>, width: nat, from: nat, cuts: seq<nat>)
    requires from !in places
    ensures Leftmost(places, width, from, cuts) <==> Leftmost(places, width, from + 1, cuts)
  {}

  ghost predicate Among(places: set<nat>, from: nat, cuts: seq<nat>) {
    forall k | 0 <= k < |cuts| :: cuts[k] in places && from <= cuts[k]
  }

  ghost predicate Apart(width: nat, cuts: seq<nat>) {
    forall k, l | 0 <= k < l < |cuts| :: cuts[k] + width <= cuts[l]
  }

  ghost predicate CoversAll(places: set<nat>, width: nat, from: nat, cuts: seq<nat>) {
    forall j | j in places && from <= j :: Covered(width, cuts, j)
  }

  lemma FirstCut(places: set<nat>, width: nat, from: nat, cuts: seq<nat>)
    requires width > 0 && cuts != [] && from in places
    ensures Leftmost(places, width, from, cuts) <==> cuts[0] == from && Leftmost(places, width, from + width, cuts[1..])
  {
    if Leftmost(places, width, from, cuts) { WithoutTheFirst(places, width, from, cuts); }
    if cuts[0] == from && Leftmost(places, width, from + width, cuts[1..]) {
      WithTheFirst(places, width, from, cuts[1..]);
      assert cuts == [from] + cuts[1..];
    }
  }

  lemma CoveredLater(width: nat, first: nat, later: seq<nat>, j: nat)
    ensures Covered(width, [first] + later, j) <==> first <= j < first + width || Covered(width, later, j)
  {
    var cuts := [first] + later;
    if Covered(width, cuts, j) {
      var k :| 0 <= k < |cuts| && cuts[k] <= j < cuts[k] + width;
      assert k > 0 ==> later[k - 1] == cuts[k];
    }
    if Covered(width, later, j) {
      var k :| 0 <= k < |later| && later[k] <= j < later[k] + width;
      assert cuts[k + 1] == later[k];
    }
    if first <= j < first + width { assert cuts[0] == first; }
  }

  lemma FirstApart(width: nat, first: nat, later: seq<nat>)
    requires Apart(width, later) && forall k | 0 <= k < |later| :: first + width <= later[k]
    ensures Apart(width, [first] + later)
  {
    var cuts := [first] + later;
    forall k, l | 0 <= k < l < |cuts| ensures cuts[k] + width <= cuts[l] {
      assert cuts[l] == later[l - 1];
      if k > 0 { assert cuts[k] == later[k - 1]; }
    }
  }

  lemma WithTheFirst(places: set<nat>, width: nat, from: nat, later: seq<nat>)
    requires width > 0 && from in places && Leftmost(places, width, from + width, later)
    ensures Leftmost(places, width, from, [from] + later)
  {
    var cuts := [from] + later;
    forall k | 0 <= k < |cuts| ensures cuts[k] in places && from <= cuts[k] && (k > 0 ==> from + width <= cuts[k]) {
      if k > 0 { assert cuts[k] == later[k - 1]; }
    }
    assert Among(places, from, cuts);
    FirstApart(width, from, later);
    forall j | j in places && from <= j ensures Covered(width, [from] + later, j) { CoveredLater(width, from, later, j); }
  }

  lemma WithoutTheFirst(places: set<nat>, width: nat, from: nat, cuts: seq<nat>)
    requires width > 0 && cuts != [] && from in places && Leftmost(places, width, from, cuts)
    ensures cuts[0] == from && Leftmost(places, width, from + width, cuts[1..])
  {
    assert Covered(width, cuts, from);
    var later := cuts[1..];
    assert cuts == [from] + later;
    forall j | j in places && from + width <= j ensures Covered(width, later, j) { CoveredLater(width, from, later, j); }
  }

  /** FindAllOccurrences gives the only leftmost choice of non-overlapping occurrences. */
  lemma CutsAreLeftmost(s: Text, sep: Text, cuts: seq<nat>)
    requires sep != []
    ensures cuts == Cuts(s, sep, 0) <==> Leftmost(Places(s, sep), |sep|, 0, cuts)
  {
    GreedyIsLeftmost(Places(s, sep), |sep|, |s|, 0, cuts);
  }

  /** Every occurrence is found exactly when no two overlap; the documentation promises it always. */
  lemma AllFoundWhenApart(s: Text, sep: Text)
    requires sep != []
    ensures (forall j | j in Places(s, sep) :: j in Cuts(s, sep, 0)) <==> NoOverlap(Places(s, sep), |sep|)
  {
    CutsAreLeftmost(s, sep, Cuts(s, sep, 0));
    AllChosenWhenApart(Places(s, sep), |sep|, Cuts(s, sep, 0));
  }

  ghost predicate NoOverlap(places: set<nat>, width: nat) {
    forall i, j | i in places && j in places && i < j :: i + width <= j
  }

  lemma ChosenWhenApart(places: set<nat>, width: nat, cuts: seq<nat>, j: nat)
    requires Among(places, 0, cuts) && CoversAll(places, width, 0, cuts) && NoOverlap(places, width) && j in places
    ensures j in cuts
  {
    assert Covered(width, cuts, j);
    var k :| 0 <= k < |cuts| && cuts[k] <= j < cuts[k] + width;
    assert cuts[k] in places;
  }

  lemma ApartWhenChosen(width: nat, cuts: seq<nat>, i: nat, j: nat)
    requires Apart(width, cuts) && i in cuts && j in cuts && i < j
    ensures i + width <= j
  {
    var k :| 0 <= k < |cuts| && cuts[k] == i;
    var l :| 0 <= l < |cuts| && cuts[l] == j;
    assert l < k ==> cuts[l] + width <= cuts[k];
    assert k < l ==> cuts[k] + width <= cuts[l];
  }

  lemma AllChosenWhenApart(places: set<nat>, width: nat, cuts: seq<nat>)
    requires Leftmost(places, width, 0, cuts)
    ensures (forall j | j in places :: j in cuts) <==> NoOverlap(places, width)
  {
    if NoOverlap(places, width) {
      forall j | j in places ensures j in cuts { ChosenWhenApart(places, width, cuts, j); }
    }
    if forall j | j in places :: j in cuts {
      forall i, j | i in places && j in places && i < j ensures i + width <= j { ApartWhenChosen(width, cuts, i, j); }
    }
  }

  lemma CutOccurs(s: Text, sep: Text, k: nat)
    requires sep != [] && k < |Cuts(s, sep, 0)|
    ensures Occurs(s, sep, Cuts(s, sep, 0)[k])
    ensures forall l | 0 <= l < |Cuts(s, sep, 0)| && l != k ::
              if l < k then Cuts(s, sep, 0)[l] + |sep| <= Cuts(s, sep, 0)[k] else Cuts(s, sep, 0)[k] + |sep| <= Cuts(s, sep, 0)[l]
  {
    CutsAreLeftmost(s, sep, Cuts(s, sep, 0));
    assert Cuts(s, sep, 0)[k] in Places(s, sep);
  }

  // ----- joining restores the string

  /** The last cut takes the terminator for the end of the separator. */
  predicate TakesTerminator(s: Text, sep: Text, i: nat) {
    var cuts := Cuts(s, sep, i);
    cuts != [] && cuts[|cuts| - 1] + |sep| > |s|
  }

  function Nul(taken: bool): Text { if taken then [0] else [] }

  lemma CutOut(s: Text, sep: Text, start: nat, i: nat)
    requires start <= i && Occurs(s, sep, i)
    ensures Slice(s, start, i) + sep + Slice(s, i + |sep|, |s|) == Slice(s, start, |s|) + Nul(i + |sep| > |s|)
  {
    var t, n := s + [0], i + |sep|;
    assert t[start..i] + t[i..n] + t[n..] == t[start..];
    assert t[i..n] == sep && s[start..i] == t[start..i] && t[start..] == s[start..] + [0];
    if n <= |s| {
      assert t[n..] == s[n..] + [0];
      assert (s[start..i] + sep + s[n..]) + [0] == s[start..] + [0];
      SameWithoutLast(s[start..i] + sep + s[n..], s[start..]);
    }
  }

  lemma SameWithoutLast(a: Text, b: Text)
    requires a + [0] == b + [0]
    ensures a == b
  {
    assert a == (a + [0])[..|a + [0]| - 1];
    assert b == (b + [0])[..|b + [0]| - 1];
  }

  lemma TakenLater(s: Text, sep: Text, i: nat)
    requires Occurs(s, sep, i)
    ensures TakesTerminator(s, sep, i) <==> i + |sep| > |s| || TakesTerminator(s, sep, i + |sep|)
    ensures i + |sep| > |s| ==> !TakesTerminator(s, sep, i + |sep|)
  {
    CutsAt(s, sep, i);
  }

  lemma Assemble(a: Text, sep: Text, later: Text, b: Text, rest: Text, whole: Text, end: Text)
    requires later == b + rest && a + sep + b == whole + end && (end == [] || rest == [])
    ensures a + sep + later == whole + (end + rest)
  {
    assert a + sep + later == (a + sep + b) + rest;
  }

  lemma JoinStep(s: Text, sep: Text, start: nat, i: nat, later: Text)
    requires start <= i && Occurs(s, sep, i)
    requires later == Slice(s, i + |sep|, |s|) + Nul(TakesTerminator(s, sep, i + |sep|))
    ensures Slice(s, start, i) + sep + later == Slice(s, start, |s|) + Nul(TakesTerminator(s, sep, i))
  {
    CutOut(s, sep, start, i);
    TakenLater(s, sep, i);
    var end, rest := Nul(i + |sep| > |s|), Nul(TakesTerminator(s, sep, i + |sep|));
    Assemble(Slice(s, start, i), sep, later, Slice(s, i + |sep|, |s|), rest, Slice(s, start, |s|), end);
  }

  /** The scan stands at `i`, and what it is still to give is the rest of the string. */
  ghost predicate JoinsFrom(s: Text, sep: Text, start: nat, i: nat) {
    Replaced(s, sep, sep, start, i) == Slice(s, start, |s|) + Nul(TakesTerminator(s, sep, i))
  }

  lemma JoinsAtCut(s: Text, sep: Text, start: nat, i: nat)
    requires start <= i && Occurs(s, sep, i) && JoinsFrom(s, sep, i + |sep|, i + |sep|)
    ensures JoinsFrom(s, sep, start, i)
  {
    ReplacedAt(s, sep, sep, start, i);
    JoinStep(s, sep, start, i, Replaced(s, sep, sep, i + |sep|, i + |sep|));
  }

  lemma JoinsBeside(s: Text, sep: Text, start: nat, i: nat)
    requires start <= i < |s| && !Occurs(s, sep, i) && JoinsFrom(s, sep, start, i + 1)
    ensures JoinsFrom(s, sep, start, i)
  {
    ReplacedAt(s, sep, sep, start, i);
    CutsAt(s, sep, i);
  }

  lemma JoinsAtEnd(s: Text, sep: Text, start: nat, i: nat)
    requires |s| <= i
    ensures JoinsFrom(s, sep, start, i)
  {
    assert Cuts(s, sep, i) == [];
  }

  /** What holds at the end of a scan, and goes from after a cut to the cut and from a place that
      is no cut to the next, holds all along the scan. */
  lemma {:induction false} AlongTheScan(length: nat, width: nat, cuts: nat -> bool, p: (nat, nat) -> bool, start: nat, i: nat)
    requires forall b: nat :: cuts(b) ==> width > 0 && b + width <= length + 1
    requires forall a: nat, b: nat :: length <= b ==> p(a, b)
    requires forall a: nat, b: nat :: a <= b < length && cuts(b) && p(b + width, b + width) ==> p(a, b)
    requires forall a: nat, b: nat :: a <= b < length && !cuts(b) && p(a, b + 1) ==> p(a, b)
    requires start <= i
    ensures p(start, i)
    decreases length + width - i
  {
    if i < length {
      if cuts(i) {
        AlongTheScan(length, width, cuts, p, i + width, i + width);
      } else {
        AlongTheScan(length, width, cuts, p, start, i + 1);
      }
    }
  }

  ghost function CutsOf(s: Text, sep: Text): nat -> bool { (b: nat) => Occurs(s, sep, b) }

  ghost function JoinsOf(s: Text, sep: Text): (nat, nat) -> bool { (a: nat, b: nat) => JoinsFrom(s, sep, a, b) }

  lemma CutsAreWithin(s: Text, sep: Text)
    ensures forall b: nat :: CutsOf(s, sep)(b) ==> |sep| > 0 && b + |sep| <= |s| + 1
  {
    forall b: nat | CutsOf(s, sep)(b) ensures |sep| > 0 && b + |sep| <= |s| + 1 { CutEnds(s, sep, b); }
  }

  lemma JoinsGoBack(s: Text, sep: Text, a: nat, b: nat)
    requires a <= b < |s| && if CutsOf(s, sep)(b) then JoinsOf(s, sep)(b + |sep|, b + |sep|) else JoinsOf(s, sep)(a, b + 1)
    ensures JoinsOf(s, sep)(a, b)
  {
    if Occurs(s, sep, b) { JoinsAtCut(s, sep, a, b); } else { JoinsBeside(s, sep, a, b); }
  }

  lemma JoinFrom(s: Text, sep: Text, start: nat, i: nat)
    requires start <= i
    ensures JoinsFrom(s, sep, start, i)
  {
    var cuts, p := CutsOf(s, sep), JoinsOf(s, sep);
    CutsAreWithin(s, sep);
    forall a: nat, b: nat | |s| <= b ensures p(a, b) { JoinsAtEnd(s, sep, a, b); }
    forall a: nat, b: nat | a <= b < |s| && cuts(b) && p(b + |sep|, b + |sep|) ensures p(a, b) { JoinsGoBack(s, sep, a, b); }
    forall a: nat, b: nat | a <= b < |s| && !cuts(b) && p(a, b + 1) ensures p(a, b) { JoinsGoBack(s, sep, a, b); }
    AlongTheScan(|s|, |sep|, cuts, p, start, i);
    assert p(start, i);
  }

  /** Joining the pieces gives back the string exactly when the terminator was not taken. */
  lemma JoinRestores(s: Text, sep: Text)
    ensures Join(Pieces(s, sep), sep) == s <==> !TakesTerminator(s, sep, 0)
  {
    JoinFrom(s, sep, 0, 0);
    assert s[0..] == s;
    assert |s + [0]| != |s|;
  }

  /** All of the separator but its last byte, which is zero, ends the string. */
  predicate EndsInAllButNul(s: Text, sep: Text)
    requires sep != []
  {
    var n := |sep| - 1;
    0 < n <= |s| && sep[n] == 0 && s[|s| - n..] == sep[..n]
  }

  /** And no separator that ends at a zero byte within that end is cut first: whether one is, is
      the same question about the string up to that byte. */
  predicate EndIsFree(s: Text, sep: Text)
    requires sep != []
    decreases |s|
  {
    EndsInAllButNul(s, sep) && forall m | |s| - (|sep| - 1) <= m < |s| && s[m] == 0 :: !EndIsFree(s[..m], sep)
  }

  lemma {:induction false} GreedyIsAbove(places: set<nat>, width: nat, length: nat, i: nat)
    ensures forall c | c in Greedy(places, width, length, i) :: i <= c && c in places
    decreases length - i
  {
    if i < length && width > 0 { GreedyIsAbove(places, width, length, if i in places then i + width else i + 1); }
  }

  lemma {:induction false} GreedyCovers(places: set<nat>, width: nat, length: nat, i: nat, e: nat) returns (c: nat)
    requires width > 0 && e in places && i <= e < length
    ensures c in Greedy(places, width, length, i) && c <= e < c + width
    decreases length - i
  {
    if i !in places {
      c := GreedyCovers(places, width, length, i + 1, e);
    } else if e < i + width {
      c := i;
    } else {
      c := GreedyCovers(places, width, length, i + width, e);
    }
  }

  /** The greedy choice among the places that end by `m` is the part of the greedy choice that does. */
  lemma {:induction false} GreedyOnPrefix(places: set<nat>, early: set<nat>, width: nat, m: nat, length: nat, i: nat, c: nat)
    requires width > 1 && m <= length && early == set p | p in places && p + width <= m + 1
    ensures c in Greedy(early, width, m, i) <==> c in Greedy(places, width, length, i) && c + width <= m + 1
    decreases m - i
  {
    GreedyIsAbove(places, width, length, i);
    GreedyIsAbove(early, width, m, i);
    if i >= m {
    } else if i in places {
      if i + width <= m + 1 { GreedyOnPrefix(places, early, width, m, length, i + width, c); }
    } else {
      GreedyOnPrefix(places, early, width, m, length, i + 1, c);
    }
  }

  lemma PlacesOfPrefix(s: Text, sep: Text, m: nat)
    requires |sep| > 1 && m < |s| && s[m] == 0
    ensures Places(s[..m], sep) == set p | p in Places(s, sep) && p + |sep| <= m + 1
  {
    assert s[..m] + [0] == s[..m + 1];
    forall p: nat | p + |sep| <= m + 1 ensures Occurs(s[..m], sep, p) <==> Occurs(s, sep, p) {
      assert (s[..m] + [0])[p..p + |sep|] == (s + [0])[p..p + |sep|];
    }
  }

  /** The cuts up to a zero byte are those of the string that ends there. */
  lemma CutsOfPrefix(s: Text, sep: Text, m: nat, c: nat)
    requires |sep| > 1 && m < |s| && s[m] == 0
    ensures c in Cuts(s[..m], sep, 0) <==> c in Cuts(s, sep, 0) && c + |sep| <= m + 1
  {
    PlacesOfPrefix(s, sep, m);
    GreedyOnPrefix(Places(s, sep), Places(s[..m], sep), |sep|, m, |s|, 0, c);
  }

  lemma CutAt(s: Text, sep: Text, c: nat)
    requires sep != [] && c in Cuts(s, sep, 0)
    ensures Occurs(s, sep, c)
    ensures forall b | b in Cuts(s, sep, 0) && b < c :: b + |sep| <= c
  {
    var k :| 0 <= k < |Cuts(s, sep, 0)| && Cuts(s, sep, 0)[k] == c;
    CutOccurs(s, sep, k);
  }

  /** The terminator is taken by a cut that ends behind it. */
  lemma TakingCut(s: Text, sep: Text)
    requires sep != []
    ensures TakesTerminator(s, sep, 0) <==> |s| + 1 >= |sep| && (|s| + 1 - |sep|) in Cuts(s, sep, 0)
  {
    var cuts := Cuts(s, sep, 0);
    if cuts != [] { CutOccurs(s, sep, |cuts| - 1); }
    if |s| + 1 >= |sep| && (|s| + 1 - |sep|) in cuts {
      var k :| 0 <= k < |cuts| && cuts[k] == |s| + 1 - |sep|;
      CutOccurs(s, sep, k);
    }
  }

  lemma EndOccurs(s: Text, sep: Text)
    requires sep != [] && |s| + 1 >= |sep|
    ensures Occurs(s, sep, |s| + 1 - |sep|) <==> EndsInAllButNul(s, sep)
  {
    var e, n := |s| + 1 - |sep|, |sep| - 1;
    assert (s + [0])[e..e + |sep|] == s[e..] + [0];
    if Occurs(s, sep, e) {
      assert sep == s[e..] + [0];
      assert sep[..n] == s[e..];
    }
    if EndsInAllButNul(s, sep) { assert sep == sep[..n] + [0]; }
  }

  lemma EndsInZero(s: Text, sep: Text, c: nat)
    requires Occurs(s, sep, c) && c + |sep| <= |s| && sep[|sep| - 1] == 0
    ensures s[c + |sep| - 1] == 0
  {
    assert (s + [0])[c..c + |sep|][|sep| - 1] == s[c + |sep| - 1];
  }

  /** Exactly when the terminator is taken, for every separator. */
  lemma {:induction false} TerminatorIsTaken(s: Text, sep: Text)
    requires sep != []
    ensures TakesTerminator(s, sep, 0) <==> EndIsFree(s, sep)
    decreases |s|
  {
    TakingCut(s, sep);
    if TakesTerminator(s, sep, 0) { TakenIsFree(s, sep); }
    if EndIsFree(s, sep) { FreeIsTaken(s, sep); }
  }

  lemma {:induction false} TakenIsFree(s: Text, sep: Text)
    requires sep != [] && TakesTerminator(s, sep, 0)
    ensures EndIsFree(s, sep)
    decreases |s|, 0
  {
    TakingCut(s, sep);
    var e := |s| + 1 - |sep|;
    CutAt(s, sep, e);
    EndOccurs(s, sep);
    forall m | e <= m < |s| && s[m] == 0 ensures !EndIsFree(s[..m], sep) {
      if EndIsFree(s[..m], sep) {
        FreeIsTaken(s[..m], sep);
        TakingCut(s[..m], sep);
        CutsOfPrefix(s, sep, m, m + 1 - |sep|);
      }
    }
  }

  lemma {:induction false} FreeIsTaken(s: Text, sep: Text)
    requires sep != [] && EndIsFree(s, sep)
    ensures TakesTerminator(s, sep, 0)
    decreases |s|, 0
  {
    var e := |s| + 1 - |sep|;
    EndOccurs(s, sep);
    assert e in Places(s, sep);
    var c := GreedyCovers(Places(s, sep), |sep|, |s|, 0, e);
    CutAt(s, sep, c);
    if c < e {
      var m := c + |sep| - 1;
      EndsInZero(s, sep, c);
      CutsOfPrefix(s, sep, m, c);
      TakingCut(s[..m], sep);
      TakenIsFree(s[..m], sep);
    }
    TakingCut(s, sep);
  }

  /** In particular: never for separators without a zero byte after the first; and, for those
      whose only zero byte is the last, exactly when the string ends in all the rest of them. */
  lemma WhenTheTerminatorIsTaken(s: Text, sep: Text)
    requires sep != []
    ensures 0 !in sep[1..] ==> !TakesTerminator(s, sep, 0)
    ensures 0 !in sep[..|sep| - 1] ==> (TakesTerminator(s, sep, 0) <==> EndsInAllButNul(s, sep))
  {
    TerminatorIsTaken(s, sep);
    var n := |sep| - 1;
    if EndsInAllButNul(s, sep) {
      assert sep[n] == 0 == sep[1..][n - 1];
      forall m | |s| - n <= m < |s| ensures s[m] == sep[..n][m - (|s| - n)] { assert s[m] == s[|s| - n..][m - (|s| - n)]; }
    }
  }

  /** A separator ending in a zero byte: cutting "a" by "a" and a zero does not give back "a". */
  lemma NulIsMistakenForTheEnd()
    ensures var s, sep := ['a' as byte], ['a' as byte, 0]; Searchable(s, sep) && Join(Pieces(s, sep), sep) != s
  {
    var s, sep := ['a' as byte], ['a' as byte, 0];
    assert s[0..] == sep[..1];
    PlainSeparators(s, sep, 0);
    WhenTheTerminatorIsTaken(s, sep);
    JoinRestores(s, sep);
  }

  /** Where occurrences share the zero byte between them every second one is cut: of two zero
      bytes, cut by two zero bytes, the terminator is not taken. */
  lemma SharedZeroBytes()
    ensures EndsInAllButNul([0, 0], [0, 0]) && !TakesTerminator([0, 0], [0, 0], 0)
  {
    var s: Text := [0, 0];
    TerminatorIsTaken(s, s);
    assert s[1..] == s[..1] == [0];
    assert EndIsFree(s[..1], s) by {
      assert s[..1][0..] == s[..1] && s[..1][..0] == [];
    }
    assert s[1] == 0;
  }

  // ----- the pieces

  predicate Contains(piece: Text, sep: Text) {
    exists k | 0 <= k <= |piece| :: sep <= piece[k..]
  }

  lemma {:induction false} NothingBeforeTheCut(s: Text, sep: Text, i: nat, j: nat)
    requires i <= j && Occurs(s, sep, j)
    ensures Cuts(s, sep, i) != [] && Cuts(s, sep, i)[0] <= j
    decreases |s| - i
  {
    CutsAt(s, sep, i);
    if !Occurs(s, sep, i) { NothingBeforeTheCut(s, sep, i + 1, j); }
  }

  lemma OccursInside(s: Text, sep: Text, i: nat, end: nat, k: nat)
    requires sep != [] && i <= end <= |s| && k <= end - i && sep <= s[i..end][k..]
    ensures Occurs(s, sep, i + k) && i + k < end
  {
    assert s[i..end][k..][..|sep|] == (s + [0])[i + k..i + k + |sep|];
  }

  lemma SliceHoldsNone(s: Text, sep: Text, i: nat, end: nat)
    requires sep != [] && i <= end <= |s|
    requires Cuts(s, sep, i) == [] || Cuts(s, sep, i)[0] >= end
    ensures !Contains(s[i..end], sep)
  {
    if Contains(s[i..end], sep) {
      var k :| 0 <= k <= |s[i..end]| && sep <= s[i..end][k..];
      OccursInside(s, sep, i, end, k);
      NothingBeforeTheCut(s, sep, i, i + k);
    }
  }

  lemma {:induction false} RestHoldsNone(s: Text, sep: Text, start: nat, i: nat)
    requires sep != [] && start <= i <= |s| + 1 && (i > |s| ==> start == i)
    requires i <= |s| ==> Cuts(s, sep, start) == Cuts(s, sep, i)
    ensures forall piece | piece in Rest(s, sep, start, i) :: !Contains(piece, sep)
    decreases |s| + 1 - i
  {
    if i < |s| {
      CutsAt(s, sep, i);
      if Occurs(s, sep, i) {
        RestHoldsNone(s, sep, i + |sep|, i + |sep|);
        SliceHoldsNone(s, sep, start, i);
      } else {
        RestHoldsNone(s, sep, start, i + 1);
      }
    } else if i == |s| {
      SliceHoldsNone(s, sep, start, |s|);
    }
  }

  /** No piece contains the separator. */
  lemma PiecesHoldNoSeparator(s: Text, sep: Text)
    requires sep != []
    ensures forall piece | piece in Pieces(s, sep) :: !Contains(piece, sep)
  {
    RestHoldsNone(s, sep, 0, 0);
  }

  // ----- the scanners agree

  lemma {:induction false} OffsetsFrom(s: Text, sep: Text, start: nat, cuts: seq<nat>, k: nat)
    requires k < |cuts| && start <= cuts[0]
    requires forall l | 0 <= l < |cuts| :: cuts[l] <= |s|
    requires forall l | 0 < l < |cuts| :: cuts[l - 1] + |sep| <= cuts[l]
    ensures start + |Join(PiecesFrom(s, start, cuts, |sep|)[..k + 1], sep)| == cuts[k]
    decreases k
  {
    var pieces := PiecesFrom(s, start, cuts, |sep|);
    if k == 0 {
      assert pieces[..1] == [pieces[0]];
    } else {
      OffsetsFrom(s, sep, cuts[0] + |sep|, cuts[1..], k - 1);
      assert pieces[..k + 1] == [pieces[0]] + pieces[1..][..k];
      JoinMore(pieces[0], pieces[1..][..k], sep);
    }
  }

  /** Each occurrence that is found is where the pieces up to a cut, joined, end. */
  lemma OccurrencesAreTheCuts(s: Text, sep: Text, k: nat)
    requires k < |Cuts(s, sep, 0)|
    ensures Cuts(s, sep, 0)[k] == |Join(Pieces(s, sep)[..k + 1], sep)|
  {
    var cuts := Cuts(s, sep, 0);
    forall l | 0 <= l < |cuts|
      ensures cuts[l] <= |s| && (l > 0 ==> cuts[l - 1] + |sep| <= cuts[l])
    {
      CutOccurs(s, sep, l);
    }
    OffsetsFrom(s, sep, 0, cuts, k);
  }

  /** Splitting by an empty separator, which all scanners but this one do not survive: what is
      before the first zero byte, and the rest with it. */
  lemma EmptySeparatorCutsAtZero(s: Text)
    requires 0 in s
    ensures var pair := UpToTheFirst(s, [], 0);
            pair.Some? && pair.value.0 + pair.value.1 == s && 0 !in pair.value.0 && pair.value.1 != [] && pair.value.1[0] == 0
  {
    assert s[0..] == s;
    var j := FirstZero(s, 0).value;
    assert s == s[..j] + s[j..] && s[0..j] == s[..j];
  }

  /** Splitting at the first cut: the first piece, and the others joined again. */
  lemma FirstPieceAndTheOthers(s: Text, sep: Text)
    requires !TakesTerminator(s, sep, 0) && (sep == [] ==> 0 !in s)
    ensures UpToTheFirst(s, sep, 0) == Some((Pieces(s, sep)[0], Join(Pieces(s, sep)[1..], sep)))
  {
    JoinRestores(s, sep);
    var pieces, cuts := Pieces(s, sep), Cuts(s, sep, 0);
    if cuts == [] {
      assert s[0..] == s && pieces[1..] == [];
    } else {
      var first := pieces[0];
      CutOccurs(s, sep, 0);
      CutOccurs(s, sep, |cuts| - 1);
      JoinMore(first, pieces[1..], sep);
      assert pieces == [first] + pieces[1..];
      assert s == first + sep + Join(pieces[1..], sep);
      assert s[..cuts[0]] == first && s[cuts[0] + |sep|..] == Join(pieces[1..], sep);
    }
  }
}
