/** Four scanners over byte strings: Split, SplitUpToTheFirst, FindAllOccurrences and Replace.

    They are written separately but look for the same places.  A byte string is followed by a
    zero byte, which indexing at its length reads; the comparison loops rely on it. */
module Scanners {
  import opened Options
  import opened Sockets

  /** What indexing reads: the terminator at the length, nothing further out. */
  function CharAt(s: Text, i: nat): byte
    requires i <= |s|
  {
    if i < |s| then s[i] else 0
  }

  /** `sep` stands at `i`, the terminator counted in. */
  predicate Occurs(s: Text, sep: Text, i: nat) {
    sep != [] && i < |s| && i + |sep| <= |s| + 1 && (s + [0])[i..i + |sep|] == sep
  }

  // ----- one meaning

  function Places(s: Text, sep: Text): set<nat> {
    set i: nat | i < |s| && Occurs(s, sep, i)
  }

  /** Going up from `i`, the places that do not overlap one chosen before. */
  function Greedy(places: set<nat>, width: nat, length: nat, i: nat): seq<nat>
    decreases length - i
  {
    if i >= length || width == 0 then []
    else if i in places then [i] + Greedy(places, width, length, i + width)
    else Greedy(places, width, length, i + 1)
  }

  /** Where a scan from `i` cuts. */
  function Cuts(s: Text, sep: Text, i: nat): seq<nat> { Greedy(Places(s, sep), |sep|, |s|, i) }

  /** The bytes from `a` to `b`, none when the terminator was cut away. */
  function Slice(s: Text, a: nat, b: nat): Text { if a <= b <= |s| then s[a..b] else [] }

  /** What lies between the cuts. */
  function PiecesFrom(s: Text, start: nat, cuts: seq<nat>, width: nat): (pieces: seq<Text>)
    ensures |pieces| == |cuts| + 1
    decreases |cuts|
  {
    if cuts == [] then [Slice(s, start, |s|)]
    else [Slice(s, start, cuts[0])] + PiecesFrom(s, cuts[0] + width, cuts[1..], width)
  }

  function Rest(s: Text, sep: Text, start: nat, i: nat): seq<Text> {
    PiecesFrom(s, start, Cuts(s, sep, i), |sep|)
  }

  function Pieces(s: Text, sep: Text): seq<Text> { Rest(s, sep, 0, 0) }

  function Join(pieces: seq<Text>, glue: Text): Text {
    if pieces == [] then []
    else if |pieces| == 1 then pieces[0]
    else pieces[0] + glue + Join(pieces[1..], glue)
  }

  /** Comparing at `i` would read past the terminator: it has matched all that is left of the
      string and the terminator, and the separator goes on. */
  predicate Overruns(s: Text, sep: Text, i: nat)
    requires i < |s|
  {
    |s| - i + 1 < |sep| && forall k | 0 <= k <= |s| - i :: CharAt(s, i + k) == sep[k]
  }

  /** A scan from `i` stays within the string and its terminator. */
  predicate ScansWithin(s: Text, sep: Text, i: nat)
    requires sep != []
    decreases |s| + |sep| - i
  {
    i < |s| ==> !Overruns(s, sep, i) && ScansWithin(s, sep, if Occurs(s, sep, i) then i + |sep| else i + 1)
  }

  predicate Within(s: Text, sep: Text, i: nat) {
    if sep == [] then 0 !in s else ScansWithin(s, sep, i)
  }

  /** The same for a scan that ends at the first cut. */
  predicate FirstScanWithin(s: Text, sep: Text, i: nat)
    requires sep != []
    decreases |s| - i
  {
    i < |s| ==> !Overruns(s, sep, i) && (Occurs(s, sep, i) || FirstScanWithin(s, sep, i + 1))
  }

  /** The pairs for which the scanners stop and stay within the string and its terminator. */
  predicate Searchable(s: Text, sep: Text) {
    Within(s, sep, 0)
  }

  /** Ending at the first cut, SplitUpToTheFirst stops for every empty separator too. */
  predicate FirstSearchable(s: Text, sep: Text) {
    sep != [] ==> FirstScanWithin(s, sep, 0)
  }

  /** Separators without a zero byte inside never make a scan overrun. */
  lemma {:induction false} PlainSeparators(s: Text, sep: Text, i: nat)
    requires sep != [] && forall j | 1 <= j < |sep| - 1 :: sep[j] != 0
    ensures ScansWithin(s, sep, i) && FirstScanWithin(s, sep, i)
    decreases |s| + |sep| - i
  {
    if i < |s| {
      NoOverrun(s, sep, i);
      if Occurs(s, sep, i) { PlainSeparators(s, sep, i + |sep|); } else { PlainSeparators(s, sep, i + 1); }
    }
  }

  lemma NoOverrun(s: Text, sep: Text, i: nat)
    requires i < |s| && forall j | 1 <= j < |sep| - 1 :: sep[j] != 0
    ensures !Overruns(s, sep, i)
  {
    var n := |s| - i;
    if n + 1 < |sep| { assert CharAt(s, i + n) == 0 && sep[n] != 0; }
  }

  lemma CutsAt(s: Text, sep: Text, i: nat)
    requires i < |s|
    ensures Cuts(s, sep, i) == if Occurs(s, sep, i) then [i] + Cuts(s, sep, i + |sep|) else Cuts(s, sep, i + 1)
  {
    assert i in Places(s, sep) <==> Occurs(s, sep, i);
  }

  lemma PiecesOfMore(s: Text, start: nat, cut: nat, cuts: seq<nat>, width: nat)
    ensures PiecesFrom(s, start, [cut] + cuts, width) == [Slice(s, start, cut)] + PiecesFrom(s, cut + width, cuts, width)
  {
    assert ([cut] + cuts)[1..] == cuts;
  }

  lemma RestAt(s: Text, sep: Text, start: nat, i: nat)
    requires i < |s|
    ensures Occurs(s, sep, i) ==> Rest(s, sep, start, i) == [Slice(s, start, i)] + Rest(s, sep, i + |sep|, i + |sep|)
    ensures !Occurs(s, sep, i) ==> Rest(s, sep, start, i) == Rest(s, sep, start, i + 1)
  {
    CutsAt(s, sep, i);
    PiecesOfMore(s, start, i, Cuts(s, sep, i + |sep|), |sep|);
  }

  // ----- the scanners

  lemma OccursByBytes(s: Text, sep: Text, i: nat)
    requires i < |s|
    ensures Occurs(s, sep, i) <==>
            sep != [] && i + |sep| <= |s| + 1 && forall k | 0 <= k < |sep| :: i + k <= |s| && CharAt(s, i + k) == sep[k]
  {
    if sep != [] && i + |sep| <= |s| + 1 {
      var t := (s + [0])[i..i + |sep|];
      assert forall k | 0 <= k < |sep| :: t[k] == CharAt(s, i + k);
      if t == sep { assert forall k | 0 <= k < |sep| :: t[k] == sep[k]; }
    }
  }

  /** The comparison inside every scanner's loop; the first byte of an empty separator is its
      terminator. */
  method IsSplitter(s: Text, sep: Text, i: nat) returns (isSplitter: bool)
    requires i < |s| && !Overruns(s, sep, i)
    ensures isSplitter <==> if sep == [] then s[i] == 0 else Occurs(s, sep, i)
  {
    OccursByBytes(s, sep, i);
    if s[i] != CharAt(sep, 0) { return false; }
    isSplitter := true;
    var j := 1;
    while j < |sep|
      invariant 1 <= j && (sep == [] || j <= |sep|) && i + j <= |s| + 1
      invariant i + j == |s| + 1 ==> j >= |sep|
      invariant forall k | 0 <= k < j && k < |sep| :: CharAt(s, i + k) == sep[k]
    {
      if CharAt(s, i + j) != sep[j] { return false; }
      j := j + 1;
    }
  }

  /** What a scanner asks at `i`: whether to cut; either way the scan stays within. */
  method CutsHere(s: Text, sep: Text, i: nat) returns (isSplitter: bool)
    requires i < |s| && Within(s, sep, i)
    ensures isSplitter <==> Occurs(s, sep, i)
    ensures Within(s, sep, if isSplitter then i + |sep| else i + 1)
  {
    isSplitter := IsSplitter(s, sep, i);
  }

  lemma Push(pieces: seq<Text>, piece: Text, later: seq<Text>)
    ensures pieces + ([piece] + later) == (pieces + [piece]) + later
  {}

  /** Where a cut can stand. */
  lemma CutEnds(s: Text, sep: Text, i: nat)
    ensures Occurs(s, sep, i) ==> 0 < |sep| && i < |s| && i + |sep| <= |s| + 1
  {}

  lemma RestOf(s: Text, sep: Text, pieces: seq<Text>, start: nat, i: nat)
    requires i < |s|
    ensures Occurs(s, sep, i) ==>
              pieces + Rest(s, sep, start, i) == (pieces + [Slice(s, start, i)]) + Rest(s, sep, i + |sep|, i + |sep|)
    ensures !Occurs(s, sep, i) ==> pieces + Rest(s, sep, start, i) == pieces + Rest(s, sep, start, i + 1)
  {
    RestAt(s, sep, start, i);
    Push(pieces, Slice(s, start, i), Rest(s, sep, i + |sep|, i + |sep|));
  }

  lemma RestAtEnd(s: Text, sep: Text, start: nat, i: nat)
    requires |s| <= i && start <= i <= |s| + 1 && (i > |s| ==> start == i)
    ensures Rest(s, sep, start, i) == [Slice(s, start, i)]
  {
    assert Cuts(s, sep, i) == [];
  }

  lemma OneMore(s: Text, start: nat, i: nat)
    requires start <= i < |s|
    ensures Slice(s, start, i) + [s[i]] == Slice(s, start, i + 1)
  {}

  method Split(s: Text, sep: Text) returns (pieces: seq<Text>)
    requires Searchable(s, sep)
    ensures pieces == Pieces(s, sep)
  {
    pieces := [];
    var i: nat, piece: Text := 0, [];
    ghost var start: nat := 0;
    while i < |s|
      invariant start <= i <= |s| + 1 && (i > |s| ==> start == i)
      invariant piece == Slice(s, start, i)
      invariant pieces + Rest(s, sep, start, i) == Pieces(s, sep)
      invariant Within(s, sep, i)
      decreases |s| + |sep| - i
    {
      var isSplitter := CutsHere(s, sep, i);
      RestOf(s, sep, pieces, start, i);
      if isSplitter {
        pieces := pieces + [piece];
        piece := [];
        i := i + |sep|;
        start := i;
        assert Slice(s, i, i) == [];
      } else {
        OneMore(s, start, i);
        piece := piece + [s[i]];
        i := i + 1;
      }
    }
    RestAtEnd(s, sep, start, i);
    pieces := pieces + [piece];
  }

  method FindAllOccurrences(s: Text, sep: Text) returns (found: seq<nat>)
    requires Searchable(s, sep)
    ensures found == Cuts(s, sep, 0)
  {
    found := [];
    var i: nat := 0;
    while i < |s|
      invariant found + Cuts(s, sep, i) == Cuts(s, sep, 0)
      invariant Within(s, sep, i)
      decreases |s| + |sep| - i
    {
      var isSplitter := CutsHere(s, sep, i);
      CutsAt(s, sep, i);
      if isSplitter {
        found := found + [i];
        i := i + |sep|;
      } else {
        i := i + 1;
      }
    }
  }

  /** What a scan at `i` is still to give, with the bytes since `start`. */
  function Replaced(s: Text, sep: Text, glue: Text, start: nat, i: nat): Text {
    Join(Rest(s, sep, start, i), glue)
  }

  lemma ReplacedAt(s: Text, sep: Text, glue: Text, start: nat, i: nat)
    requires i < |s|
    ensures Occurs(s, sep, i) ==>
              Replaced(s, sep, glue, start, i) == Slice(s, start, i) + glue + Replaced(s, sep, glue, i + |sep|, i + |sep|)
    ensures !Occurs(s, sep, i) ==> Replaced(s, sep, glue, start, i) == Replaced(s, sep, glue, start, i + 1)
  {
    RestAt(s, sep, start, i);
    if Occurs(s, sep, i) { JoinMore(Slice(s, start, i), Rest(s, sep, i + |sep|, i + |sep|), glue); }
  }

  lemma JoinMore(piece: Text, pieces: seq<Text>, glue: Text)
    requires pieces != []
    ensures Join([piece] + pieces, glue) == piece + glue + Join(pieces, glue)
  {
    assert ([piece] + pieces)[1..] == pieces;
  }

  lemma {:induction false} CutsGoUp(s: Text, sep: Text, i: nat)
    ensures Cuts(s, sep, i) != [] ==> i <= Cuts(s, sep, i)[0] < |s|
    decreases |s| - i
  {
    if i < |s| && sep != [] && !Occurs(s, sep, i) {
      CutsAt(s, sep, i);
      CutsGoUp(s, sep, i + 1);
    }
  }

  lemma JoinOfLonger(head: Text, piece: Text, pieces: seq<Text>, glue: Text)
    ensures Join([head + piece] + pieces, glue) == head + Join([piece] + pieces, glue)
  {
    if pieces == [] {
      assert [head + piece] + [] == [head + piece] && [piece] + [] == [piece];
    } else {
      JoinMore(head + piece, pieces, glue);
      JoinMore(piece, pieces, glue);
      assert head + (piece + glue + Join(pieces, glue)) == (head + piece) + glue + Join(pieces, glue);
    }
  }

  lemma FirstByte(s: Text, i: nat, end: nat)
    requires i < end <= |s|
    ensures Slice(s, i, end) == [s[i]] + Slice(s, i + 1, end)
  {}

  /** A byte that is not cut is put out as it is. */
  lemma ByteStays(s: Text, sep: Text, glue: Text, i: nat)
    requires i < |s| && !Occurs(s, sep, i)
    ensures Replaced(s, sep, glue, i, i) == [s[i]] + Replaced(s, sep, glue, i + 1, i + 1)
  {
    var cuts := Cuts(s, sep, i + 1);
    CutsGoUp(s, sep, i + 1);
    ReplacedAt(s, sep, glue, i, i);
    var end := if cuts == [] then |s| else cuts[0];
    var later := if cuts == [] then [] else PiecesFrom(s, cuts[0] + |sep|, cuts[1..], |sep|);
    FirstByte(s, i, end);
    assert Rest(s, sep, i, i + 1) == [Slice(s, i, end)] + later;
    assert Rest(s, sep, i + 1, i + 1) == [Slice(s, i + 1, end)] + later;
    JoinOfLonger([s[i]], Slice(s, i + 1, end), later, glue);
  }

  lemma CutIsReplaced(s: Text, sep: Text, glue: Text, i: nat)
    requires i < |s| && Occurs(s, sep, i)
    ensures Replaced(s, sep, glue, i, i) == glue + Replaced(s, sep, glue, i + |sep|, i + |sep|)
  {
    ReplacedAt(s, sep, glue, i, i);
    assert Slice(s, i, i) + glue == glue;
  }

  lemma ReplacedAtEnd(s: Text, sep: Text, glue: Text, i: nat)
    requires |s| <= i <= |s| + 1
    ensures Replaced(s, sep, glue, i, i) == []
  {
    RestAtEnd(s, sep, i, i);
  }

  lemma MovedOver(a: Text, b: Text, c: Text)
    ensures a + (b + c) == (a + b) + c
  {}

  method Replace(s: Text, sep: Text, replacement: Text) returns (res: Text)
    requires Searchable(s, sep)
    ensures res == Join(Pieces(s, sep), replacement)
  {
    res := [];
    var i: nat := 0;
    ghost var whole := Replaced(s, sep, replacement, 0, 0);
    while i < |s|
      invariant i <= |s| + 1 && res + Replaced(s, sep, replacement, i, i) == whole
      invariant Within(s, sep, i)
      decreases |s| + |sep| - i
    {
      var isSplitter := CutsHere(s, sep, i);
      if isSplitter {
        CutIsReplaced(s, sep, replacement, i);
        MovedOver(res, replacement, Replaced(s, sep, replacement, i + |sep|, i + |sep|));
        CutEnds(s, sep, i);
        res := res + replacement;
        i := i + |sep|;
      } else {
        ByteStays(s, sep, replacement, i);
        MovedOver(res, [s[i]], Replaced(s, sep, replacement, i + 1, i + 1));
        res := res + [s[i]];
        i := i + 1;
      }
    }
    ReplacedAtEnd(s, sep, replacement, i);
  }

  /** Where the first zero byte from `i` on stands. */
  function FirstZero(s: Text, i: nat): (j: Option<nat>)
    ensures j.Some? ==> i <= j.value < |s| && s[j.value] == 0 && 0 !in s[i..j.value]
    ensures j.None? && i <= |s| ==> 0 !in s[i..]
    decreases |s| - i
  {
    if i >= |s| then None
    else if s[i] == 0 then Some(i)
    else
      var j := FirstZero(s, i + 1);
      assert i + 1 <= |s| && s[i..] == [s[i]] + s[i + 1..];
      assert j.Some? ==> s[i..j.value] == [s[i]] + s[i + 1..j.value];
      j
  }

  /** Up to the first cut from `i` on, and after it.  An empty separator cuts before a zero byte. */
  function UpToTheFirst(s: Text, sep: Text, i: nat): Option<(Text, Text)> {
    var cuts := Cuts(s, sep, i);
    if sep == [] then
      match FirstZero(s, i)
      case None => Some((s, []))
      case Some(j) => Some((s[..j], s[j..]))
    else if cuts == [] then Some((s, []))
    else if cuts[0] + |sep| > |s| then None
    else Some((s[..cuts[0]], s[cuts[0] + |sep|..]))
  }

  /** `None` stands for the exception of taking what follows beyond the length. */
  method SplitUpToTheFirst(s: Text, sep: Text) returns (pair: Option<(Text, Text)>)
    requires FirstSearchable(s, sep)
    ensures pair == UpToTheFirst(s, sep, 0)
  {
    var first := s;
    var piece: Text := [];
    var i: nat := 0;
    while i < |s|
      invariant i <= |s| && piece == s[..i] && first == s
      invariant UpToTheFirst(s, sep, 0) == UpToTheFirst(s, sep, i)
      invariant sep != [] ==> FirstScanWithin(s, sep, i)
    {
      var isSplitter := IsSplitter(s, sep, i);
      CutsAt(s, sep, i);
      if isSplitter {
        first, piece := piece, [];
        i := i + |sep|;
        break;
      }
      piece := piece + [s[i]];
      i := i + 1;
    }
    assert s[|s|..] == [];
    if i > |s| { return None; }
    pair := Some((first, s[i..]));
  }
}
