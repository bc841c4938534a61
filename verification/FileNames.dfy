/** The names under which a received file is kept. */
module FileNames {
  import opened Options
  import opened Sockets
  import opened Decimal

  type Files = map<Text, seq<byte>>

  const SLASH: byte := '/' as byte
  const DOT: byte := '.' as byte
  const TMP: Text := ['.' as byte, 't' as byte, 'm' as byte, 'p' as byte]

  function TmpName(name: Text): Text { name + TMP }

  /** GetFileNameFromFullFilePath: what follows the last slash. */
  function BaseName(path: Text): Text {
    if path == [] || path[|path| - 1] == SLASH then []
    else BaseName(path[..|path| - 1]) + [path[|path| - 1]]
  }

  lemma {:induction false} BareNames(path: Text)
    ensures SLASH !in BaseName(path)
    ensures BaseName(path) == path <==> SLASH !in path
  {
    if path != [] {
      var n := |path| - 1;
      BareNames(path[..n]);
      assert path == path[..n] + [path[n]];
    }
  }

  /** The base name is all that follows the last slash. */
  lemma {:induction false} BaseNameFollowsTheLastSlash(path: Text)
    ensures |BaseName(path)| <= |path|
    ensures var k := |path| - |BaseName(path)|;
            BaseName(path) == path[k..] && (k == 0 || path[k - 1] == SLASH)
  {
    if path != [] && path[|path| - 1] != SLASH {
      BaseNameFollowsTheLastSlash(path[..|path| - 1]);
    }
  }

  /** Where the last dot is. */
  function LastDot(name: Text): (pos: Option<nat>)
    ensures pos.Some? ==> pos.value < |name|
  {
    if name == [] then None
    else if name[|name| - 1] == DOT then Some(|name| - 1)
    else LastDot(name[..|name| - 1])
  }

  lemma {:induction false} LastDotIsLast(name: Text)
    ensures LastDot(name) == None <==> DOT !in name
    ensures LastDot(name).Some? ==> name[LastDot(name).value] == DOT && DOT !in name[LastDot(name).value + 1..]
  {
    if name != [] && name[|name| - 1] != DOT {
      var n := |name| - 1;
      LastDotIsLast(name[..n]);
      assert name == name[..n] + [name[n]];
      if LastDot(name).Some? {
        var p := LastDot(name).value;
        assert name[p + 1..] == name[..n][p + 1..] + [name[n]];
      }
    }
  }

  lemma LastDotIsUnique(name: Text, p: nat)
    requires p < |name| && name[p] == DOT && DOT !in name[p + 1..]
    ensures LastDot(name) == Some(p)
  {
    LastDotIsLast(name);
    assert LastDot(name).Some?;
  }

  function Stem(name: Text): Text {
    match LastDot(name) case Some(pos) => name[..pos] case None => name
  }

  function Extension(name: Text): Text {
    match LastDot(name) case Some(pos) => name[pos..] case None => []
  }

  /** "stem (i).type". */
  function Numbered(name: Text, i: nat): Text {
    Stem(name) + [' ' as byte, '(' as byte] + ToString(i) + [')' as byte] + Extension(name)
  }

  /** A name is its stem and its type; the type is empty, or a dot and what follows the last dot. */
  lemma NameHasTwoParts(name: Text)
    ensures Stem(name) + Extension(name) == name
    ensures if DOT in name then Extension(name) != [] && Extension(name)[0] == DOT && DOT !in Extension(name)[1..] else Extension(name) == []
  {
    LastDotIsLast(name);
  }

  /** A number leaves the type of a file as it was. */
  lemma NumberedKeepsTheType(name: Text, i: nat)
    ensures Extension(name) != [] ==> Extension(Numbered(name, i)) == Extension(name)
    ensures Stem(name) < Numbered(name, i) && Extension(name) <= Numbered(name, i)[|Numbered(name, i)| - |Extension(name)|..]
  {
    var front, e := Stem(name) + [' ' as byte, '(' as byte] + ToString(i) + [')' as byte], Extension(name);
    NameHasTwoParts(name);
    LastDotIsLast(name);
    assert Numbered(name, i) == front + e && (front + e)[|front|..] == e;
    if e != [] {
      assert (front + e)[|front| + 1..] == e[1..];
      LastDotIsUnique(front + e, |front|);
    }
    assert Stem(name) <= front;
  }

  lemma SameMiddle(a: Text, x: Text, y: Text, b: Text)
    requires a + x + b == a + y + b
    ensures x == y
  {
    assert |x| == |y|;
    assert (a + x + b)[|a|..|a| + |x|] == x;
    assert (a + y + b)[|a|..|a| + |y|] == y;
  }

  lemma NumbersDiffer(name: Text, i: nat, k: nat)
    ensures Numbered(name, i) == Numbered(name, k) <==> i == k
  {
    var a, b := Stem(name) + [' ' as byte, '(' as byte], [')' as byte] + Extension(name);
    assert Numbered(name, i) == a + ToString(i) + b;
    assert Numbered(name, k) == a + ToString(k) + b;
    if Numbered(name, i) == Numbered(name, k) {
      SameMiddle(a, ToString(i), ToString(k), b);
      ParseOfToString(i);
      ParseOfToString(k);
    }
  }

  /** The name for a finished file: its own, or with the first number that is free. */
  ghost predicate IsFreeName(files: Files, name: Text, free: Text) {
    && free !in files
    && (name !in files ==> free == name)
    && (name in files ==> exists i :: i >= 1 && free == Numbered(name, i) && forall k | 1 <= k < i :: Numbered(name, k) in files)
  }

  lemma {:induction false} SubsetSize<T>(a: set<T>, b: set<T>)
    requires a <= b
    ensures |a| <= |b|
  {
    if a != {} {
      var x :| x in a;
      SubsetSize(a - {x}, b - {x});
    }
  }

  /** There are only finitely many files, so some number is free. */
  lemma FreeNameExists(files: Files, name: Text) returns (free: Text)
    ensures IsFreeName(files, name, free)
  {
    if name !in files { return name; }
    var i: nat := 1;
    var tried: set<Text> := {};
    while Numbered(name, i) in files
      invariant i >= 1 && |tried| == i - 1 && tried <= files.Keys
      invariant forall k | 1 <= k < i :: Numbered(name, k) in files
      invariant forall t | t in tried :: exists k :: 1 <= k < i && t == Numbered(name, k)
      decreases |files.Keys| + 1 - i
    {
      forall k | 1 <= k < i ensures Numbered(name, k) != Numbered(name, i) { NumbersDiffer(name, k, i); }
      tried := tried + {Numbered(name, i)};
      SubsetSize(tried, files.Keys);
      i := i + 1;
    }
    free := Numbered(name, i);
  }

  method FindFreeName(files: Files, fileName: Text) returns (newFileName: Text)
    ensures IsFreeName(files, fileName, newFileName)
  {
    newFileName := fileName;
    if fileName in files {
      ghost var free := FreeNameExists(files, fileName);
      ghost var last: nat :| last >= 1 && free == Numbered(fileName, last);
      var i: nat := 1;
      while Numbered(fileName, i) in files
        invariant 1 <= i <= last
        invariant forall k | 1 <= k < i :: Numbered(fileName, k) in files
        decreases last - i
      {
        i := i + 1;
      }
      newFileName := Numbered(fileName, i);
    }
  }
}
