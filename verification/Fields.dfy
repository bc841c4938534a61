/** Space-separated messages: written by joining fields, read by Split. */
module Fields {
  import opened Sockets
  import opened Scanners
  import opened ScannerTheorems
  import opened Decimal

  const SPACE: byte := ' ' as byte
  const SEP: Text := [SPACE]

  ghost predicate NoneHolds(pieces: seq<Text>, c: byte) { forall piece | piece in pieces :: c !in piece }

  /** Two lists of pieces without the separator byte that join to the same text are the same. */
  lemma {:induction false} SameJoin(c: byte, p: seq<Text>, q: seq<Text>)
    requires p != [] && q != [] && NoneHolds(p, c) && NoneHolds(q, c)
    requires Join(p, [c]) == Join(q, [c])
    ensures p == q
  {
    var t := Join(p, [c]);
    FirstByte(c, p);
    FirstByte(c, q);
    assert |p| > 1 <==> c in t;
    assert |q| > 1 <==> c in t;
    if |p| > 1 {
      SameFirst(c, t, |p[0]|, |q[0]|);
      assert p[0] == t[..|p[0]|] == q[0];
      assert t[|p[0]| + 1..] == Join(p[1..], [c]) == Join(q[1..], [c]);
      SameJoin(c, p[1..], q[1..]);
      assert p == [p[0]] + p[1..] && q == [q[0]] + q[1..];
    } else {
      assert p == [t] && q == [t];
    }
  }

  lemma FirstByte(c: byte, p: seq<Text>)
    requires p != [] && NoneHolds(p, c)
    ensures var t, n := Join(p, [c]), |p[0]|;
            if |p| == 1 then t == p[0] && c !in t
            else n < |t| && t[n] == c && p[0] == t[..n] && c !in t[..n] && t[n + 1..] == Join(p[1..], [c])
  {}

  lemma SameFirst(c: byte, t: Text, m: nat, n: nat)
    requires m < |t| && n < |t| && t[m] == c == t[n] && c !in t[..m] && c !in t[..n]
    ensures m == n
  {
    ByteBelow(c, t, m, n);
    ByteBelow(c, t, n, m);
  }

  lemma ByteBelow(c: byte, t: Text, m: nat, n: nat)
    requires m < |t| && n < |t| && t[m] == c
    ensures m < n ==> c in t[..n]
  {
    if m < n { assert t[..n][m] == c; }
  }

  lemma HoldsByte(piece: Text, c: byte)
    ensures Contains(piece, [c]) <==> c in piece
  {
    if c in piece {
      var k :| 0 <= k < |piece| && piece[k] == c;
      assert [c] <= piece[k..];
    }
    if Contains(piece, [c]) {
      var k :| 0 <= k <= |piece| && [c] <= piece[k..];
      assert piece[k] == piece[k..][0] == c;
    }
  }

  /** Splitting by one byte gives the only such list. */
  lemma SplitByOneByte(s: Text, c: byte, pieces: seq<Text>)
    ensures Searchable(s, [c])
    ensures pieces == Pieces(s, [c]) <==> pieces != [] && NoneHolds(pieces, c) && Join(pieces, [c]) == s
  {
    var found := Pieces(s, [c]);
    PlainSeparators(s, [c], 0);
    WhenTheTerminatorIsTaken(s, [c]);
    JoinRestores(s, [c]);
    PiecesHoldNoSeparator(s, [c]);
    forall piece | piece in found ensures c !in piece { HoldsByte(piece, c); }
    if pieces != [] && NoneHolds(pieces, c) && Join(pieces, [c]) == s { SameJoin(c, pieces, found); }
  }

  lemma {:induction false} JoinOfMore(p: seq<Text>, q: seq<Text>, glue: Text)
    requires p != [] && q != []
    ensures Join(p + q, glue) == Join(p, glue) + glue + Join(q, glue)
  {
    if |p| == 1 {
      assert p + q == [p[0]] + q;
      JoinMore(p[0], q, glue);
    } else {
      assert p + q == [p[0]] + (p[1..] + q);
      JoinMore(p[0], p[1..] + q, glue);
      JoinOfMore(p[1..], q, glue);
      JoinMore(p[0], p[1..], glue);
      assert p == [p[0]] + p[1..];
    }
  }

  lemma DigitsHoldNoSpace(n: nat)
    ensures SPACE !in ToString(n)
  {
    ParseOfToString(n);
  }

  // ----- the header of a transfer

  function Header(name: Text, offset: nat, remaining: nat): Text {
    name + SEP + ToString(offset) + SEP + ToString(remaining)
  }

  datatype HeaderFields = Malformed | NumberTooLarge | HeaderFields(name: Text, offset: nat, amount: nat)

  /** What the receiver makes of a header: three fields, the last two numbers. */
  function ParseHeader(info: Text): HeaderFields {
    var fields := Pieces(info, SEP);
    if |fields| != 3 || Parse(fields[1]).NotDigits? then Malformed
    else if Parse(fields[1]).OutOfRange? then NumberTooLarge
    else if Parse(fields[2]).NotDigits? then Malformed
    else if Parse(fields[2]).OutOfRange? then NumberTooLarge
    else HeaderFields(fields[0], Parse(fields[1]).n, Parse(fields[2]).n)
  }

  lemma PiecesOfHeader(name: Text, offset: nat, remaining: nat)
    ensures Pieces(Header(name, offset, remaining), SEP) == Pieces(name, SEP) + [ToString(offset), ToString(remaining)]
  {
    var before, numbers := Pieces(name, SEP), [ToString(offset), ToString(remaining)];
    SplitByOneByte(name, SPACE, before);
    DigitsHoldNoSpace(offset);
    DigitsHoldNoSpace(remaining);
    JoinOfMore(before, numbers, SEP);
    JoinMore(ToString(offset), [ToString(remaining)], SEP);
    assert numbers == [ToString(offset)] + [ToString(remaining)];
    assert Header(name, offset, remaining) == Join(before + numbers, SEP);
    SplitByOneByte(Header(name, offset, remaining), SPACE, before + numbers);
  }

  /** A header reads back as what was sent exactly when the name has no space in it and the
      numbers have 64 bits; a name with a space is refused, a larger number an exception. */
  lemma HeaderReadsBack(name: Text, offset: nat, remaining: nat)
    ensures ParseHeader(Header(name, offset, remaining)) ==
            if SPACE in name then Malformed
            else if offset >= WORD || remaining >= WORD then NumberTooLarge
            else HeaderFields(name, offset, remaining)
  {
    PiecesOfHeader(name, offset, remaining);
    ParseOfToString(offset);
    ParseOfToString(remaining);
    SplitByOneByte(name, SPACE, [name]);
    SplitByOneByte(name, SPACE, Pieces(name, SEP));
    FirstByte(SPACE, Pieces(name, SEP));
  }
}
