/** Base64 (sections 3.5 and 4 of RFC 4648): three bytes become four symbols of six bits. */
module Base64 {
  import opened Sequences
  import opened Sockets

  type sextet = x: int | 0 <= x < 64

  const ROW_0: string := "ABCDEFGHIJKLMNOP"
  const ROW_1: string := "QRSTUVWXYZabcdef"
  const ROW_2: string := "ghijklmnopqrstuv"
  const ROW_3: string := "wxyz0123456789+/"
  const B64_SYMBOLS: string := ROW_0 + ROW_1 + ROW_2 + ROW_3

  const PAD: byte := '=' as byte

  /** The table, said by ranges. */
  function Symbol(k: sextet): byte {
    if k < 26 then k + 65 else if k < 52 then k + 71 else if k < 62 then k - 4 else if k == 62 then 43 else 47
  }

  lemma TableIsComplete(k: sextet)
    ensures |B64_SYMBOLS| == 64 && B64_SYMBOLS[k] as int == Symbol(k)
  {
    if k < 16 { assert ROW_0[k] as int == Symbol(k); }
    else if k < 32 { assert ROW_1[k - 16] as int == Symbol(k); }
    else if k < 48 { assert ROW_2[k - 32] as int == Symbol(k); }
    else { assert ROW_3[k - 48] as int == Symbol(k); }
  }

  method FromTable(k: sextet) returns (symbol: byte)
    ensures symbol == Symbol(k)
  {
    TableIsComplete(k);
    symbol := B64_SYMBOLS[k] as byte;
  }

  predicate IsSymbol(c: byte) {
    || 'A' as byte <= c <= 'Z' as byte || 'a' as byte <= c <= 'z' as byte
    || '0' as byte <= c <= '9' as byte || c == '+' as byte || c == '/' as byte
  }

  function ConvertSymbol(c: byte): sextet {
    if 48 <= c <= 57 then c + 4
    else if 65 <= c <= 90 then c - 65
    else if 97 <= c <= 122 then c - 71
    else if c == '+' as byte then 62
    else if c == '/' as byte then 63
    else 0
  }

  /** Converting a symbol finds its place in the table, for the table's symbols and no others. */
  lemma ConvertInvertsTheTable(k: sextet, c: byte)
    ensures IsSymbol(Symbol(k)) && ConvertSymbol(Symbol(k)) == k
    ensures Symbol(ConvertSymbol(c)) == c <==> IsSymbol(c)
  {
  }

  // ----- what the text is

  function Quad(a: byte, b: byte, c: byte): Text {
    [Symbol(a / 4), Symbol(a % 4 * 16 + b / 16), Symbol(b % 16 * 4 + c / 64), Symbol(c % 64)]
  }

  function Encode(s: Text): Text {
    if s == [] then []
    else if |s| == 1 then [Symbol(s[0] / 4), Symbol(s[0] % 4 * 16), PAD, PAD]
    else if |s| == 2 then [Symbol(s[0] / 4), Symbol(s[0] % 4 * 16 + s[1] / 16), Symbol(s[1] % 16 * 4), PAD]
    else Quad(s[0], s[1], s[2]) + Encode(s[3..])
  }

  function First(a: byte, b: byte): byte { ConvertSymbol(a) * 4 + ConvertSymbol(b) / 16 }
  function Second(b: byte, c: byte): byte { ConvertSymbol(b) % 16 * 16 + ConvertSymbol(c) / 4 }
  function Third(c: byte, d: byte): byte { ConvertSymbol(c) % 4 * 64 + ConvertSymbol(d) }

  /** Groups of four, up to the first that is padded; what is left over counts for nothing. */
  function Decode(t: Text): Text {
    if |t| < 4 then []
    else if t[2] == PAD then [First(t[0], t[1])]
    else if t[3] == PAD then [First(t[0], t[1]), Second(t[1], t[2])]
    else [First(t[0], t[1]), Second(t[1], t[2]), Third(t[2], t[3])] + Decode(t[4..])
  }

  // ----- the code

  method RegularStringToBase64String(s: Text) returns (res: Text)
    ensures res == Encode(s)
  {
    var i;
    res, i := EncodeGroups(s);
    var tail := EncodeTail(s, i);
    res := res + tail;
  }

  /** The groups of three bytes. */
  method EncodeGroups(s: Text) returns (res: Text, i: nat)
    ensures i <= |s| < i + 3 && i % 3 == 0
    ensures res + Encode(s[i..]) == Encode(s)
  {
    res, i := [], 0;
    ghost var whole := Encode(s);
    assert s[0..] == s;
    if |s| >= 3 {
      while i <= |s| - 3
        invariant i <= |s| && i % 3 == 0
        invariant res + Encode(s[i..]) == whole
      {
        Group(s, i);
        var q := FourSymbols(s[i], s[i + 1], s[i + 2]);
        Assoc(res, q, Encode(s[i + 3..]));
        res := res + q;
        i := i + 3;
      }
    }
  }

  /** One pass of the loop. */
  method FourSymbols(a: byte, b: byte, c: byte) returns (q: Text)
    ensures q == Quad(a, b, c)
  {
    var w := FromTable(a / 4);
    var x := FromTable(a % 4 * 16 + b / 16);
    var y := FromTable(b % 16 * 4 + c / 64);
    var z := FromTable(c % 64);
    q := [w, x, y, z];
  }

  lemma Group(s: Text, i: nat)
    requires i + 3 <= |s|
    ensures Encode(s[i..]) == Quad(s[i], s[i + 1], s[i + 2]) + Encode(s[i + 3..])
  {
    assert s[i..][3..] == s[i + 3..];
  }

  /** The one or two bytes after the last group of three, if any. */
  method EncodeTail(s: Text, ghost i: nat) returns (res: Text)
    requires i <= |s| < i + 3 && i % 3 == 0
    ensures res == Encode(s[i..])
  {
    TailIs(s, i);
    res := [];
    if |s| % 3 == 1 {
      var a := s[|s| - 1];
      EncodeOne(a);
      var w := FromTable(a / 4);
      var x := FromTable(a % 4 * 16);
      res := [w, x, PAD, PAD];
    } else if |s| % 3 == 2 {
      var a, b := s[|s| - 2], s[|s| - 1];
      EncodeTwo(a, b);
      var w := FromTable(a / 4);
      var x := FromTable(a % 4 * 16 + b / 16);
      var y := FromTable(b % 16 * 4);
      res := [w, x, y, PAD];
    }
  }

  lemma TailIs(s: Text, i: nat)
    requires i <= |s| < i + 3 && i % 3 == 0
    ensures |s| % 3 == 0 ==> s[i..] == []
    ensures |s| % 3 == 1 ==> s[i..] == [s[|s| - 1]]
    ensures |s| % 3 == 2 ==> s[i..] == [s[|s| - 2], s[|s| - 1]]
  {
    assert |s| - i == |s| % 3;
  }

  lemma EncodeOne(a: byte)
    ensures Encode([a]) == [Symbol(a / 4), Symbol(a % 4 * 16), PAD, PAD]
  {}

  lemma EncodeTwo(a: byte, b: byte)
    ensures Encode([a, b]) == [Symbol(a / 4), Symbol(a % 4 * 16 + b / 16), Symbol(b % 16 * 4), PAD]
  {}

  lemma DecodeAt(t: Text, i: nat)
    requires i + 4 <= |t|
    ensures Decode(t[i..]) ==
            if t[i + 2] == PAD then [First(t[i], t[i + 1])]
            else if t[i + 3] == PAD then [First(t[i], t[i + 1]), Second(t[i + 1], t[i + 2])]
            else [First(t[i], t[i + 1]), Second(t[i + 1], t[i + 2]), Third(t[i + 2], t[i + 3])] + Decode(t[i + 4..])
  {
    assert t[i..][4..] == t[i + 4..];
  }

  /** The bound of the loop is an unsigned difference, so for fewer than four symbols the loop
      runs on past the text, unless the third of three is a pad, which ends it at once. */
  predicate Decodable(t: Text) { |t| >= 4 || (|t| == 3 && t[2] == PAD) }

  method Base64StringToRegularString(t: Text) returns (res: Text)
    requires Decodable(t)
    ensures res == if |t| == 3 then [First(t[0], t[1])] else Decode(t)
  {
    res := [];
    var bound := if |t| >= 4 then |t| - 4 else |t| - 4 + WORD;
    var i := 0;
    while i <= bound
      invariant i <= |t| && (|t| == 3 ==> i == 0 && res == [])
      invariant |t| >= 4 ==> res + Decode(t[i..]) == Decode(t)
    {
      if |t| >= 4 { DecodeAt(t, i); }
      ghost var before := res;
      res := res + [First(t[i], t[i + 1])];
      if t[i + 2] == PAD {
        return;
      } else {
        res := res + [Second(t[i + 1], t[i + 2])];
      }
      if t[i + 3] == PAD {
        return;
      } else {
        res := res + [Third(t[i + 2], t[i + 3])];
      }
      ghost var group := [First(t[i], t[i + 1]), Second(t[i + 1], t[i + 2]), Third(t[i + 2], t[i + 3])];
      assert res == before + group;
      Assoc(before, group, Decode(t[i + 4..]));
      i := i + 4;
    }
  }

  /** What was encoded can be decoded, unless it was nothing. */
  lemma EncodedIsDecodable(s: Text)
    requires s != []
    ensures Decodable(Encode(s))
  {
    EncodedLength(s);
  }

  // ----- round trips

  /** A group of four symbols is the same 24 bits as its three bytes. */
  lemma QuadKeepsTheBits(a: byte, b: byte, c: byte)
    ensures var q := Quad(a, b, c);
            0x1_0000 * a + 0x100 * b + c ==
            0x4_0000 * ConvertSymbol(q[0]) + 0x1000 * ConvertSymbol(q[1]) + 0x40 * ConvertSymbol(q[2]) + ConvertSymbol(q[3])
  {
    ConvertInvertsTheTable(a / 4, PAD);
    ConvertInvertsTheTable(a % 4 * 16 + b / 16, PAD);
    ConvertInvertsTheTable(b % 16 * 4 + c / 64, PAD);
    ConvertInvertsTheTable(c % 64, PAD);
  }

  lemma TwoSymbols(a: byte, low: nat)
    requires low < 16
    ensures First(Symbol(a / 4), Symbol(a % 4 * 16 + low)) == a
    ensures ConvertSymbol(Symbol(a % 4 * 16 + low)) % 16 == low
  {
    ConvertInvertsTheTable(a / 4, PAD);
    ConvertInvertsTheTable(a % 4 * 16 + low, PAD);
  }

  lemma MiddleSymbols(s: byte, b: byte, low: nat)
    requires low < 4 && ConvertSymbol(s) % 16 == b / 16
    ensures Second(s, Symbol(b % 16 * 4 + low)) == b
    ensures ConvertSymbol(Symbol(b % 16 * 4 + low)) % 4 == low
    ensures Symbol(b % 16 * 4 + low) != PAD
  {
    ConvertInvertsTheTable(b % 16 * 4 + low, PAD);
  }

  lemma LastSymbols(s: byte, c: byte)
    requires ConvertSymbol(s) % 4 == c / 64
    ensures Third(s, Symbol(c % 64)) == c && Symbol(c % 64) != PAD
  {
    ConvertInvertsTheTable(c % 64, PAD);
  }

  lemma DecodeQuad(a: byte, b: byte, c: byte)
    ensures var q := Quad(a, b, c);
            q[2] != PAD && q[3] != PAD && First(q[0], q[1]) == a && Second(q[1], q[2]) == b && Third(q[2], q[3]) == c
  {
    TwoSymbols(a, b / 16);
    MiddleSymbols(Symbol(a % 4 * 16 + b / 16), b, c / 64);
    LastSymbols(Symbol(b % 16 * 4 + c / 64), c);
  }

  /** Decoding what was encoded gives it back. */
  lemma {:induction false} DecodeOfEncode(s: Text)
    ensures Decode(Encode(s)) == s
  {
    if s == [] {
    } else if |s| == 1 {
      TwoSymbols(s[0], 0);
    } else if |s| == 2 {
      TwoSymbols(s[0], s[1] / 16);
      MiddleSymbols(Symbol(s[0] % 4 * 16 + s[1] / 16), s[1], 0);
    } else {
      DecodeQuad(s[0], s[1], s[2]);
      DecodeOfEncode(s[3..]);
      DecodeGroup(Quad(s[0], s[1], s[2]), Encode(s[3..]));
      assert s == [s[0], s[1], s[2]] + s[3..];
    }
  }

  lemma DecodeGroup(q: Text, t: Text)
    requires |q| == 4 && q[2] != PAD && q[3] != PAD
    ensures Decode(q + t) == [First(q[0], q[1]), Second(q[1], q[2]), Third(q[2], q[3])] + Decode(t)
  {
    assert (q + t)[4..] == t;
  }

  lemma EncodeGroup(a: byte, b: byte, c: byte, s: Text)
    ensures Encode([a, b, c] + s) == Quad(a, b, c) + Encode(s)
  {
    assert ([a, b, c] + s)[3..] == s;
  }

  /** Four symbols for every three bytes begun. */
  lemma {:induction false} EncodedLength(s: Text)
    ensures |Encode(s)| == 4 * ((|s| + 2) / 3)
  {
    if |s| > 2 {
      EncodedLength(s[3..]);
      EncodeGroup(s[0], s[1], s[2], s[3..]);
      assert s == [s[0], s[1], s[2]] + s[3..];
    }
  }

  /** Padded as the standard asks, the bits that stand for nothing zero. */
  predicate Canonical(t: Text) {
    t != [] ==>
      && |t| >= 4 && IsSymbol(t[0]) && IsSymbol(t[1])
      && if t[2] == PAD then |t| == 4 && t[3] == PAD && ConvertSymbol(t[1]) % 16 == 0
         else if t[3] == PAD then |t| == 4 && IsSymbol(t[2]) && ConvertSymbol(t[2]) % 4 == 0
         else IsSymbol(t[2]) && IsSymbol(t[3]) && Canonical(t[4..])
  }

  lemma OneIsCanonical(a: byte)
    ensures Canonical(Encode([a]))
  {
    EncodeOne(a);
    ConvertInvertsTheTable(a / 4, PAD);
    ConvertInvertsTheTable(a % 4 * 16, PAD);
  }

  lemma TwoAreCanonical(a: byte, b: byte)
    ensures Canonical(Encode([a, b]))
  {
    EncodeTwo(a, b);
    ConvertInvertsTheTable(a / 4, PAD);
    ConvertInvertsTheTable(a % 4 * 16 + b / 16, PAD);
    ConvertInvertsTheTable(b % 16 * 4, PAD);
  }

  lemma MoreIsCanonical(a: byte, b: byte, c: byte, t: Text)
    requires Canonical(t)
    ensures Canonical(Quad(a, b, c) + t)
  {
    ConvertInvertsTheTable(a / 4, PAD);
    ConvertInvertsTheTable(a % 4 * 16 + b / 16, PAD);
    ConvertInvertsTheTable(b % 16 * 4 + c / 64, PAD);
    ConvertInvertsTheTable(c % 64, PAD);
    var q := Quad(a, b, c);
    assert (q + t)[4..] == t;
    assert (q + t)[..4] == q && (q + t)[0] == q[0] && (q + t)[1] == q[1] && (q + t)[2] == q[2] && (q + t)[3] == q[3];
  }

  lemma {:induction false} EncodedIsCanonical(s: Text)
    ensures Canonical(Encode(s))
  {
    if s == [] {
    } else if |s| == 1 {
      assert s == [s[0]];
      OneIsCanonical(s[0]);
    } else if |s| == 2 {
      assert s == [s[0], s[1]];
      TwoAreCanonical(s[0], s[1]);
    } else {
      EncodedIsCanonical(s[3..]);
      MoreIsCanonical(s[0], s[1], s[2], Encode(s[3..]));
    }
  }

  lemma FirstBack(a: byte, b: byte, low: nat)
    requires IsSymbol(a) && IsSymbol(b) && ConvertSymbol(b) % 16 == low
    ensures Symbol(First(a, b) / 4) == a && Symbol(First(a, b) % 4 * 16 + low) == b
  {
    ConvertInvertsTheTable(0, a);
    ConvertInvertsTheTable(0, b);
    var x, y := ConvertSymbol(a), ConvertSymbol(b);
    assert First(a, b) / 4 == x && First(a, b) % 4 * 16 + low == y;
  }

  lemma HighAndLow(high: nat, low: nat)
    requires low < 16
    ensures (high * 16 + low) / 16 == high && (high * 16 + low) % 16 == low
  {}

  lemma SecondBack(b: byte, c: byte, low: nat)
    requires IsSymbol(c) && ConvertSymbol(c) % 4 == low
    ensures Second(b, c) / 16 == ConvertSymbol(b) % 16 && Symbol(Second(b, c) % 16 * 4 + low) == c
  {
    ConvertInvertsTheTable(0, c);
    HighAndLow(ConvertSymbol(b) % 16, ConvertSymbol(c) / 4);
    assert Second(b, c) % 16 * 4 + low == ConvertSymbol(c);
  }

  lemma ThirdBack(c: byte, d: byte)
    requires IsSymbol(d)
    ensures Third(c, d) / 64 == ConvertSymbol(c) % 4 && Symbol(Third(c, d) % 64) == d
  {
    ConvertInvertsTheTable(0, d);
    assert Third(c, d) % 64 == ConvertSymbol(d);
  }

  lemma QuadBack(q: Text)
    requires |q| == 4 && IsSymbol(q[0]) && IsSymbol(q[1]) && IsSymbol(q[2]) && IsSymbol(q[3])
    ensures Quad(First(q[0], q[1]), Second(q[1], q[2]), Third(q[2], q[3])) == q
  {
    FirstBack(q[0], q[1], ConvertSymbol(q[1]) % 16);
    SecondBack(q[1], q[2], ConvertSymbol(q[2]) % 4);
    ThirdBack(q[2], q[3]);
  }

  lemma PaddedBack(t: Text)
    requires |t| == 4 && Canonical(t) && t[3] == PAD
    ensures Encode(Decode(t)) == t
  {
    if t[2] == PAD {
      FirstBack(t[0], t[1], 0);
    } else {
      FirstBack(t[0], t[1], ConvertSymbol(t[1]) % 16);
      SecondBack(t[1], t[2], 0);
    }
  }

  lemma {:induction false} CanonicalComesBack(t: Text)
    requires Canonical(t)
    ensures Encode(Decode(t)) == t
  {
    if t == [] {
    } else if t[3] == PAD {
      PaddedBack(t);
    } else {
      var q := t[..4];
      assert t == q + t[4..];
      CanonicalComesBack(t[4..]);
      DecodeGroup(q, t[4..]);
      QuadBack(q);
      EncodeGroup(First(q[0], q[1]), Second(q[1], q[2]), Third(q[2], q[3]), Decode(t[4..]));
    }
  }

  /** Encoding what was decoded gives back exactly the canonical texts. */
  lemma EncodeOfDecode(t: Text)
    ensures Encode(Decode(t)) == t <==> Canonical(t)
  {
    EncodedIsCanonical(Decode(t));
    if Canonical(t) { CanonicalComesBack(t); }
  }
}
