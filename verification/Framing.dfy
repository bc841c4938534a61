/** TCP messages: a length in base 128, least significant digit first, the top bit of every
    byte but the last set, followed by the message.  The layout is that of unsigned LEB128
    (section 7.6 of the DWARF Version 5 standard).  Lengths are 64-bit. */
module Framing {
  import opened Options
  import opened Sockets

  /** The limit as the library sets it at start. */
  const DEFAULT_MAX_TCP_MESSAGE_SIZE: nat := 1073741824

  /** No string and no buffer is larger. */
  const MAX_SIZE: nat := 0x7FFF_FFFF_FFFF_FFFF

  /** The limit can be set to any size. */
  function Limit(max: nat): nat { if max <= MAX_SIZE then max else MAX_SIZE }

  // ----- counts kept in an int

  /** From here on a size is no longer what an `int` makes of it. */
  const INT_LIMIT: nat := 0x8000_0000

  /** A count assigned to an `int` of 32 bits. */
  function AsInt(n: nat): int {
    var low := n % 0x1_0000_0000;
    if low < INT_LIMIT then low else low - 0x1_0000_0000
  }

  /** An `int` compared with a size of 64 bits. */
  function AsSize(i: int): nat { i % WORD }

  /** Exactly the counts that are still the same then. */
  lemma IntKeeps(n: nat)
    requires n < WORD
    ensures AsSize(AsInt(n)) == n <==> n < INT_LIMIT || n >= WORD - INT_LIMIT
  {
    IntAsSize(n);
  }

  lemma IntAsSize(n: nat)
    ensures var low := n % 0x1_0000_0000;
            AsSize(AsInt(n)) == if low < INT_LIMIT then low else low + (WORD - 0x1_0000_0000)
  {
    var low := n % 0x1_0000_0000;
    if low >= INT_LIMIT {
      assert low - 0x1_0000_0000 + WORD == low + (WORD - 0x1_0000_0000);
      ModOnce(low - 0x1_0000_0000);
    }
  }

  lemma ModOnce(i: int)
    requires 0 <= i + WORD < WORD
    ensures i % WORD == i + WORD
  {}

  /** So a count of what was asked for is taken for all of it exactly when it is all of it, and
      that is less than two gigabytes. */
  lemma CountIsWhole(n: nat, size: nat)
    requires n <= size < WORD - INT_LIMIT
    ensures AsSize(AsInt(n)) == size <==> n == size && size < INT_LIMIT
  {
    IntAsSize(n);
  }

  // ----- what the bytes mean

  function Prefix(n: nat): seq<byte> {
    if n < 128 then [n] else [n % 128 + 128] + Prefix(n / 128)
  }

  function Frame(message: seq<byte>): seq<byte> {
    Prefix(|message|) + message
  }

  function Stream(messages: seq<seq<byte>>): seq<byte> {
    if messages == [] then [] else Frame(messages[0]) + Stream(messages[1..])
  }

  /** How many bytes the length takes: up to and including the first with a clear top bit;
      `None` when the stream ends before that. */
  function PrefixLength(s: seq<byte>): (n: Option<nat>)
    ensures n.Some? ==> 0 < n.value <= |s|
  {
    if s == [] then None
    else if s[0] < 128 then Some(1)
    else match PrefixLength(s[1..])
      case None => None
      case Some(n) => Some(n + 1)
  }

  /** The number the seven-bit digits stand for. */
  function Value(digits: seq<byte>): nat {
    if digits == [] then 0 else digits[0] % 128 + 128 * Value(digits[1..])
  }

  datatype Received =
    | Message(message: seq<byte>, rest: seq<byte>)
    | TooLong(rest: seq<byte>)
    | Cut

  /** What one receive makes of a stream. */
  function Receive(s: seq<byte>, max: nat): Received {
    match PrefixLength(s)
    case None => Cut
    case Some(n) => Body(s, n, Value(s[..n]) % WORD, max)
  }

  /** The same once `n` bytes of length have been read as `size`.  The count of what was received
      is kept in an `int`: a message of two gigabytes or more is taken for a cut one. */
  function Body(s: seq<byte>, n: nat, size: nat, max: nat): Received
    requires n <= |s|
  {
    if size > Limit(max) then TooLong(s[n..])
    else if |s| - n < size || size >= INT_LIMIT then Cut
    else Message(s[n..n + size], s[n + size..])
  }

  /** Receiving until something other than a message comes. */
  function ReceiveAll(s: seq<byte>, max: nat): seq<seq<byte>>
    decreases |s|
  {
    match Receive(s, max)
    case Message(m, rest) =>
      if |rest| < |s| then [m] + ReceiveAll(rest, max) else [m]
    case _ => []
  }

  /** What is left of the stream then. */
  function Unreceived(s: seq<byte>, max: nat): seq<byte>
    decreases |s|
  {
    match Receive(s, max)
    case Message(_, rest) => if |rest| < |s| then Unreceived(rest, max) else rest
    case TooLong(_) => s
    case Cut => s
  }

  // ----- round trip

  lemma {:induction false} PrefixParses(n: nat, rest: seq<byte>)
    ensures PrefixLength(Prefix(n) + rest) == Some(|Prefix(n)|)
    ensures Value(Prefix(n)) == n
  {
    if n >= 128 {
      PrefixParses(n / 128, rest);
      LongerLength(n % 128 + 128, Prefix(n / 128), rest);
    }
  }

  /** One more digit below a length. */
  lemma LongerLength(b: byte, p: seq<byte>, rest: seq<byte>)
    requires b >= 128 && PrefixLength(p + rest) == Some(|p|)
    ensures PrefixLength([b] + p + rest) == Some(|p| + 1)
    ensures Value([b] + p) == b % 128 + 128 * Value(p)
  {
    var s := [b] + p + rest;
    assert s[0] == b && s[1..] == p + rest;
    assert ([b] + p)[1..] == p;
  }

  lemma WholeBody(p: seq<byte>, m: seq<byte>, rest: seq<byte>, max: nat)
    requires |m| <= max && |m| < INT_LIMIT
    ensures Body(p + (m + rest), |p|, |m|, max) == Message(m, rest)
  {
    var s := p + (m + rest);
    assert s[|p|..|p| + |m|] == m;
    assert s[|p| + |m|..] == rest;
  }

  lemma ReadAs(p: seq<byte>, rest: seq<byte>, n: nat, max: nat)
    requires PrefixLength(p + rest) == Some(|p|) && Value(p) == n < WORD
    ensures Receive(p + rest, max) == Body(p + rest, |p|, n, max)
  {
    assert (p + rest)[..|p|] == p;
  }

  /** A length that has been read is the one that was written. */
  lemma LengthIsRead(n: nat, rest: seq<byte>, max: nat)
    requires n < WORD
    ensures Receive(Prefix(n) + rest, max) == Body(Prefix(n) + rest, |Prefix(n)|, n, max)
  {
    PrefixParses(n, rest);
    ReadAs(Prefix(n), rest, n, max);
  }

  /** What becomes of a frame that arrives whole: it gives back its message, and leaves the
      stream at the next one, exactly when the message is within the limit and shorter than two
      gigabytes. */
  lemma WhenFramesAreReceived(m: seq<byte>, rest: seq<byte>, max: nat)
    requires |m| < WORD
    ensures Receive(Frame(m) + rest, max)
         == if |m| > Limit(max) then TooLong(m + rest) else if |m| < INT_LIMIT then Message(m, rest) else Cut
  {
    LengthIsRead(|m|, m + rest, max);
    assert Frame(m) + rest == Prefix(|m|) + (m + rest);
    if |m| <= Limit(max) && |m| < INT_LIMIT { WholeBody(Prefix(|m|), m, rest, max); }
  }

  lemma FrameIsReceived(m: seq<byte>, rest: seq<byte>, max: nat)
    requires |m| <= max && |m| < INT_LIMIT
    ensures Receive(Frame(m) + rest, max) == Message(m, rest)
  {
    WhenFramesAreReceived(m, rest, max);
  }

  predicate Within(messages: seq<seq<byte>>, max: nat) {
    forall k | 0 <= k < |messages| :: |messages[k]| <= Limit(max)
  }

  lemma {:induction false} PrefixIsCut(n: nat, t: seq<byte>)
    requires t <= Prefix(n) && t != Prefix(n)
    ensures PrefixLength(t) == None
  {
    if t != [] {
      assert n >= 128;
      PrefixIsCut(n / 128, t[1..]);
    }
  }

  /** A frame cut short anywhere is never taken for a message. */
  lemma CutFrameIsCut(m: seq<byte>, t: seq<byte>, max: nat)
    requires |m| <= Limit(max) && t <= Frame(m) && t != Frame(m)
    ensures Receive(t, max) == Cut
  {
    var p := Prefix(|m|);
    if |t| < |p| {
      assert t == p[..|t|];
      PrefixIsCut(|m|, t);
    } else {
      assert t == p + t[|p|..];
      LengthIsRead(|m|, t[|p|..], max);
    }
  }

  /** A prefix of a stream holds the first frame whole, or is a prefix of it. */
  lemma FirstFrame(messages: seq<seq<byte>>, t: seq<byte>)
    requires messages != [] && t <= Stream(messages)
    ensures var f := Frame(messages[0]);
            if |f| <= |t| then t == f + t[|f|..] && t[|f|..] <= Stream(messages[1..])
            else t <= f && t != f
    ensures var f := Frame(messages[0]);
            |f| <= |t| && t == Stream(messages) ==> t[|f|..] == Stream(messages[1..])
  {
    PrefixOfTwo(Frame(messages[0]), Stream(messages[1..]), t);
  }

  lemma PrefixOfTwo(f: seq<byte>, later: seq<byte>, t: seq<byte>)
    requires t <= f + later
    ensures if |f| <= |t| then t == f + t[|f|..] && t[|f|..] <= later else t <= f && t != f
    ensures |f| <= |t| && t == f + later ==> t[|f|..] == later
  {
    if |f| > |t| { assert t == f[..|t|]; }
  }

  lemma Skip(f: seq<byte>, u: seq<byte>, k: nat)
    requires k <= |u|
    ensures (f + u)[|f| + k..] == u[k..]
  {}

  lemma ReceiveAllMore(m: seq<byte>, u: seq<byte>, max: nat)
    requires |m| <= Limit(max)
    ensures ReceiveAll(Frame(m) + u, max) == if |m| < INT_LIMIT then [m] + ReceiveAll(u, max) else []
  {
    WhenFramesAreReceived(m, u, max);
  }

  predicate AllShort(messages: seq<seq<byte>>) {
    forall k | 0 <= k < |messages| :: |messages[k]| < INT_LIMIT
  }

  /** Every prefix of a stream of frames is received as a prefix of the messages, and the whole
      stream as all of them exactly when none has two gigabytes or more. */
  lemma {:induction false} StreamIsReceived(messages: seq<seq<byte>>, t: seq<byte>, max: nat)
    requires Within(messages, max) && t <= Stream(messages)
    ensures ReceiveAll(t, max) <= messages
    ensures t == Stream(messages) ==> (ReceiveAll(t, max) == messages <==> AllShort(messages))
  {
    if messages == [] {
      assert t == [];
    } else {
      var f, later := Frame(messages[0]), messages[1..];
      FirstFrame(messages, t);
      if |f| <= |t| {
        var u := t[|f|..];
        ReceiveAllMore(messages[0], u, max);
        StreamIsReceived(later, u, max);
        assert AllShort(messages) <==> |messages[0]| < INT_LIMIT && AllShort(later) by { ShortOneByOne(messages); }
      } else {
        CutFrameIsCut(messages[0], t, max);
      }
    }
  }

  lemma ShortOneByOne(messages: seq<seq<byte>>)
    requires messages != []
    ensures AllShort(messages) <==> |messages[0]| < INT_LIMIT && AllShort(messages[1..])
  {
    if AllShort(messages[1..]) {
      forall k | 0 < k < |messages| ensures |messages[k]| < INT_LIMIT { assert messages[k] == messages[1..][k - 1]; }
    }
  }

  /** The first `n` messages are short and their frames fit `size` bytes, and no more of them do
      and are. */
  predicate AsMany(messages: seq<seq<byte>>, size: nat, n: nat) {
    && n <= |messages| && |Stream(messages[..n])| <= size && AllShort(messages[..n])
    && (n < |messages| ==> size < |Stream(messages[..n + 1])| || |messages[n]| >= INT_LIMIT)
  }

  lemma OneMoreFits(messages: seq<seq<byte>>, size: nat, n: nat)
    requires messages != [] && |messages[0]| < INT_LIMIT && |Frame(messages[0])| <= size
    requires AsMany(messages[1..], size - |Frame(messages[0])|, n)
    ensures AsMany(messages, size, n + 1)
  {
    FirstOf(messages, n);
    ShortOneByOne(messages[..n + 1]);
    assert messages[..n + 1][1..] == messages[1..][..n];
    if n < |messages| - 1 { FirstOf(messages, n + 1); }
  }

  lemma NoneFits(messages: seq<seq<byte>>, size: nat)
    requires messages != [] && (size < |Frame(messages[0])| || |messages[0]| >= INT_LIMIT)
    ensures AsMany(messages, size, 0)
  {
    FirstOf(messages, 0);
  }

  lemma CountMore(messages: seq<seq<byte>>, t: seq<byte>, max: nat)
    requires Within(messages, max) && messages != [] && t <= Stream(messages) && |Frame(messages[0])| <= |t|
    ensures var u := t[|Frame(messages[0])|..];
            && u <= Stream(messages[1..])
            && |ReceiveAll(t, max)| == if |messages[0]| < INT_LIMIT then 1 + |ReceiveAll(u, max)| else 0
  {
    FirstFrame(messages, t);
    ReceiveAllMore(messages[0], t[|Frame(messages[0])|..], max);
  }

  lemma CutCount(messages: seq<seq<byte>>, t: seq<byte>, max: nat)
    requires Within(messages, max) && messages != [] && t <= Stream(messages) && |t| < |Frame(messages[0])|
    ensures ReceiveAll(t, max) == []
  {
    FirstFrame(messages, t);
    CutFrameIsCut(messages[0], t, max);
  }

  /** It is as long a prefix of the messages as the bytes allow, up to the first of two gigabytes. */
  lemma {:induction false} NoMessageIsMissed(messages: seq<seq<byte>>, t: seq<byte>, max: nat)
    requires Within(messages, max) && t <= Stream(messages)
    ensures AsMany(messages, |t|, |ReceiveAll(t, max)|)
  {
    if messages == [] {
      assert t == [];
    } else if |t| < |Frame(messages[0])| {
      CutCount(messages, t, max);
      NoneFits(messages, |t|);
    } else {
      CountMore(messages, t, max);
      if |messages[0]| < INT_LIMIT {
        var u := t[|Frame(messages[0])|..];
        NoMessageIsMissed(messages[1..], u, max);
        OneMoreFits(messages, |t|, |ReceiveAll(u, max)|);
      } else {
        NoneFits(messages, |t|);
      }
    }
  }

  lemma FirstOf(messages: seq<seq<byte>>, n: nat)
    requires n < |messages|
    ensures Stream(messages[..n + 1]) == Frame(messages[0]) + Stream(messages[1..][..n])
    ensures |Stream(messages[..0])| == 0
  {
    assert messages[..n + 1][1..] == messages[1..][..n];
    assert messages[..n + 1][0] == messages[0];
  }

  /** What follows the received messages then fails for want of bytes, never as too long. */
  lemma {:induction false} ThenTheStreamIsCut(messages: seq<seq<byte>>, t: seq<byte>, max: nat)
    requires Within(messages, max) && t <= Stream(messages)
    ensures Receive(Unreceived(t, max), max) == Cut
  {
    if messages == [] {
      assert t == [];
    } else {
      FirstFrame(messages, t);
      var f := Frame(messages[0]);
      if |f| <= |t| {
        WhenFramesAreReceived(messages[0], t[|f|..], max);
        ThenTheStreamIsCut(messages[1..], t[|f|..], max);
      } else {
        CutFrameIsCut(messages[0], t, max);
      }
    }
  }

  // ----- sizes

  /** At the default limit the length takes at most five bytes, in every frame that is sent. */
  lemma PrefixIsShort(n: nat)
    requires n <= DEFAULT_MAX_TCP_MESSAGE_SIZE
    ensures |Prefix(n)| <= 5
  {
    var a := n / 128;
    var b := a / 128;
    var c := b / 128;
    var d := c / 128;
    assert d < 128;
    assert |Prefix(d)| == 1;
    assert |Prefix(c)| <= 2;
    assert |Prefix(b)| <= 3;
    assert |Prefix(a)| <= 4;
  }

  lemma {:induction false} PrefixBound(n: nat, k: nat)
    requires n < Power128(k) && k > 0
    ensures |Prefix(n)| <= k
  {
    if n >= 128 { PrefixBound(n / 128, k - 1); }
  }

  /** No frame is as large as to be taken for a negative count. */
  lemma FrameSize(m: seq<byte>)
    requires |m| <= MAX_SIZE
    ensures |Frame(m)| <= MAX_SIZE + 9 < WORD - INT_LIMIT
  {
    PowerBound(9);
    PrefixBound(|m|, 9);
  }

  /** At the default limit no frame has two gigabytes: what fits the limit is sent and received. */
  lemma DefaultLimitIsSafe(m: seq<byte>, rest: seq<byte>)
    requires |m| <= DEFAULT_MAX_TCP_MESSAGE_SIZE
    ensures |Frame(m)| < INT_LIMIT
    ensures Receive(Frame(m) + rest, DEFAULT_MAX_TCP_MESSAGE_SIZE) == Message(m, rest)
  {
    PrefixIsShort(|m|);
    FrameIsReceived(m, rest, DEFAULT_MAX_TCP_MESSAGE_SIZE);
  }

  /** A length of at most nine bytes is decoded without wrapping around. */
  lemma {:induction false} ShortLengthsDoNotWrap(digits: seq<byte>)
    requires |digits| <= 9
    ensures Value(digits) < WORD
  {
    ValueBound(digits);
    PowerBound(|digits|);
  }

  function Power128(k: nat): nat { if k == 0 then 1 else 128 * Power128(k - 1) }

  lemma {:induction false} ValueBound(digits: seq<byte>)
    ensures Value(digits) < Power128(|digits|)
  {
    if digits != [] { ValueBound(digits[1..]); }
  }

  lemma PowerBound(k: nat)
    requires k <= 9
    ensures Power128(k) <= Power128(9) == 0x8000_0000_0000_0000
  {
    assert Power128(3) == 0x20_0000;
    assert Power128(6) == 0x400_0000_0000;
    assert Power128(9) == 0x8000_0000_0000_0000;
  }

  lemma MulAssoc(p: nat, x: nat)
    ensures (128 * p) * x == 128 * (p * x)
  {}

  /** The value of the low digits and of the others. */
  lemma {:induction false} ValueSplit(digits: seq<byte>, k: nat)
    requires k <= |digits|
    ensures Value(digits) == Value(digits[..k]) + Power128(k) * Value(digits[k..])
  {
    if k == 0 {
      assert digits[0..] == digits;
    } else {
      ValueSplit(digits[1..], k - 1);
      assert digits[..k][1..] == digits[1..][..k - 1] && digits[1..][k - 1..] == digits[k..];
      MulAssoc(Power128(k - 1), Value(digits[k..]));
    }
  }

  /** A length does not wrap around exactly when what stands above its first nine digits is at most 1. */
  lemma WrapsAround(digits: seq<byte>)
    ensures Value(digits) < WORD <==> |digits| <= 9 || Value(digits[9..]) <= 1
  {
    if |digits| <= 9 {
      ShortLengthsDoNotWrap(digits);
    } else {
      ValueSplit(digits, 9);
      ValueBound(digits[..9]);
      PowerBound(9);
    }
  }

  lemma {:induction false} ZeroDigits(digits: seq<byte>)
    ensures Value(digits) == 0 <==> forall i | 0 <= i < |digits| :: digits[i] % 128 == 0
  {
    if digits != [] {
      ZeroDigits(digits[1..]);
      assert forall i | 0 <= i < |digits[1..]| :: digits[1..][i] == digits[i + 1];
      if forall i | 0 <= i < |digits| :: digits[i] % 128 == 0 {
        assert forall i | 0 <= i < |digits[1..]| :: digits[1..][i] % 128 == 0;
      }
      if digits[0] % 128 == 0 && forall i | 0 <= i < |digits[1..]| :: digits[1..][i] % 128 == 0 {
        assert forall i | 0 < i < |digits| :: digits[i] == digits[1..][i - 1];
      }
    }
  }

  /** That is: its tenth digit is at most 1 and every later one is 0. */
  lemma AtMostOne(digits: seq<byte>)
    ensures Value(digits) <= 1 <==>
            digits == [] || (digits[0] % 128 <= 1 && forall i | 0 <= i < |digits| - 1 :: digits[1..][i] % 128 == 0)
  {
    if digits != [] { ZeroDigits(digits[1..]); }
  }

  lemma HalfWords(low: nat, high: nat)
    requires low < 0x8000_0000_0000_0000
    ensures (low + 0x8000_0000_0000_0000 * high) % WORD == low + 0x8000_0000_0000_0000 * (high % 2)
  {
    Multiple(low + 0x8000_0000_0000_0000 * (high % 2), high / 2);
  }

  /** What is decoded of a longer one: its first nine digits and the lowest bit of the tenth. */
  lemma LongLengthsKeep64Bits(digits: seq<byte>)
    requires |digits| >= 9
    ensures Value(digits) % WORD == Value(digits[..9]) + 0x8000_0000_0000_0000 * (Value(digits[9..]) % 2)
  {
    ValueSplit(digits, 9);
    ValueBound(digits[..9]);
    PowerBound(9);
    HalfWords(Value(digits[..9]), Value(digits[9..]));
  }

  /** Digits whose top bits are set, and a last one whose top bit is clear, are a length. */
  lemma {:induction false} MarkedPrefix(s: seq<byte>)
    requires s != [] && s[|s| - 1] < 128 && forall i | 0 <= i < |s| - 1 :: s[i] >= 128
    ensures PrefixLength(s) == Some(|s|)
  {
    if |s| > 1 { MarkedPrefix(s[1..]); }
  }

  /** So ten bytes can wrap around: nine empty digits and a 2, a length of 2^64, are received
      as an empty message. */
  lemma TenByteLengthWraps(nine: seq<byte>)
    requires |nine| == 9 && forall i | 0 <= i < 9 :: nine[i] == 128
    ensures Value(nine + [2]) >= WORD && Receive(nine + [2], 0) == Message([], [])
  {
    var s := nine + [2];
    assert s[..9] == nine && s[9..] == [2] && s[..10] == s && s[10..] == [];
    MarkedPrefix(s);
    ZeroDigits(nine);
    WrapsAround(s);
    LongLengthsKeep64Bits(s);
  }

  // ----- the code

  /** The base-128 digits of a length before the top bits are set. */
  function Digits(n: nat): seq<byte> {
    if n < 128 then [n] else [n % 128] + Digits(n / 128)
  }

  lemma {:induction false} MarkedDigits(n: nat)
    ensures |Prefix(n)| == |Digits(n)| > 0
    ensures forall i | 0 <= i < |Digits(n)| - 1 :: Digits(n)[i] < 128 && Prefix(n)[i] == Digits(n)[i] + 128
    ensures Prefix(n)[|Digits(n)| - 1] == Digits(n)[|Digits(n)| - 1]
  {
    if n >= 128 { MarkedDigits(n / 128); }
  }

  /** The length in base 128. */
  method LengthString(message: seq<byte>) returns (lengthString: seq<byte>)
    ensures lengthString == Digits(|message|)
  {
    lengthString := [];
    var length: nat := |message|;
    if length == 0 { lengthString := [0]; }
    while length > 0
      invariant length > 0 ==> lengthString + Digits(length) == Digits(|message|)
      invariant length == 0 ==> lengthString == Digits(|message|)
    {
      var digit: byte := length % 128;
      assert length >= 128 ==> lengthString + Digits(length) == lengthString + [digit] + Digits(length / 128);
      lengthString := lengthString + [digit];
      length := length / 128;
    }
  }

  lemma Halves(s: seq<byte>, n: nat)
    requires n <= |s|
    ensures s == s[..n] + s[n..]
  {}

  /** The buffer the sender fills, whatever it held before. */
  method FillBuffer(message: seq<byte>) returns (msgBuf: array<byte>)
    ensures fresh(msgBuf) && msgBuf[..] == Frame(message)
  {
    var lengthString := LengthString(message);
    var n := |lengthString|;
    ghost var p := Prefix(|message|);
    MarkedDigits(|message|);
    msgBuf := new byte[n + |message|];
    MarkLength(msgBuf, |message|, lengthString);

    var counter := n;
    for k := 0 to |message|
      invariant counter == n + k && msgBuf[..n] == p
      invariant forall j | 0 <= j < k :: msgBuf[n + j] == message[j]
    {
      msgBuf[counter] := message[k];
      counter := counter + 1;
    }
    ghost var buf := msgBuf[..];
    assert buf[..n] == p;
    forall j | 0 <= j < |message| ensures buf[n..][j] == message[j] { assert buf[n + j] == msgBuf[n + j]; }
    assert buf[n..] == message;
    Halves(buf, n);
  }

  /** Set the first bit of every length byte but the last. */
  method MarkLength(msgBuf: array<byte>, ghost length: nat, lengthString: seq<byte>)
    requires lengthString == Digits(length) && |lengthString| <= msgBuf.Length
    modifies msgBuf
    ensures |lengthString| == |Prefix(length)| && msgBuf[..|lengthString|] == Prefix(length)
  {
    MarkedDigits(length);
    var last := |lengthString| - 1;
    for i := 0 to last
      invariant forall k | 0 <= k < i :: msgBuf[k] == Prefix(length)[k]
    {
      msgBuf[i] := lengthString[i] + 128;
    }
    msgBuf[last] := lengthString[last];
  }

  /** How much of a frame a connection takes. */
  function Fits(bytes: nat, room: nat): nat { if bytes <= room then bytes else room }

  /** What leaves the sender: nothing of a message over the limit. */
  function Sent(message: seq<byte>, max: nat, room: nat): seq<byte> {
    if |message| > Limit(max) then [] else Frame(message)[..Fits(|Frame(message)|, room)]
  }

  /** The whole frame leaves. */
  predicate Leaves(message: seq<byte>, max: nat, room: nat) {
    |message| <= Limit(max) && |Frame(message)| <= room
  }

  /** And the sender says so.  It keeps the count of what has left in an `int`. */
  predicate Succeeds(message: seq<byte>, max: nat, room: nat) {
    Leaves(message, max, room) && |Frame(message)| < INT_LIMIT
  }

  /** Success means that the message is received.  The converse fails for the few messages that
      are shorter than two gigabytes while their frames are not. */
  lemma SuccessIsReceived(m: seq<byte>, rest: seq<byte>, max: nat, room: nat)
    ensures Succeeds(m, max, room) ==> Receive(Sent(m, max, room) + rest, max) == Message(m, rest)
    ensures Leaves(m, max, room) && |m| < INT_LIMIT <= |Frame(m)| ==>
              !Succeeds(m, max, room) && Receive(Sent(m, max, room) + rest, max) == Message(m, rest)
  {
    if Leaves(m, max, room) {
      assert Sent(m, max, room) == Frame(m);
      if |m| < INT_LIMIT { FrameIsReceived(m, rest, max); }
    }
  }

  method DefaultTcpSend(sock: Socket, message: seq<byte>, max: nat) returns (ok: bool)
    modifies sock`outgoing, sock`room
    ensures ok <==> Succeeds(message, max, old(sock.room))
    ensures var bytes := Sent(message, max, old(sock.room));
            sock.outgoing == old(sock.outgoing) + bytes && sock.room == old(sock.room) - |bytes|
  {
    if |message| > max { return false; }
    // no such string can be made
    if |message| > MAX_SIZE { return false; }
    var msgBuf := FillBuffer(message);
    var sent := sock.Send(msgBuf[..]);
    var sendedBytes := AsInt(sent);
    FrameSize(message);
    CountIsWhole(sent, msgBuf.Length);
    ok := AsSize(sendedBytes) == msgBuf.Length;
  }

  /** The client of the small boards has an encoder of its own.  It emits the same bytes, with
      no limit but that of strings. */
  method SendToServer(client: Socket, message: seq<byte>) returns (ok: bool)
    requires |message| <= MAX_SIZE
    modifies client`outgoing, client`room
    ensures ok <==> Succeeds(message, MAX_SIZE, old(client.room))
    ensures var n := Fits(|Frame(message)|, old(client.room));
            client.outgoing == old(client.outgoing) + Frame(message)[..n] && client.room == old(client.room) - n
  {
    var msgBuf := EncodeFrame(message);
    var sent := client.Send(msgBuf[..]);
    var sendedBytes := AsInt(sent);
    FrameSize(message);
    CountIsWhole(sent, msgBuf.Length);
    ok := AsSize(sendedBytes) == msgBuf.Length;
  }

  method EncodeFrame(message: seq<byte>) returns (msgBuf: array<byte>)
    ensures fresh(msgBuf) && msgBuf[..] == Frame(message)
  {
    var messageLengthString := LengthDigits(|message|);
    var n := |messageLengthString|;
    MarkedDigits(|message|);
    msgBuf := new byte[n + |message|];
    CopyWithFirstBits(msgBuf, messageLengthString);
    assert msgBuf[..n] == Prefix(|message|);
    CopyFrom(msgBuf, n, message);
    Halves(msgBuf[..], n);
    assert msgBuf[..][..n] == Prefix(|message|) && msgBuf[..][n..] == message;
  }

  /** The digits of a length, lowest first, with a zero for none. */
  method LengthDigits(messageLength: nat) returns (digits: seq<byte>)
    ensures digits == Digits(messageLength)
  {
    var left: nat := messageLength;
    digits := [];
    if left == 0 { digits := digits + [0]; }
    while left > 0
      invariant left > 0 ==> digits + Digits(left) == Digits(messageLength)
      invariant left == 0 ==> digits == Digits(messageLength)
    {
      var digit: byte := left % 128;
      assert left >= 128 ==> digits + Digits(left) == digits + [digit] + Digits(left / 128);
      digits := digits + [digit];
      left := left / 128;
    }
  }

  method CopyFrom(msgBuf: array<byte>, from: nat, text: seq<byte>)
    requires from + |text| <= msgBuf.Length
    modifies msgBuf
    ensures msgBuf[from..from + |text|] == text && msgBuf[..from] == old(msgBuf[..from])
  {
    var counter := from;
    while counter < from + |text|
      invariant from <= counter <= from + |text|
      invariant msgBuf[..from] == old(msgBuf[..from])
      invariant msgBuf[from..counter] == text[..counter - from]
    {
      msgBuf[counter] := text[counter - from];
      counter := counter + 1;
    }
  }

  /** The length bytes, with the first bit set in all but the last. */
  method CopyWithFirstBits(msgBuf: array<byte>, digits: seq<byte>)
    requires 0 < |digits| <= msgBuf.Length && forall k | 0 <= k < |digits| - 1 :: digits[k] < 128
    modifies msgBuf
    ensures forall k | 0 <= k < |digits| :: msgBuf[k] == digits[k] + if k < |digits| - 1 then 128 else 0
  {
    var i := 0;
    while i < |digits| - 1
      invariant 0 <= i <= |digits| - 1
      invariant forall k | 0 <= k < i :: msgBuf[k] == digits[k] + 128
    {
      msgBuf[i] := digits[i] + 128;
      i := i + 1;
    }
    msgBuf[|digits| - 1] := digits[|digits| - 1];
  }

  lemma WrappedHorner(a: nat, digit: nat)
    ensures (a % WORD + digit) % WORD * 128 % WORD == 128 * (a + digit) % WORD
  {
    var q := a / WORD;
    assert a == q * WORD + a % WORD;
    var r := a % WORD + digit;
    var p := r / WORD;
    assert r == p * WORD + r % WORD;
    assert 128 * (a + digit) == r % WORD * 128 + 128 * (p + q) * WORD;
    Multiple(r % WORD * 128, 128 * (p + q));
  }

  lemma {:induction false} Multiple(x: nat, k: nat)
    ensures (x + k * WORD) % WORD == x % WORD
  {
    if k > 0 {
      Multiple(x, k - 1);
      assert x + k * WORD == x + (k - 1) * WORD + WORD;
    }
  }

  /** The value of the digits that were read, computed from the last one backwards. */
  method SizeOf(digits: seq<byte>) returns (size: nat)
    requires digits != []
    ensures size == Value(digits) % WORD
  {
    size := 0;
    var i := |digits| - 1;
    assert digits[i + 1..] == [];
    while i > 0
      invariant 0 <= i < |digits|
      invariant size == 128 * Value(digits[i + 1..]) % WORD
    {
      assert digits[i..][1..] == digits[i + 1..];
      WrappedHorner(128 * Value(digits[i + 1..]), digits[i] % 128);
      size := (size + digits[i] % 128) % WORD * 128 % WORD;
      i := i - 1;
    }
    ghost var a := 128 * Value(digits[1..]);
    assert a == a / WORD * WORD + a % WORD;
    Multiple(a % WORD + digits[0] % 128, a / WORD);
    size := (size + digits[0] % 128) % WORD;
  }

  /** A length of which `read` bytes have been read and `left` are to come. */
  function Further(read: nat, left: Option<nat>): Option<nat> {
    match left case None => None case Some(n) => Some(read + n)
  }

  lemma NextByte(read: nat, b: byte, s: seq<byte>)
    ensures b < 128 ==> PrefixLength([b] + s) == Some(1)
    ensures b >= 128 ==> Further(read, PrefixLength([b] + s)) == Further(read + 1, PrefixLength(s))
  {
    assert ([b] + s)[1..] == s;
  }

  /** Read the length byte by byte, up to and including the first with a clear top bit. */
  method RecvLength(sock: Socket) returns (sizeString: seq<byte>, ended: bool)
    modifies sock`incoming
    ensures ended <==> PrefixLength(old(sock.incoming)).None?
    ensures ended ==> sock.incoming == []
    ensures !ended ==> PrefixLength(old(sock.incoming)) == Some(|sizeString|)
    ensures !ended ==> old(sock.incoming) == sizeString + sock.incoming
  {
    sizeString := [];
    ghost var all := sock.incoming;
    while true
      invariant all == sizeString + sock.incoming
      invariant PrefixLength(all) == Further(|sizeString|, PrefixLength(sock.incoming))
      decreases |sock.incoming|
    {
      ghost var left := sock.incoming;
      var got := sock.Recv(1);
      if |got| < 1 {
        assert left == [];
        return sizeString, true;
      }
      assert left == got + sock.incoming && got == [got[0]];
      NextByte(|sizeString|, got[0], sock.incoming);
      sizeString := sizeString + got;
      if got[0] < 128 { return sizeString, false; }
    }
  }

  method DefaultTcpRecv(sock: Socket, message: seq<byte>, max: nat) returns (ok: bool, result: seq<byte>)
    modifies sock`incoming, sock`room, sock`isClosed
    ensures match Receive(old(sock.incoming), max)
            case Message(m, rest) => ok && result == m && sock.incoming == rest
            case TooLong(rest) => !ok && result == message && sock.incoming == rest
            case Cut => !ok && result == [] && sock.incoming == [] && sock.isClosed && sock.room == 0
    ensures !Receive(old(sock.incoming), max).Cut? ==> sock.isClosed == old(sock.isClosed) && sock.room == old(sock.room)
  {
    ghost var all := sock.incoming;
    var sizeString, ended := RecvLength(sock);
    if ended {
      sock.Close();
      return false, [];
    }
    var size := SizeOf(sizeString);
    ghost var n := |sizeString|;
    assert all[..n] == sizeString && all[n..] == sock.incoming;

    if size != 0 {
      if size > max { return false, message; }
      // new throws here, with nothing else changed
      if size > MAX_SIZE { return false, message; }
      var msg := sock.Recv(size);
      var receivedBytes := AsInt(|msg|);
      CountIsWhole(|msg|, size);
      if AsSize(receivedBytes) != size {
        sock.Close();
        return false, [];
      }
      assert all[n..n + size] == msg && all[n + size..] == sock.incoming;
      result := Copy(msg);
    } else {
      assert all[n..n + 0] == [];
      result := [];
    }
    ok := true;
  }

  method Copy(msg: seq<byte>) returns (message: seq<byte>)
    ensures message == msg
  {
    message := [];
    for i := 0 to |msg|
      invariant message == msg[..i]
    {
      message := message + [msg[i]];
    }
  }
}
