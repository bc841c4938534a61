/** One transfer over a connection that may break anywhere: whatever the receiver got of what
    the sender put out, the temporary file stays a prefix of the source. */
module TransferTheorems {
  import opened Sequences
  import opened Sockets
  import opened Framing
  import opened Fields
  import opened FileNames
  import opened FileBlocks
  import opened FileTransfer

  /** How much of the file is in the temporary file. */
  function Progress(files: Files, name: Text): nat {
    if TmpName(name) in files then |files[TmpName(name)]| else 0
  }

  /** The temporary file, if there is one, holds the beginning of the source. */
  predicate Resumable(files: Files, name: Text, source: seq<byte>) {
    TmpName(name) in files ==> files[TmpName(name)] <= source
  }

  /** What a session may do: leave exactly the source under a name that was free and take the
      temporary file away, or let the temporary file grow along the source.  No other file
      changes. */
  ghost predicate SafeStep(files: Files, after: Files, name: Text, source: seq<byte>, result: Result) {
    var tmp := TmpName(name);
    if result == Succeeded then
      exists free :: free !in files && free != tmp && after == (files - {tmp})[free := source]
    else
      && result == Failed
      && after - {tmp} == files - {tmp}
      && Resumable(after, name, source)
      && (tmp in files ==> tmp in after && files[tmp] <= after[tmp])
  }

  lemma NothingHappens(files: Files, name: Text, source: seq<byte>)
    requires Resumable(files, name, source)
    ensures SafeStep(files, files, name, source, Failed)
  {}

  /** The written bytes continue the source where the temporary file ends. */
  lemma WrittenContinues(u: seq<byte>, source: seq<byte>, offset: nat, polls: nat)
    requires offset <= |source| && Agrees(u, Left(source, offset))
    ensures var w := Collect(u, |source| - offset, polls).written;
            offset + |w| <= |source| && w == source[offset..offset + |w|]
  {
    CollectedIsAPrefix(u, |source| - offset, polls);
    var w := Collect(u, |source| - offset, polls).written;
    forall i | 0 <= i < |w| ensures w[i] == source[offset + i] {
      assert w[i] == u[i] == Left(source, offset)[i];
    }
  }

  lemma CollectedIsSafe(files: Files, name: Text, source: seq<byte>, u: seq<byte>, polls: nat, after: Files, result: Result)
    requires Resumable(files, name, source)
    requires Agrees(u, Left(source, Progress(files, name)))
    requires Stored(files, name, Collect(u, |source| - Progress(files, name), polls), after, result)
    ensures SafeStep(files, after, name, source, result)
  {
    var offset := Progress(files, name);
    WrittenContinues(u, source, offset, polls);
    CollectedIsAPrefix(u, |source| - offset, polls);
    StoredIsSafe(files, name, source, Collect(u, |source| - offset, polls), after, result);
  }

  lemma StoredIsSafe(files: Files, name: Text, source: seq<byte>, c: Collected, after: Files, result: Result)
    requires Resumable(files, name, source) && Progress(files, name) + |c.written| <= |source|
    requires c.written == source[Progress(files, name)..Progress(files, name) + |c.written|]
    requires c.done ==> Progress(files, name) + |c.written| == |source|
    requires Stored(files, name, c, after, result)
    ensures SafeStep(files, after, name, source, result)
  {
    GrowsAlong(files, name, source, c.written);
    if c.done {
      assert source[..|source|] == source;
      StoredWhole(files, name, source, Grown(files, TmpName(name), c.written), after);
    }
  }

  lemma GrowsAlong(files: Files, name: Text, source: seq<byte>, w: seq<byte>)
    requires Resumable(files, name, source)
    requires Progress(files, name) + |w| <= |source|
    requires w == source[Progress(files, name)..Progress(files, name) + |w|]
    ensures var tmp, grown := TmpName(name), Grown(files, TmpName(name), w);
            && tmp in grown && grown[tmp] == source[..Progress(files, name) + |w|]
            && grown - {tmp} == files - {tmp}
            && (tmp in files ==> files[tmp] <= grown[tmp])
  {
    var offset := Progress(files, name);
    assert source[..offset] + source[offset..offset + |w|] == source[..offset + |w|];
  }

  lemma StoredWhole(files: Files, name: Text, source: seq<byte>, grown: Files, after: Files)
    requires TmpName(name) in grown && grown[TmpName(name)] == source && grown - {TmpName(name)} == files - {TmpName(name)}
    requires exists free :: IsFreeName(grown, name, free) && after == (grown - {TmpName(name)})[free := grown[TmpName(name)]]
    ensures SafeStep(files, after, name, source, Succeeded)
  {
    var tmp := TmpName(name);
    var free :| IsFreeName(grown, name, free) && after == (grown - {tmp})[free := grown[tmp]];
    assert free in files ==> free in files - {tmp};
    assert free !in files && free != tmp && after == (files - {tmp})[free := source];
  }

  lemma PrefixOfSent(message: seq<byte>, max: nat, room: nat, input: seq<byte>)
    requires input <= Sent(message, max, room)
    requires !Leaves(message, max, room) || |input| < |Frame(message)|
    ensures Receive(input, max) == Cut
  {
    if |message| <= Limit(max) { CutFrameIsCut(message, input, max); }
  }

  /** What a receiver sees of a frame and whatever follows it. */
  lemma FrameOrCut(message: seq<byte>, max: nat, output: seq<byte>, input: seq<byte>)
    requires |message| <= Limit(max) && Frame(message) <= output && input <= output
    ensures |input| < |Frame(message)| || |message| >= INT_LIMIT ==> Receive(input, max) == Cut
    ensures |input| >= |Frame(message)| && |message| < INT_LIMIT ==>
              var n := |Frame(message)|;
              Receive(input, max) == Message(message, input[n..]) && input[n..] <= output[n..]
  {
    var n := |Frame(message)|;
    assert Frame(message) == output[..n];
    if |input| < n {
      assert input == Frame(message)[..|input|];
      CutFrameIsCut(message, input, max);
    } else {
      assert input == Frame(message) + input[n..];
      WhenFramesAreReceived(message, input[n..], max);
    }
  }

  lemma WholeFrame(message: Text, max: nat, room: nat)
    requires Leaves(message, max, room)
    ensures Sent(message, max, room) == Frame(message)
  {}

  lemma FrameArrives(message: seq<byte>, max: nat, input: seq<byte>)
    requires |message| <= max && |message| < INT_LIMIT && Frame(message) <= input
    ensures Receive(input, max) == Message(message, input[|Frame(message)|..])
  {
    assert input == Frame(message) + input[|Frame(message)|..];
    FrameIsReceived(message, input[|Frame(message)|..], max);
  }

  // ----- the header and its answer

  /** What a header of the sender's brings about: `later` is taken for the file, or refused. */
  ghost predicate Taken(files: Files, name: Text, amount: nat, canOpen: bool, stop: nat, later: seq<byte>, rest: seq<byte>,
                        after: Files, result: Result)
  {
    if canOpen then
      var c := Collect(later, amount, stop);
      Stored(files, name, c, after, result) && rest == c.rest
    else
      after == files && rest == later && result == Failed
  }

  /** A name with a space in it is refused like a file that cannot be opened. */
  predicate Accepts(name: Text, canOpen: bool) { SPACE !in name && canOpen }

  function AnswerTo(name: Text, canOpen: bool): Text { if Accepts(name, canOpen) then OK else BAD }

  lemma HeaderIsRead(files: Files, name: Text, offset: nat, amount: nat, nameOf: Text -> Text, canOpen: bool, stop: nat, max: nat,
                     io: Io, after: Files, result: Result)
    requires offset < WORD && amount < WORD
    requires HeaderDoes(files, nameOf, canOpen, stop, max, Header(name, offset, amount), io, after, result)
    ensures Taken(files, nameOf(name), amount, Accepts(name, canOpen), stop, io.input, io.rest, after, result)
    ensures io.output == Sent(AnswerTo(name, canOpen), max, io.room)
  {
    HeaderReadsBack(name, offset, amount);
  }

  /** The whole header arrives. */
  lemma HeaderArrives(files: Files, name: Text, offset: nat, amount: nat, nameOf: Text -> Text, canOpen: bool, stop: nat, max: nat, io: Io,
                      later: seq<byte>, after: Files, result: Result)
    requires offset < WORD && amount < WORD
    requires Receive(io.input, max) == Message(Header(name, offset, amount), later)
    requires RecvFileDoes(files, nameOf, canOpen, stop, max, io, after, result)
    ensures Taken(files, nameOf(name), amount, Accepts(name, canOpen), stop, later, io.rest, after, result)
    ensures io.output == Sent(AnswerTo(name, canOpen), max, io.room)
  {
    HeaderIsRead(files, name, offset, amount, nameOf, canOpen, stop, max, io.(input := later), after, result);
  }

  /** A header with a number of more than 64 bits ends the session with an exception: nothing is
      answered and no file changes. */
  lemma LargeNumbersThrow(files: Files, name: Text, offset: nat, amount: nat, nameOf: Text -> Text, canOpen: bool, stop: nat, max: nat, io: Io,
                          later: seq<byte>, after: Files, result: Result)
    requires SPACE !in name && (offset >= WORD || amount >= WORD)
    requires Receive(io.input, max) == Message(Header(name, offset, amount), later)
    requires RecvFileDoes(files, nameOf, canOpen, stop, max, io, after, result)
    ensures result == Thrown && after == files && io.output == [] && io.rest == later
  {
    HeaderReadsBack(name, offset, amount);
  }

  /** It does not. */
  lemma NoHeader(files: Files, nameOf: Text -> Text, canOpen: bool, stop: nat, max: nat, io: Io, after: Files, result: Result)
    requires Receive(io.input, max) == Cut
    requires RecvFileDoes(files, nameOf, canOpen, stop, max, io, after, result)
    ensures after == files && io.output == [] && io.rest == [] && result == Failed
  {}

  lemma HeaderGoesFirst(source: seq<byte>, name: Text, offset: nat, amount: nat, stop: nat, max: nat, io: Io, ok: bool)
    requires amount == Remaining(|source|, offset)
    requires SendFileDoes(source, name, offset, stop, max, io, ok)
    ensures var header := Header(name, offset, amount);
            if Leaves(header, max, io.room) then
              && Frame(header) <= io.output
              && Agrees(io.output[|Frame(header)|..], Left(source, offset))
            else
              io.output == Sent(header, max, io.room)
  {}

  /** Of a prefix of what the sender put out the receiver sees the header and some of the file,
      or nothing. */
  lemma ReceiverSees(source: seq<byte>, name: Text, offset: nat, max: nat, senderStop: nat, sender: Io, ok: bool, input: seq<byte>)
    requires offset <= |source| < WORD
    requires SendFileDoes(source, name, offset, senderStop, max, sender, ok) && input <= sender.output
    ensures var header := Header(name, offset, |source| - offset);
            var n := |Frame(header)|;
            || Receive(input, max) == Cut
            || (n <= |input| && Receive(input, max) == Message(header, input[n..]) && Agrees(input[n..], Left(source, offset)))
  {
    var header := Header(name, offset, |source| - offset);
    NoWrap(|source|, offset, |source| - offset);
    HeaderGoesFirst(source, name, offset, |source| - offset, senderStop, max, sender, ok);
    if !Leaves(header, max, sender.room) {
      PrefixOfSent(header, max, sender.room, input);
    } else {
      FrameOrCut(header, max, sender.output, input);
    }
  }

  /** Receiving from a prefix of what the sender of this file put out is safe. */
  lemma SessionIsSafe(files: Files, name: Text, source: seq<byte>, max: nat, senderStop: nat, sender: Io, ok: bool,
                      nameOf: Text -> Text, canOpen: bool, stop: nat, receiver: Io, after: Files, result: Result)
    requires Resumable(files, name, source) && |source| < WORD
    requires SPACE !in name && nameOf(name) == name
    requires SendFileDoes(source, name, Progress(files, name), senderStop, max, sender, ok)
    requires RecvFileDoes(files, nameOf, canOpen, stop, max, receiver, after, result)
    requires receiver.input <= sender.output
    ensures SafeStep(files, after, name, source, result)
  {
    var offset := Progress(files, name);
    ReceiverSees(source, name, offset, max, senderStop, sender, ok, receiver.input);
    if Receive(receiver.input, max) == Cut {
      NoHeader(files, nameOf, canOpen, stop, max, receiver, after, result);
      NothingHappens(files, name, source);
    } else {
      var later := receiver.input[|Frame(Header(name, offset, |source| - offset))|..];
      HeaderArrives(files, name, offset, |source| - offset, nameOf, canOpen, stop, max, receiver, later, after, result);
      TakenIsSafe(files, name, source, canOpen, stop, later, receiver.rest, after, result);
    }
  }

  lemma TakenIsSafe(files: Files, name: Text, source: seq<byte>, accepted: bool, stop: nat, later: seq<byte>, rest: seq<byte>,
                    after: Files, result: Result)
    requires Resumable(files, name, source) && Agrees(later, Left(source, Progress(files, name)))
    requires Taken(files, name, |source| - Progress(files, name), accepted, stop, later, rest, after, result)
    ensures SafeStep(files, after, name, source, result)
  {
    if accepted { CollectedIsSafe(files, name, source, later, stop, after, result); } else { NothingHappens(files, name, source); }
  }

  // ----- transfers that are not cut

  lemma AnswerFits(answer: Text, max: nat, room: nat)
    requires answer == OK || answer == BAD
    requires 3 <= max && |Frame(BAD)| <= room
    ensures |answer| <= max && Sent(answer, max, room) == Frame(answer) && (answer == BAD <==> |answer| == 3)
  {
    assert |Frame(BAD)| == 4 && |Frame(OK)| == 3;
  }

  /** A header that is not cut is read and answered. */
  lemma HeaderDelivered(files: Files, name: Text, source: seq<byte>, offset: nat, amount: nat, max: nat, senderStop: nat, sender: Io, ok: bool,
                        nameOf: Text -> Text, canOpen: bool, stop: nat, receiver: Io, after: Files, result: Result, a: seq<byte>)
    returns (t: seq<byte>)
    requires amount == Remaining(|source|, offset) && amount < WORD
    requires offset < WORD && 3 <= max && |Frame(BAD)| <= receiver.room
    requires Succeeds(Header(name, offset, amount), max, sender.room)
    requires SendFileDoes(source, name, offset, senderStop, max, sender, ok)
    requires RecvFileDoes(files, nameOf, canOpen, stop, max, receiver, after, result)
    requires receiver.input == sender.output + a
    ensures sender.output == Frame(Header(name, offset, amount)) + t
    ensures Taken(files, nameOf(name), amount, Accepts(name, canOpen), stop, t + a, receiver.rest, after, result)
    ensures receiver.output == Frame(AnswerTo(name, canOpen))
  {
    var header := Header(name, offset, amount);
    HeaderGoesFirst(source, name, offset, amount, senderStop, max, sender, ok);
    t := sender.output[|Frame(header)|..];
    assert sender.output == Frame(header) + t;
    Assoc(Frame(header), t, a);
    FrameIsReceived(header, t + a, max);
    HeaderArrives(files, name, offset, amount, nameOf, canOpen, stop, max, receiver, t + a, after, result);
    AnswerFits(AnswerTo(name, canOpen), max, receiver.room);
  }

  /** And its answer is read. */
  lemma AnswerDelivered(name: Text, source: seq<byte>, offset: nat, amount: nat, max: nat, senderStop: nat, sender: Io, ok: bool,
                        canOpen: bool, t: seq<byte>, b: seq<byte>)
    requires amount == Remaining(|source|, offset) && 3 <= max
    requires Succeeds(Header(name, offset, amount), max, sender.room)
    requires SendFileDoes(source, name, offset, senderStop, max, sender, ok)
    requires sender.output == Frame(Header(name, offset, amount)) + t && sender.input == Frame(AnswerTo(name, canOpen)) + b
    ensures sender.rest == b
    ensures if Accepts(name, canOpen) then
              SendsBody(source, offset, senderStop, sender.room - |Frame(Header(name, offset, amount))|, t, ok)
            else t == [] && !ok
  {
    var header, answer := Header(name, offset, amount), AnswerTo(name, canOpen);
    assert |answer| <= 3 && (answer == BAD <==> !Accepts(name, canOpen));
    FrameIsReceived(answer, b, max);
    assert sender.output[|Frame(header)|..] == t;
    assert Sent(header, max, sender.room) == Frame(header);
  }

  /** A header is refused when the name has a space in it or the file cannot be opened.  Then
      the receiver says so, and both streams are left at what follows. */
  lemma RefusedTransfer(files: Files, name: Text, source: seq<byte>, offset: nat, max: nat, senderStop: nat, sender: Io, ok: bool,
                        nameOf: Text -> Text, canOpen: bool, stop: nat, receiver: Io, after: Files, result: Result,
                        a: seq<byte>, b: seq<byte>)
    requires offset < WORD && 3 <= max && |Frame(BAD)| <= receiver.room
    requires Succeeds(Header(name, offset, Remaining(|source|, offset)), max, sender.room)
    requires SPACE in name || !canOpen
    requires SendFileDoes(source, name, offset, senderStop, max, sender, ok)
    requires RecvFileDoes(files, nameOf, canOpen, stop, max, receiver, after, result)
    requires receiver.input == sender.output + a && sender.input == receiver.output + b
    ensures !ok && result == Failed && after == files && sender.rest == b && receiver.rest == a
  {
    var amount := Remaining(|source|, offset);
    var t := HeaderDelivered(files, name, source, offset, amount, max, senderStop, sender, ok, nameOf, canOpen, stop, receiver, after, result, a);
    AnswerDelivered(name, source, offset, amount, max, senderStop, sender, ok, canOpen, t, b);
    assert t + a == a;
  }

  lemma AllBlocksThere(source: seq<byte>, offset: nat, t: seq<byte>, a: seq<byte>, stop: nat)
    requires offset <= |source| && Agrees(t, Left(source, offset)) && |t| == Padded(|source| - offset)
    requires Passes(|source| - offset) <= stop
    ensures Collect(t + a, |source| - offset, stop) == Collected(source[offset..], a, true)
  {
    var n := |source| - offset;
    CollectedIsAPrefix(t + a, n, stop);
    PaddedAmount(n);
    var c := Collect(t + a, n, stop);
    assert c.rest == (t + a)[|t|..] == a;
    assert c.written == (t + a)[..n] == source[offset..];
  }

  lemma UncutBody(files: Files, name: Text, source: seq<byte>, offset: nat, senderStop: nat, room: nat, t: seq<byte>, ok: bool,
                  stop: nat, rest: seq<byte>, after: Files, result: Result, a: seq<byte>)
    requires offset <= |source|
    requires Padded(|source| - offset) <= room && Passes(|source| - offset) <= senderStop && Passes(|source| - offset) <= stop
    requires SendsBody(source, offset, senderStop, room, t, ok)
    requires Taken(files, name, |source| - offset, true, stop, t + a, rest, after, result)
    ensures ok && rest == a && result == Succeeded
    ensures Stored(files, name, Collected(source[offset..], a, true), after, result)
  {
    AllBlocksThere(source, offset, t, a, stop);
  }

  /** When nothing is cut, both sides succeed, the file gets all that was missing, and both
      streams are left at what follows. */
  lemma UncutTransfer(files: Files, name: Text, source: seq<byte>, offset: nat, max: nat, senderStop: nat, sender: Io, ok: bool,
                      nameOf: Text -> Text, stop: nat, receiver: Io, after: Files, result: Result, a: seq<byte>, b: seq<byte>)
    requires offset <= |source| < WORD && 3 <= max && |Frame(BAD)| <= receiver.room && SPACE !in name
    requires Succeeds(Header(name, offset, |source| - offset), max, sender.room)
    requires |Frame(Header(name, offset, |source| - offset))| + Padded(|source| - offset) <= sender.room
    requires Passes(|source| - offset) <= senderStop && Passes(|source| - offset) <= stop
    requires SendFileDoes(source, name, offset, senderStop, max, sender, ok)
    requires RecvFileDoes(files, nameOf, true, stop, max, receiver, after, result)
    requires receiver.input == sender.output + a && sender.input == receiver.output + b
    ensures ok && sender.rest == b && receiver.rest == a && result == Succeeded
    ensures Stored(files, nameOf(name), Collected(source[offset..], a, true), after, result)
  {
    var amount := |source| - offset;
    NoWrap(|source|, offset, amount);
    var t := HeaderDelivered(files, name, source, offset, amount, max, senderStop, sender, ok, nameOf, true, stop, receiver, after, result, a);
    AnswerDelivered(name, source, offset, amount, max, senderStop, sender, ok, true, t, b);
    UncutBody(files, nameOf(name), source, offset, senderStop, sender.room - |Frame(Header(name, offset, amount))|, t, ok,
              stop, receiver.rest, after, result, a);
  }

  // ----- transfers that are stopped

  /** A sender that sees its flag set before pass `stop` fails, and what leaves after the header
      is at most the blocks before that pass. */
  lemma StoppedSender(source: seq<byte>, name: Text, offset: nat, stop: nat, max: nat, io: Io, ok: bool)
    requires offset <= |source| < WORD && BLOCK * (stop + 1) < |source| - offset
    requires SendFileDoes(source, name, offset, stop, max, io, ok)
    ensures !ok
    ensures var header := Header(name, offset, |source| - offset);
            if Leaves(header, max, io.room) then |io.output| <= |Frame(header)| + BLOCK * stop else io.output == Sent(header, max, io.room)
  {
    NoWrap(|source|, offset, |source| - offset);
  }

  lemma WholeBody(source: seq<byte>, offset: nat, t: seq<byte>)
    requires offset <= |source| && Agrees(t, Left(source, offset)) && |t| == Padded(|source| - offset)
    ensures |source| - offset <= |t| && t[..|source| - offset] == source[offset..]
  {
    PaddedAmount(|source| - offset);
  }

  lemma SuccessMeansBody(source: seq<byte>, name: Text, offset: nat, amount: nat, stop: nat, max: nat, io: Io)
    requires amount == Remaining(|source|, offset) && SendFileDoes(source, name, offset, stop, max, io, true)
    ensures var hf := Frame(Header(name, offset, amount));
            hf <= io.output && |hf| <= io.room && SendsBody(source, offset, stop, io.room - |hf|, io.output[|hf|..], true)
  {
    WholeFrame(Header(name, offset, amount), max, io.room);
  }

  /** A sender that succeeds has not seen its flag set; the header and all blocks have left. */
  lemma SuccessfulSender(source: seq<byte>, name: Text, offset: nat, stop: nat, max: nat, io: Io) returns (t: seq<byte>)
    requires offset <= |source| < WORD
    requires SendFileDoes(source, name, offset, stop, max, io, true)
    ensures |source| - offset <= BLOCK * (stop + 1)
    ensures io.output == Frame(Header(name, offset, |source| - offset)) + t && |t| == Padded(|source| - offset)
    ensures |source| - offset <= |t| && t[..|source| - offset] == source[offset..]
  {
    var amount := |source| - offset;
    NoWrap(|source|, offset, amount);
    SuccessMeansBody(source, name, offset, amount, stop, max, io);
    t := io.output[|Frame(Header(name, offset, amount))|..];
    WholeBody(source, offset, t);
  }

  /** Too little comes for the file to be complete. */
  lemma NotComplete(files: Files, name: Text, amount: nat, accepted: bool, stop: nat, later: seq<byte>, rest: seq<byte>, after: Files, result: Result,
                    least: nat)
    requires |later| <= least < amount && Taken(files, name, amount, accepted, stop, later, rest, after, result)
    ensures result == Failed && Progress(after, name) <= Progress(files, name) + least
    ensures after.Keys <= files.Keys + {TmpName(name)}
  {
    CollectedIsAPrefix(later, amount, stop);
    PaddedAmount(amount);
  }

  /** Of what a stopped sender put out the receiver sees nothing, or the header and no more than
      those blocks. */
  lemma StoppedReceiverSees(source: seq<byte>, name: Text, offset: nat, stop: nat, max: nat, io: Io, ok: bool, input: seq<byte>)
    returns (later: seq<byte>)
    requires offset <= |source| < WORD && BLOCK * (stop + 1) < |source| - offset
    requires SendFileDoes(source, name, offset, stop, max, io, ok) && input <= io.output
    ensures Receive(input, max) == Cut || Receive(input, max) == Message(Header(name, offset, |source| - offset), later)
    ensures |later| <= BLOCK * stop
  {
    var header := Header(name, offset, |source| - offset);
    StoppedSender(source, name, offset, stop, max, io, ok);
    ReceiverSees(source, name, offset, max, stop, io, ok, input);
    later := [];
    if Receive(input, max) != Cut {
      if !Leaves(header, max, io.room) { PrefixOfSent(header, max, io.room, input); }
      later := input[|Frame(header)|..];
    }
  }

  /** A stopped sender leaves the receiver, cut off or not, stopped or not, with more of the
      source in the temporary file or the same: at most the blocks sent, and no new file. */
  lemma StoppedSessionIsSafe(files: Files, name: Text, source: seq<byte>, max: nat, senderStop: nat, sender: Io, ok: bool,
                             nameOf: Text -> Text, canOpen: bool, stop: nat, receiver: Io, after: Files, result: Result)
    requires Resumable(files, name, source) && |source| < WORD
    requires SPACE !in name && nameOf(name) == name
    requires BLOCK * (senderStop + 1) < |source| - Progress(files, name)
    requires SendFileDoes(source, name, Progress(files, name), senderStop, max, sender, ok)
    requires RecvFileDoes(files, nameOf, canOpen, stop, max, receiver, after, result)
    requires receiver.input <= sender.output
    ensures !ok && result == Failed && SafeStep(files, after, name, source, Failed)
    ensures Progress(after, name) <= Progress(files, name) + BLOCK * senderStop
    ensures after.Keys <= files.Keys + {TmpName(name)}
  {
    var offset := Progress(files, name);
    SessionIsSafe(files, name, source, max, senderStop, sender, ok, nameOf, canOpen, stop, receiver, after, result);
    StoppedSender(source, name, offset, senderStop, max, sender, ok);
    StoppedReceiver(files, name, source, offset, max, senderStop, sender, ok, nameOf, canOpen, stop, receiver, after, result);
  }

  lemma StoppedReceiver(files: Files, name: Text, source: seq<byte>, offset: nat, max: nat, senderStop: nat, sender: Io, ok: bool,
                        nameOf: Text -> Text, canOpen: bool, stop: nat, receiver: Io, after: Files, result: Result)
    requires offset <= |source| < WORD && nameOf(name) == name && BLOCK * (senderStop + 1) < |source| - offset
    requires SendFileDoes(source, name, offset, senderStop, max, sender, ok)
    requires RecvFileDoes(files, nameOf, canOpen, stop, max, receiver, after, result)
    requires receiver.input <= sender.output
    ensures result == Failed && Progress(after, name) <= Progress(files, name) + BLOCK * senderStop
    ensures after.Keys <= files.Keys + {TmpName(name)}
  {
    var amount := |source| - offset;
    var later := StoppedReceiverSees(source, name, offset, senderStop, max, sender, ok, receiver.input);
    if Receive(receiver.input, max) == Cut {
      NoHeader(files, nameOf, canOpen, stop, max, receiver, after, result);
    } else {
      HeaderArrives(files, name, offset, amount, nameOf, canOpen, stop, max, receiver, later, after, result);
      NotComplete(files, name, amount, Accepts(name, canOpen), stop, later, receiver.rest, after, result, BLOCK * senderStop);
    }
  }

  lemma StoppedBody(source: seq<byte>, offset: nat, senderStop: nat, room: nat, t: seq<byte>, ok: bool, stop: nat)
    requires offset <= |source| && BLOCK * (senderStop + 1) < |source| - offset && BLOCK * senderStop <= room
    requires SendsBody(source, offset, senderStop, room, t, ok)
    ensures !ok && t == source[offset..offset + BLOCK * senderStop]
    ensures Passes(|source| - offset) <= stop ==> Collect(t, |source| - offset, stop) == Collected(t, [], false)
  {
    var amount := |source| - offset;
    assert |t| == BLOCK * senderStop;
    forall i | 0 <= i < |t| ensures t[i] == source[offset + i] { assert t[i] == Left(source, offset)[i]; }
    if Passes(amount) <= stop {
      PaddedAmount(amount);
      MorePasses(amount, stop);
      CollectedUntilCut(t, amount, stop);
      assert |t| / BLOCK == senderStop;
      assert t[..BLOCK * (|t| / BLOCK)] == t;
    }
  }

  /** When nothing else is cut, the receiver gets exactly the blocks before the pass at which the
      sender saw its flag set; both sides fail. */
  lemma StoppedTransfer(files: Files, name: Text, source: seq<byte>, offset: nat, max: nat, senderStop: nat, sender: Io, ok: bool,
                        nameOf: Text -> Text, stop: nat, receiver: Io, after: Files, result: Result)
    requires offset <= |source| < WORD && 3 <= max && |Frame(BAD)| <= receiver.room && SPACE !in name
    requires BLOCK * (senderStop + 1) < |source| - offset
    requires Succeeds(Header(name, offset, |source| - offset), max, sender.room)
    requires |Frame(Header(name, offset, |source| - offset))| + BLOCK * senderStop <= sender.room
    requires Passes(|source| - offset) <= stop
    requires SendFileDoes(source, name, offset, senderStop, max, sender, ok)
    requires RecvFileDoes(files, nameOf, true, stop, max, receiver, after, result)
    requires receiver.input == sender.output && sender.input == receiver.output
    ensures !ok && result == Failed && receiver.rest == []
    ensures after == Grown(files, TmpName(nameOf(name)), source[offset..offset + BLOCK * senderStop])
  {
    var amount := |source| - offset;
    NoWrap(|source|, offset, amount);
    Nothing(sender.output);
    Nothing(receiver.output);
    var t := HeaderDelivered(files, name, source, offset, amount, max, senderStop, sender, ok, nameOf, true, stop, receiver, after, result, []);
    AnswerDelivered(name, source, offset, amount, max, senderStop, sender, ok, true, t, []);
    Nothing(t);
    StoppedBody(source, offset, senderStop, sender.room - |Frame(Header(name, offset, amount))|, t, ok, stop);
  }

  // ----- offsets beyond the file

  /** The sender then puts out one block, and any block will do; the receiver takes of it what
      it wants of the wrapped difference. */
  lemma OneBlockOfPadding(source: seq<byte>, offset: nat, senderStop: nat, room: nat, t: seq<byte>, ok: bool, stop: nat)
    requires |source| < offset < WORD && BLOCK <= room && stop > 0
    ensures SendsBody(source, offset, senderStop, room, t, ok) <==> ok && |t| == BLOCK
    ensures |t| == BLOCK ==>
              var amount := Remaining(|source|, offset);
              Collect(t, amount, stop) == Collected(t[..if amount <= BLOCK then amount else BLOCK], [], amount <= BLOCK)
  {
    var amount := Remaining(|source|, offset);
    assert Left(source, offset) == [] && Fits(Padded(0), room) == BLOCK == Padded(0);
    if |t| == BLOCK && amount > BLOCK {
      assert t[BLOCK..] == [];
      assert Collect(t[BLOCK..], amount - BLOCK, stop - 1).written == [];
      assert t[..BLOCK] + [] == t[..BLOCK];
    }
  }

  lemma BodyBeyondTheFile(files: Files, name: Text, source: seq<byte>, offset: nat, senderStop: nat, room: nat, t: seq<byte>, ok: bool,
                          stop: nat, rest: seq<byte>, after: Files, result: Result) returns (padding: seq<byte>)
    requires |source| < offset < WORD && BLOCK <= room && stop > 0
    requires SendsBody(source, offset, senderStop, room, t, ok)
    requires Taken(files, name, Remaining(|source|, offset), true, stop, t, rest, after, result)
    ensures ok && (result == Succeeded <==> Remaining(|source|, offset) <= BLOCK)
    ensures 0 < |padding| <= BLOCK && padding <= t
    ensures Stored(files, name, Collected(padding, [], result == Succeeded), after, result)
  {
    OneBlockOfPadding(source, offset, senderStop, room, t, ok, stop);
    padding := Collect(t, Remaining(|source|, offset), stop).written;
  }

  /** A transfer from beyond the end of the file, such as a well-formed "continue" with too large
      a number brings about: the sender succeeds, the temporary file grows by padding, and the
      receiver takes that for the rest of the file exactly when the difference wraps around to
      at most a block. */
  lemma OffsetBeyondTheFile(files: Files, name: Text, source: seq<byte>, offset: nat, max: nat, senderStop: nat, sender: Io, ok: bool,
                            nameOf: Text -> Text, stop: nat, receiver: Io, after: Files, result: Result) returns (padding: seq<byte>)
    requires |source| < offset < WORD && 3 <= max && |Frame(BAD)| <= receiver.room && SPACE !in name && stop > 0
    requires Succeeds(Header(name, offset, Remaining(|source|, offset)), max, sender.room)
    requires |Frame(Header(name, offset, Remaining(|source|, offset)))| + BLOCK <= sender.room
    requires SendFileDoes(source, name, offset, senderStop, max, sender, ok)
    requires RecvFileDoes(files, nameOf, true, stop, max, receiver, after, result)
    requires receiver.input == sender.output && sender.input == receiver.output
    ensures ok && (result == Succeeded <==> Remaining(|source|, offset) <= BLOCK)
    ensures 0 < |padding| <= BLOCK && Stored(files, nameOf(name), Collected(padding, [], result == Succeeded), after, result)
  {
    var amount := Remaining(|source|, offset);
    Nothing(sender.output);
    Nothing(receiver.output);
    var t := HeaderDelivered(files, name, source, offset, amount, max, senderStop, sender, ok, nameOf, true, stop, receiver, after, result, []);
    AnswerDelivered(name, source, offset, amount, max, senderStop, sender, ok, true, t, []);
    Nothing(t);
    padding := BodyBeyondTheFile(files, nameOf(name), source, offset, senderStop, sender.room - |Frame(Header(name, offset, amount))|, t, ok,
                                 stop, receiver.rest, after, result);
  }
}
