/** Sessions of the blocking file transmitter, each broken off anywhere: the temporary file
    stays a prefix of the source and never shrinks, and a session that ends in success leaves
    exactly the source.

    Two ends of a connection fit together when each reads a prefix of what the other writes. */
module NegotiationTheorems {
  import opened Options
  import opened Sockets
  import opened Framing
  import opened Scanners
  import opened Decimal
  import opened Fields
  import opened FileNames
  import opened FileBlocks
  import opened FileTransfer
  import opened TransferTheorems
  import opened Negotiation

  /** Names that survive the space-separated messages and the taking of the base name. */
  predicate PlainName(name: Text) { SPACE !in name && SLASH !in name }

  /** The answers, with a number of up to 20 digits, fit the message limit. */
  predicate AnswersFit(max: nat) { 23 <= max }

  ghost predicate Connected(a: Io, b: Io) { a.input <= b.output && b.input <= a.output }

  /** One message and its handler.  After a message that is not well-formed nothing is known;
      the server is taken to stop there. */
  ghost predicate ServeDoes(files: Files, canOpen: bool, stopAfter: nat, max: nat, io: Io, after: Files, result: Result) {
    match Receive(io.input, max)
    case Message(message, r) =>
      if WellFormed(files, message) then HandlerDoes(files, message, canOpen, stopAfter, max, io.(input := r), after, result)
      else io.output == [] && after == files && result == Failed
    case TooLong(_) => io.output == [] && after == files && result == Failed
    case Cut => io.output == [] && after == files && result == Failed
  }

  // ----- messages

  lemma TwoFields(a: Text, b: Text)
    requires SPACE !in a && SPACE !in b
    ensures Pieces(a + SEP + b, SEP) == [a, b] && Pieces(a, SEP) == [a]
  {
    SplitByOneByte(a + SEP + b, SPACE, [a, b]);
    SplitByOneByte(a, SPACE, [a]);
  }

  lemma ThreeFields(a: Text, b: Text, c: Text)
    requires SPACE !in a && SPACE !in b && SPACE !in c
    ensures Pieces(a + SEP + b + SEP + c, SEP) == [a, b, c]
  {
    JoinMore(a, [b, c], SEP);
    assert [a] + [b, c] == [a, b, c];
    assert Join([a, b, c], SEP) == a + SEP + b + SEP + c;
    SplitByOneByte(a + SEP + b + SEP + c, SPACE, [a, b, c]);
  }

  /** What the server answers is sane and names the progress. */
  lemma ResumeIsSane(files: Files, name: Text)
    requires Progress(files, name) < WORD
    ensures SaneAnswer(Resume(files, name)) && OffsetIn(Resume(files, name)) == Some(Progress(files, name))
    ensures |Resume(files, name)| <= 23
  {
    var n := Progress(files, name);
    DigitsHoldNoSpace(n);
    ParseOfToString(n);
    ToStringIsShort(n);
    TwoFields(OK, ToString(n));
    TwoFields(BAD, []);
  }

  /** What the client asks for is well-formed, whatever files the server has. */
  lemma RequestIsWellFormed(files: Files, name: Text, serverFiles: Files)
    requires SPACE !in name && Progress(files, name) < WORD
    ensures var request := Request(files, name);
            && WellFormed(serverFiles, request)
            && if TmpName(name) in files then
                 && Pieces(request, SEP) == [CONTINUE, name, ToString(Progress(files, name))]
                 && Parse(ToString(Progress(files, name))) == Parsed.Value(Progress(files, name))
               else Pieces(request, SEP) == [GET, name]
  {
    var n := Progress(files, name);
    DigitsHoldNoSpace(n);
    ParseOfToString(n);
    ThreeFields(CONTINUE, name, ToString(n));
    TwoFields(GET, name);
  }

  lemma WasIsWellFormed(files: Files, name: Text)
    requires SPACE !in name
    ensures Pieces(WAS + SEP + name, SEP) == [WAS, name] && WellFormed(files, WAS + SEP + name)
  {
    TwoFields(WAS, name);
  }

  // ----- what a broken connection silences

  lemma SenderIsSilent(source: seq<byte>, name: Text, offset: nat, stop: nat, max: nat, io: Io, ok: bool)
    requires SendFileDoes(source, name, offset, stop, max, io, ok)
    requires |name| + 4 > Limit(max) || io.room == 0
    ensures io.output == []
  {
    assert |Header(name, offset, Remaining(|source|, offset))| >= |name| + 4;
  }

  lemma ReceiverIsSilent(files: Files, nameOf: Text -> Text, canOpen: bool, stop: nat, max: nat, io: Io, after: Files, result: Result)
    requires RecvFileDoes(files, nameOf, canOpen, stop, max, io, after, result)
    requires io.room == 0
    ensures io.output == []
  {}

  lemma NothingIsCut(max: nat)
    ensures Receive([], max) == Cut
  {}

  // ----- the client sends

  /** The request either leaves whole or is all that leaves. */
  lemma WasLeavesFirst(source: seq<byte>, name: Text, last: Text, stop: nat, max: nat, client: Io, ok: bool)
    requires SendCommandDoes(source, name, last, stop, max, client, ok)
    ensures var was := WAS + SEP + name;
            if Leaves(was, max, client.room) then Frame(was) <= client.output
            else client.output == Sent(was, max, client.room)
  {
    var was := WAS + SEP + name;
    var w := Sent(was, max, client.room);
    var answered := Wait(client.input, last, max);
    if !Leaves(was, max, client.room) && SaneAnswer(answered.answer) && OffsetIn(answered.answer).Some? {
      SenderIsSilent(source, name, OffsetIn(answered.answer).value, stop, max, Then(client, w, answered), ok);
      assert client.output == w + client.output[|w|..];
    }
  }

  /** What the client learns is the progress, or nothing and it sends no more. */
  lemma AnswerIsLearned(files: Files, name: Text, canOpen: bool, stop: nat, last: Text, max: nat, server: Io, after: Files, result: Result,
                        input: seq<byte>)
    requires AnswersFit(max) && Progress(files, name) < WORD
    requires RecvsRest(files, name, canOpen, stop, max, server, after, result)
    requires input <= server.output
    ensures var answered := Wait(input, last, max);
            && SaneAnswer(answered.answer)
            && OffsetIn(answered.answer) == Some(if answered.connected then Progress(files, name) else 0)
  {
    var answer := Resume(files, name);
    var first := Sent(answer, max, server.room);
    ResumeIsSane(files, name);
    TwoFields([], []);
    if |Frame(answer)| > server.room {
      ReceiverIsSilent(files, BaseName, canOpen, stop, max, After(server, first, server.input), after, result);
      assert server.output == first + server.output[|first|..];
      PrefixOfSent(answer, max, server.room, input);
    } else {
      FrameOrCut(answer, max, server.output, input);
    }
  }

  /** What a session brings about when its sender sees the flag set before pass `stop`: failure,
      no new file, and at most the blocks before that pass. */
  ghost predicate StopsShort(files: Files, after: Files, name: Text, amount: int, stop: nat, result: Result) {
    BLOCK * (stop + 1) < amount ==>
      && result == Failed && after.Keys <= files.Keys + {TmpName(name)}
      && Progress(after, name) <= Progress(files, name) + BLOCK * stop
  }

  lemma ThatSessionStopsShort(files: Files, name: Text, source: seq<byte>, max: nat, senderStop: nat, sender: Io, ok: bool,
                              canOpen: bool, stop: nat, receiver: Io, after: Files, result: Result)
    requires Resumable(files, name, source) && |source| < WORD && PlainName(name)
    requires SendFileDoes(source, name, Progress(files, name), senderStop, max, sender, ok)
    requires RecvFileDoes(files, BaseName, canOpen, stop, max, receiver, after, result)
    requires receiver.input <= sender.output
    ensures SafeStep(files, after, name, source, result)
    ensures StopsShort(files, after, name, |source| - Progress(files, name), senderStop, result)
  {
    BareNames(name);
    SessionIsSafe(files, name, source, max, senderStop, sender, ok, BaseName, canOpen, stop, receiver, after, result);
    if BLOCK * (senderStop + 1) < |source| - Progress(files, name) {
      StoppedSessionIsSafe(files, name, source, max, senderStop, sender, ok, BaseName, canOpen, stop, receiver, after, result);
    }
  }

  /** However an upload is cut or stopped, it is safe; and neither side is ever given anything else
      than what it reads without looking. */
  lemma UploadIsSafe(files: Files, name: Text, source: seq<byte>, max: nat, last: Text, clientStop: nat, client: Io, ok: bool,
                     canOpen: bool, stop: nat, server: Io, after: Files, result: Result)
    requires Resumable(files, name, source) && |source| < WORD && AnswersFit(max) && PlainName(name)
    requires SendCommandDoes(source, name, last, clientStop, max, client, ok)
    requires ServeDoes(files, canOpen, stop, max, server, after, result)
    requires Connected(client, server)
    ensures SafeStep(files, after, name, source, result)
    ensures StopsShort(files, after, name, |source| - Progress(files, name), clientStop, result)
    ensures SaneAnswer(Wait(client.input, last, max).answer)
    ensures Receive(server.input, max).Message? ==> WellFormed(files, Receive(server.input, max).message)
  {
    var was := WAS + SEP + name;
    NothingHappens(files, name, source);
    WasLeavesFirst(source, name, last, clientStop, max, client, ok);
    WasIsWellFormed(files, name);
    TwoFields([], []);
    if !Leaves(was, max, client.room) {
      PrefixOfSent(was, max, client.room, server.input);
      NothingIsCut(max);
    } else {
      FrameOrCut(was, max, client.output, server.input);
      if |server.input| < |Frame(was)| || |was| >= INT_LIMIT {
        NothingIsCut(max);
      } else {
        UploadGoesOn(files, name, source, max, last, clientStop, client, ok, canOpen, stop,
                     server.(input := server.input[|Frame(was)|..]), after, result);
      }
    }
  }

  lemma UploadGoesOn(files: Files, name: Text, source: seq<byte>, max: nat, last: Text, clientStop: nat, client: Io, ok: bool,
                     canOpen: bool, stop: nat, server: Io, after: Files, result: Result)
    requires Resumable(files, name, source) && |source| < WORD && AnswersFit(max) && PlainName(name)
    requires Leaves(WAS + SEP + name, max, client.room)
    requires SendCommandDoes(source, name, last, clientStop, max, client, ok)
    requires RecvsRest(files, name, canOpen, stop, max, server, after, result)
    requires client.input <= server.output && server.input <= client.output[|Frame(WAS + SEP + name)|..]
    ensures SafeStep(files, after, name, source, result)
    ensures StopsShort(files, after, name, |source| - Progress(files, name), clientStop, result)
    ensures SaneAnswer(Wait(client.input, last, max).answer)
  {
    var w := Frame(WAS + SEP + name);
    assert Sent(WAS + SEP + name, max, client.room) == w;
    AnswerIsLearned(files, name, canOpen, stop, last, max, server, after, result, client.input);
    var first := Sent(Resume(files, name), max, server.room);
    var answered := Wait(client.input, last, max);
    if answered.connected {
      ThatSessionStopsShort(files, name, source, max, clientStop, Then(client, w, answered), ok,
                            canOpen, stop, After(server, first, server.input), after, result);
    } else {
      SenderIsSilent(source, name, 0, clientStop, max, Then(client, w, answered), ok);
      NothingIsCut(max);
      NoHeader(files, BaseName, canOpen, stop, max, After(server, first, server.input), after, result);
      NothingHappens(files, name, source);
    }
  }

  // ----- the client gets

  lemma RequestLeavesFirst(files: Files, name: Text, last: Text, canOpen: bool, stop: nat, max: nat, client: Io, after: Files, result: Result)
    requires GetCommandDoes(files, name, last, canOpen, stop, max, client, after, result)
    ensures var request := Request(files, name);
            if |request| > Limit(max) then true
            else if |Frame(request)| > client.room then client.output == Sent(request, max, client.room)
            else Frame(request) <= client.output
  {
    var request := Request(files, name);
    var w := Sent(request, max, client.room);
    var answered := Wait(client.input, last, max);
    if |request| <= Limit(max) && |Frame(request)| > client.room && answered.answer == OK {
      ReceiverIsSilent(files, BaseName, canOpen, stop, max, Then(client, w, answered), after, result);
      assert client.output == w + client.output[|w|..];
    }
  }

  lemma ReceiverSaysLittle(files: Files, nameOf: Text -> Text, canOpen: bool, stop: nat, max: nat, io: Io, after: Files, result: Result)
    requires RecvFileDoes(files, nameOf, canOpen, stop, max, io, after, result)
    ensures io.output == [] || io.output == Sent(OK, max, io.room) || io.output == Sent(BAD, max, io.room)
  {}

  /** A server that is only told "ok" or "bad" says nothing. */
  lemma NotARequest(answer: Text, room: nat, files: Files, canOpen: bool, stop: nat, max: nat, server: Io, after: Files, result: Result)
    requires answer == OK || answer == BAD
    requires AnswersFit(max) && server.input <= Sent(answer, max, room)
    requires ServeDoes(files, canOpen, stop, max, server, after, result)
    ensures server.output == []
  {
    TwoFields(answer, []);
    if |Frame(answer)| > room || |server.input| < |Frame(answer)| {
      PrefixOfSent(answer, max, room, server.input);
    } else {
      FrameOrCut(answer, max, Frame(answer), server.input);
    }
  }

  lemma SilenceIsNotOk(last: Text, max: nat)
    ensures Wait([], last, max) == Answered([], [], false)
  {}

  /** When the request is over the limit, no "ok" comes back. */
  lemma NoOkWithoutRequest(files: Files, name: Text, last: Text, canOpen: bool, stop: nat, max: nat, client: Io, after: Files, result: Result,
                           serverFiles: Files, serverCanOpen: bool, serverStop: nat, server: Io, serverAfter: Files, serverResult: Result)
    requires AnswersFit(max) && Connected(client, server)
    requires GetCommandDoes(files, name, last, canOpen, stop, max, client, after, result)
    requires ServeDoes(serverFiles, serverCanOpen, serverStop, max, server, serverAfter, serverResult)
    requires |Request(files, name)| > Limit(max)
    ensures Wait(client.input, last, max).answer != OK
  {
    var answered := Wait(client.input, last, max);
    SilenceIsNotOk(last, max);
    if answered.answer == OK {
      var io := Then(client, [], answered);
      ReceiverSaysLittle(files, BaseName, canOpen, stop, max, io, after, result);
      assert client.output == io.output;
      var said := if io.output == Sent(BAD, max, io.room) then BAD else OK;
      NotARequest(said, io.room, serverFiles, serverCanOpen, serverStop, max, server, serverAfter, serverResult);
    }
  }

  /** "ok" means that the file is there and that the sending starts right after it. */
  lemma OkIsFollowedByTheFile(files: Files, name: Text, offset: nat, stop: nat, max: nat, server: Io, result: Result,
                              last: Text, input: seq<byte>)
    requires AnswersFit(max) && input <= server.output
    requires SendsFrom(files, name, Some(offset), stop, max, server, result)
    ensures Wait(input, last, max).answer == OK ==>
              && name in files && Begins(server, Frame(OK))
              && Wait(input, last, max).connected
              && Wait(input, last, max).rest <= After(server, Frame(OK), server.input).output
              && SendFileDoes(files[name], name, offset, stop, max, After(server, Frame(OK), server.input), result == Succeeded)
  {
    var answer := if name in files then OK else BAD;
    var first := Sent(answer, max, server.room);
    if |Frame(answer)| > server.room {
      if name in files {
        SenderIsSilent(files[name], name, offset, stop, max, After(server, first, server.input), result == Succeeded);
        assert server.output == first + server.output[|first|..];
      }
      PrefixOfSent(answer, max, server.room, input);
    } else {
      assert first == Frame(answer);
      FrameOrCut(answer, max, server.output, input);
    }
  }

  /** What the client asked for is what the server answers. */
  lemma RequestIsServed(files: Files, name: Text, last: Text, canOpen: bool, stop: nat, max: nat, client: Io, after: Files, result: Result,
                        serverFiles: Files, serverCanOpen: bool, serverStop: nat, server: Io, serverAfter: Files, serverResult: Result)
    requires SPACE !in name && AnswersFit(max) && Progress(files, name) < WORD && Connected(client, server)
    requires GetCommandDoes(files, name, last, canOpen, stop, max, client, after, result)
    requires ServeDoes(serverFiles, serverCanOpen, serverStop, max, server, serverAfter, serverResult)
    requires |Request(files, name)| <= Limit(max)
    ensures if |Frame(Request(files, name))| > client.room || |server.input| < |Frame(Request(files, name))|
               || |Request(files, name)| >= INT_LIMIT then server.output == []
            else SendsFrom(serverFiles, name, Some(Progress(files, name)), serverStop, max,
                           server.(input := server.input[|Frame(Request(files, name))|..]), serverResult)
    ensures Receive(server.input, max).Message? ==> WellFormed(serverFiles, Receive(server.input, max).message)
  {
    var request := Request(files, name);
    RequestLeavesFirst(files, name, last, canOpen, stop, max, client, after, result);
    RequestIsWellFormed(files, name, serverFiles);
    if |Frame(request)| > client.room {
      PrefixOfSent(request, max, client.room, server.input);
    } else {
      FrameOrCut(request, max, client.output, server.input);
    }
  }

  /** Nothing happens without "ok". */
  lemma WithoutOk(files: Files, name: Text, last: Text, canOpen: bool, stop: nat, max: nat, client: Io, after: Files, result: Result)
    requires GetCommandDoes(files, name, last, canOpen, stop, max, client, after, result)
    requires Wait(client.input, last, max).answer != OK
    ensures after == files && result == Failed
  {}

  /** "ok" comes back only to a request that was served. */
  lemma OkMeansServed(files: Files, name: Text, last: Text, canOpen: bool, stop: nat, max: nat, client: Io, after: Files, result: Result,
                      serverFiles: Files, serverCanOpen: bool, serverStop: nat, server: Io, serverAfter: Files, serverResult: Result)
    returns (asked: Io)
    requires AnswersFit(max) && SPACE !in name && Progress(files, name) < WORD && Connected(client, server)
    requires GetCommandDoes(files, name, last, canOpen, stop, max, client, after, result)
    requires ServeDoes(serverFiles, serverCanOpen, serverStop, max, server, serverAfter, serverResult)
    requires Wait(client.input, last, max).answer == OK
    ensures Leaves(Request(files, name), max, client.room) && asked.output == server.output
    ensures SendsFrom(serverFiles, name, Some(Progress(files, name)), serverStop, max, asked, serverResult)
  {
    var request := Request(files, name);
    if |request| > Limit(max) {
      NoOkWithoutRequest(files, name, last, canOpen, stop, max, client, after, result,
                         serverFiles, serverCanOpen, serverStop, server, serverAfter, serverResult);
    }
    RequestIsServed(files, name, last, canOpen, stop, max, client, after, result,
                    serverFiles, serverCanOpen, serverStop, server, serverAfter, serverResult);
    SilenceIsNotOk(last, max);
    asked := server.(input := server.input[|Frame(request)|..]);
  }

  /** However a download is cut or stopped, it is safe. */
  lemma DownloadIsSafe(files: Files, name: Text, source: seq<byte>, max: nat, last: Text, canOpen: bool, stop: nat, client: Io,
                       after: Files, result: Result,
                       serverFiles: Files, serverCanOpen: bool, serverStop: nat, server: Io, serverAfter: Files, serverResult: Result)
    requires Resumable(files, name, source) && |source| < WORD && AnswersFit(max) && PlainName(name)
    requires name in serverFiles ==> serverFiles[name] == source
    requires GetCommandDoes(files, name, last, canOpen, stop, max, client, after, result)
    requires ServeDoes(serverFiles, serverCanOpen, serverStop, max, server, serverAfter, serverResult)
    requires Connected(client, server)
    ensures SafeStep(files, after, name, source, result)
    ensures StopsShort(files, after, name, |source| - Progress(files, name), serverStop, result)
  {
    if Wait(client.input, last, max).answer == OK {
      var asked := OkMeansServed(files, name, last, canOpen, stop, max, client, after, result,
                                 serverFiles, serverCanOpen, serverStop, server, serverAfter, serverResult);
      OkIsFollowedByTheFile(serverFiles, name, Progress(files, name), serverStop, max, asked, serverResult, last, client.input);
      DownloadGoesOn(files, name, source, max, last, canOpen, stop, client, after, result, serverStop,
                     After(asked, Frame(OK), asked.input), serverResult == Succeeded);
    } else {
      WithoutOk(files, name, last, canOpen, stop, max, client, after, result);
      NothingHappens(files, name, source);
    }
  }

  lemma DownloadGoesOn(files: Files, name: Text, source: seq<byte>, max: nat, last: Text, canOpen: bool, stop: nat, client: Io,
                       after: Files, result: Result, serverStop: nat, sender: Io, ok: bool)
    requires Resumable(files, name, source) && |source| < WORD && PlainName(name)
    requires Leaves(Request(files, name), max, client.room) && Wait(client.input, last, max).answer == OK
    requires GetCommandDoes(files, name, last, canOpen, stop, max, client, after, result)
    requires SendFileDoes(source, name, Progress(files, name), serverStop, max, sender, ok)
    requires Wait(client.input, last, max).rest <= sender.output
    ensures SafeStep(files, after, name, source, result)
    ensures StopsShort(files, after, name, |source| - Progress(files, name), serverStop, result)
  {
    WholeFrame(Request(files, name), max, client.room);
    ThatSessionStopsShort(files, name, source, max, serverStop, sender, ok, canOpen, stop,
                          Then(client, Frame(Request(files, name)), Wait(client.input, last, max)), after, result);
  }
}
