/** The blocking file transmitter: who asks for what, and from where a broken transfer goes on. */
module Negotiation {
  import opened Options
  import opened Sequences
  import opened Sockets
  import opened Framing
  import opened Scanners
  import opened Decimal
  import opened Fields
  import opened FileNames
  import opened FileBlocks
  import opened FileTransfer

  const WAS: Text := ['w' as byte, 'a' as byte, 's' as byte]
  const GET: Text := ['g' as byte, 'e' as byte, 't' as byte]
  const CONTINUE: Text := ['c' as byte, 'o' as byte, 'n' as byte, 't' as byte, 'i' as byte, 'n' as byte, 'u' as byte, 'e' as byte]

  /** What is left of an operation after `sent` was written and the input read up to `rest`. */
  function After(io: Io, sent: seq<byte>, rest: seq<byte>): Io
    requires sent <= io.output && |sent| <= io.room
  {
    Io(rest, io.room - |sent|, io.output[|sent|..], io.rest)
  }

  predicate Begins(io: Io, sent: seq<byte>) { sent <= io.output && |sent| <= io.room }

  lemma AfterFirst(input: seq<byte>, room: nat, first: seq<byte>, t: seq<byte>, rest: seq<byte>, r: seq<byte>)
    requires |first| <= room
    ensures var io := Io(input, room, first + t, rest); Begins(io, first) && After(io, first, r) == Io(r, room - |first|, t, rest)
  {
    assert (first + t)[|first|..] == t;
  }

  lemma SentFits(message: Text, max: nat, room: nat)
    ensures |Sent(message, max, room)| <= room
  {}

  // ----- the server

  /** The handler indexes the fields without looking how many there are, and uses the third, when
      the file is there, without looking whether it was a number: the variable is then unset. */
  predicate WellFormed(files: Files, message: Text) {
    var parts := Pieces(message, SEP);
    && (parts[0] == WAS || parts[0] == GET || parts[0] == CONTINUE ==> |parts| >= 2)
    && (parts[0] == CONTINUE && parts[1] in files ==> |parts| >= 3 && !Parse(parts[2]).NotDigits?)
  }

  /** A converted number; `None` stands for the exception. */
  function Converted(text: Text): Option<nat> {
    if Parse(text).Value? then Some(Parse(text).n) else None
  }

  /** The answer to "was": how much is there already. */
  function Resume(files: Files, name: Text): Text {
    if TmpName(name) in files then OK + SEP + ToString(|files[TmpName(name)]|) else BAD
  }

  ghost predicate SendsFrom(files: Files, name: Text, offset: Option<nat>, stopAfter: nat, max: nat, io: Io, result: Result) {
    if name in files then
      var answer := Sent(OK, max, io.room);
      match offset
      case Some(n) =>
        && Begins(io, answer) && !result.Thrown?
        && SendFileDoes(files[name], name, n, stopAfter, max, After(io, answer, io.input), result == Succeeded)
      case None => io.output == answer && io.rest == io.input && result == Thrown
    else
      io.output == Sent(BAD, max, io.room) && io.rest == io.input && result == Failed
  }

  ghost predicate RecvsRest(files: Files, name: Text, canOpen: bool, stopAfter: nat, max: nat, io: Io, after: Files, result: Result) {
    var answer := Sent(Resume(files, name), max, io.room);
    && Begins(io, answer)
    && RecvFileDoes(files, BaseName, canOpen, stopAfter, max, After(io, answer, io.input), after, result)
  }

  ghost predicate HandlerDoes(files: Files, message: Text, canOpen: bool, stopAfter: nat, max: nat, io: Io, after: Files, result: Result)
    requires WellFormed(files, message)
  {
    var parts := Pieces(message, SEP);
    if parts[0] == WAS then
      RecvsRest(files, parts[1], canOpen, stopAfter, max, io, after, result)
    else if parts[0] == GET then
      SendsFrom(files, parts[1], Some(0), stopAfter, max, io, result) && after == files
    else if parts[0] == CONTINUE then
      var offset := if parts[1] in files then Converted(parts[2]) else None;
      SendsFrom(files, parts[1], offset, stopAfter, max, io, result) && after == files
    else
      io.output == [] && io.rest == io.input && after == files && result == Failed
  }

  method ClientMessageHandler(sock: Socket, disk: Disk, message: Text, canOpen: bool, stopAfter: nat, max: nat)
    returns (result: Result, ghost output: seq<byte>)
    requires WellFormed(disk.files, message)
    modifies sock, disk
    ensures sock.outgoing == old(sock.outgoing) + output
    ensures HandlerDoes(old(disk.files), message, canOpen, stopAfter, max,
                        Io(old(sock.incoming), old(sock.room), output, sock.incoming), disk.files, result)
  {
    output := [];
    SplitByOneByte(message, SPACE, []);
    var parts := Split(message, SEP);
    if parts[0] == WAS {
      result, output := RecvRest(sock, disk, parts[1], canOpen, stopAfter, max);
    } else if parts[0] == GET {
      result, output := SendFrom(sock, disk, parts[1], Some(0), stopAfter, max);
    } else if parts[0] == CONTINUE {
      var offset := None;
      if parts[1] in disk.files {
        var number := StringToInt(parts[2]);
        offset := if number.Value? then Some(number.n) else None;
      }
      result, output := SendFrom(sock, disk, parts[1], offset, stopAfter, max);
    } else {
      result := Failed;
    }
  }

  /** "ok" and how much is there, or "bad"; then the file. */
  method RecvRest(sock: Socket, disk: Disk, name: Text, canOpen: bool, stopAfter: nat, max: nat)
    returns (result: Result, ghost output: seq<byte>)
    modifies sock, disk
    ensures sock.outgoing == old(sock.outgoing) + output
    ensures RecvsRest(old(disk.files), name, canOpen, stopAfter, max,
                      Io(old(sock.incoming), old(sock.room), output, sock.incoming), disk.files, result)
  {
    var answer := BAD;
    if TmpName(name) in disk.files {
      answer := OK + SEP + ToString(|disk.files[TmpName(name)]|);
    }
    ghost var first := Sent(answer, max, sock.room);
    SentFits(answer, max, sock.room);
    var _ := DefaultTcpSend(sock, answer, max);
    ghost var t;
    result, t := RecvFile(sock, disk, canOpen, stopAfter, max, BaseName);
    output := first + t;
    Assoc(old(sock.outgoing), first, t);
    ThenReceives(old(disk.files), name, canOpen, stopAfter, max, old(sock.incoming), old(sock.room), first, t, sock.incoming, disk.files, result);
  }

  lemma ThenReceives(files: Files, name: Text, canOpen: bool, stopAfter: nat, max: nat, input: seq<byte>, room: nat,
                     first: seq<byte>, t: seq<byte>, rest: seq<byte>, after: Files, result: Result)
    requires first == Sent(Resume(files, name), max, room) && |first| <= room
    requires RecvFileDoes(files, BaseName, canOpen, stopAfter, max, Io(input, room - |first|, t, rest), after, result)
    ensures RecvsRest(files, name, canOpen, stopAfter, max, Io(input, room, first + t, rest), after, result)
  {
    AfterFirst(input, room, first, t, rest, input);
  }

  /** "ok" and the file from the offset on, or "bad". */
  method SendFrom(sock: Socket, disk: Disk, name: Text, offset: Option<nat>, stopAfter: nat, max: nat)
    returns (result: Result, ghost output: seq<byte>)
    requires offset.Some? ==> offset.value < WORD
    modifies sock
    ensures sock.outgoing == old(sock.outgoing) + output
    ensures SendsFrom(disk.files, name, offset, stopAfter, max, Io(old(sock.incoming), old(sock.room), output, sock.incoming), result)
  {
    if name in disk.files {
      ghost var first := Sent(OK, max, sock.room);
      SentFits(OK, max, sock.room);
      var _ := DefaultTcpSend(sock, OK, max);
      if offset.None? { return Thrown, first; }
      var ok;
      ghost var t;
      ok, t := SendFile(sock, disk, name, offset.value, stopAfter, max);
      output := first + t;
      Assoc(old(sock.outgoing), first, t);
      AfterFirst(old(sock.incoming), old(sock.room), first, t, sock.incoming, old(sock.incoming));
      result := if ok then Succeeded else Failed;
    } else {
      output := Sent(BAD, max, sock.room);
      var _ := DefaultTcpSend(sock, BAD, max);
      result := Failed;
    }
  }

  // ----- the client

  /** "ok" and digits, or no "ok": anything else is indexed, or leaves the offset unset. */
  predicate SaneAnswer(answer: Text) {
    var parts := Pieces(answer, SEP);
    parts[0] == OK ==> |parts| >= 2 && !Parse(parts[1]).NotDigits?
  }

  function OffsetIn(answer: Text): Option<nat>
    requires SaneAnswer(answer)
  {
    var parts := Pieces(answer, SEP);
    if parts[0] == OK then Converted(parts[1]) else Some(0)
  }

  /** What a wait leaves in the variable for the answer, and in the stream. */
  datatype Answered = Answered(answer: Text, rest: seq<byte>, connected: bool)

  function Wait(input: seq<byte>, last: Text, max: nat): Answered {
    match Receive(input, max)
    case Message(answer, r) => Answered(answer, r, true)
    case TooLong(r) => Answered(last, r, true)
    case Cut => Answered([], [], false)
  }

  /** The operation after asking for something and waiting for the answer. */
  function Then(io: Io, request: seq<byte>, answered: Answered): Io
    requires Begins(io, request)
  {
    var later := After(io, request, answered.rest);
    if answered.connected then later else later.(room := 0)
  }

  method Ask(sock: Socket, request: Text, last: Text, max: nat) returns (answer: Text, ghost sent: seq<byte>)
    modifies sock
    ensures sent == Sent(request, max, old(sock.room)) && |sent| <= old(sock.room)
    ensures sock.outgoing == old(sock.outgoing) + sent
    ensures var answered := Wait(old(sock.incoming), last, max);
            && answer == answered.answer && sock.incoming == answered.rest
            && sock.room == if answered.connected then old(sock.room) - |sent| else 0
  {
    sent := Sent(request, max, sock.room);
    SentFits(request, max, sock.room);
    var _ := DefaultTcpSend(sock, request, max);
    var _, a := DefaultTcpRecv(sock, last, max);
    answer := a;
  }

  /** After an answer that is not sane nothing is known; the client is taken to stop there. */
  ghost predicate SendCommandDoes(content: seq<byte>, name: Text, last: Text, stopAfter: nat, max: nat, io: Io, ok: bool) {
    var was := Sent(WAS + SEP + name, max, io.room);
    && Begins(io, was)
    && var answered := Wait(io.input, last, max);
       if SaneAnswer(answered.answer) then
         match OffsetIn(answered.answer)
         case Some(offset) => SendFileDoes(content, name, offset, stopAfter, max, Then(io, was, answered), ok)
         case None => io.output == was && io.rest == answered.rest && !ok
       else io.output == was
  }

  /** `last` is what the variable for the answer holds from the command before. */
  method SendCommand(sock: Socket, disk: Disk, name: Text, last: Text, stopAfter: nat, max: nat)
    returns (result: Result, ghost output: seq<byte>)
    requires name in disk.files ==> SaneAnswer(Wait(sock.incoming, last, max).answer)
    modifies sock
    ensures sock.outgoing == old(sock.outgoing) + output
    ensures name !in disk.files ==> result == Failed && output == [] && sock.incoming == old(sock.incoming)
    ensures name in disk.files ==>
              SendCommandDoes(disk.files[name], name, last, stopAfter, max,
                              Io(old(sock.incoming), old(sock.room), output, sock.incoming), result == Succeeded)
    ensures name in disk.files ==> (result.Thrown? <==> OffsetIn(Wait(old(sock.incoming), last, max).answer).None?)
  {
    if name !in disk.files { return Failed, []; }
    var answer;
    ghost var was, t;
    answer, was := Ask(sock, WAS + SEP + name, last, max);
    SplitByOneByte(answer, SPACE, [[]]);
    var parts := Split(answer, SEP);
    var offset := 0;
    if parts[0] == OK {
      var number := StringToInt(parts[1]);
      if number.OutOfRange? { return Thrown, was; }
      offset := number.n;
    }
    assert OffsetIn(answer) == Some(offset);
    var ok;
    ok, t := SendFile(sock, disk, name, offset, stopAfter, max);
    result := if ok then Succeeded else Failed;
    output := was + t;
    Assoc(old(sock.outgoing), was, t);
    AfterFirst(old(sock.incoming), old(sock.room), was, t, sock.incoming, Wait(old(sock.incoming), last, max).rest);
  }

  /** What the client asks for: the rest, when it has a part already. */
  function Request(files: Files, name: Text): Text {
    if TmpName(name) in files then CONTINUE + SEP + name + SEP + ToString(|files[TmpName(name)]|) else GET + SEP + name
  }

  ghost predicate GetCommandDoes(files: Files, name: Text, last: Text, canOpen: bool, stopAfter: nat, max: nat, io: Io,
                                 after: Files, result: Result)
  {
    var request := Sent(Request(files, name), max, io.room);
    && Begins(io, request)
    && var answered := Wait(io.input, last, max);
       if answered.answer == OK then
         RecvFileDoes(files, BaseName, canOpen, stopAfter, max, Then(io, request, answered), after, result)
       else
         io.output == request && io.rest == answered.rest && after == files && result == Failed
  }

  method GetCommand(sock: Socket, disk: Disk, name: Text, last: Text, canOpen: bool, stopAfter: nat, max: nat)
    returns (result: Result, ghost output: seq<byte>)
    modifies sock, disk
    ensures sock.outgoing == old(sock.outgoing) + output
    ensures GetCommandDoes(old(disk.files), name, last, canOpen, stopAfter, max,
                           Io(old(sock.incoming), old(sock.room), output, sock.incoming), disk.files, result)
  {
    var request;
    if TmpName(name) in disk.files {
      request := CONTINUE + SEP + name + SEP + ToString(|disk.files[TmpName(name)]|);
    } else {
      request := GET + SEP + name;
    }
    var answer;
    ghost var first, t := [], [];
    answer, first := Ask(sock, request, last, max);
    if answer == OK {
      result, t := RecvFile(sock, disk, canOpen, stopAfter, max, BaseName);
    } else {
      result := Failed;
    }
    output := first + t;
    Assoc(old(sock.outgoing), first, t);
    AfterFirst(old(sock.incoming), old(sock.room), first, t, sock.incoming, Wait(old(sock.incoming), last, max).rest);
  }
}
