/** Sending and receiving one file over a connected socket. */
module FileTransfer {
  import opened Sockets
  import opened Framing
  import opened Scanners
  import opened Decimal
  import opened Fields
  import opened FileNames
  import opened FileBlocks

  const OK: Text := ['o' as byte, 'k' as byte]
  const BAD: Text := ['b' as byte, 'a' as byte, 'd' as byte]

  /** `Thrown`: a number in the header did not fit 64 bits. */
  datatype Result = Succeeded | Failed | Thrown

  /** One end of a connection over one operation: what could be read and how much could be
      written before, what was written, and what was left unread. */
  datatype Io = Io(input: seq<byte>, room: nat, output: seq<byte>, rest: seq<byte>)

  // ----- sending

  /** What the sender puts out after the other side agreed: the flag was seen set before pass
      `stopAfter`, or the loop did not have that pass. */
  ghost predicate SendsBody(content: seq<byte>, offset: nat, stopAfter: nat, room: nat, t: seq<byte>, ok: bool) {
    var left := Left(content, offset);
    && Agrees(t, left)
    && if BLOCK * (stopAfter + 1) < |left| then !ok && |t| == Fits(BLOCK * stopAfter, room)
       else |t| == Fits(Padded(|left|), room) && (ok <==> Padded(|left|) <= room)
  }

  ghost predicate SendFileDoes(content: seq<byte>, name: Text, offset: nat, stopAfter: nat, max: nat, io: Io, ok: bool) {
    var header := Header(name, offset, Remaining(|content|, offset));
    var sent := Sent(header, max, io.room);
    if !Succeeds(header, max, io.room) then
      io.output == sent && io.rest == io.input && !ok
    else match Receive(io.input, max)
      case Message(reply, r) =>
        && io.rest == r
        && sent <= io.output
        && if reply == BAD then io.output == sent && !ok
           else SendsBody(content, offset, stopAfter, io.room - |sent|, io.output[|sent|..], ok)
      case TooLong(r) => io.output == sent && io.rest == r && !ok
      case Cut => io.output == sent && io.rest == [] && !ok
  }

  method SendFile(sock: Socket, disk: Disk, fileName: Text, previouslySent: nat, stopAfter: nat, max: nat)
    returns (ok: bool, ghost output: seq<byte>)
    requires previouslySent < WORD
    modifies sock
    ensures sock.outgoing == old(sock.outgoing) + output
    ensures fileName !in disk.files ==> !ok && output == [] && sock.incoming == old(sock.incoming)
    ensures fileName in disk.files ==>
              SendFileDoes(disk.files[fileName], fileName, previouslySent, stopAfter, max,
                           Io(old(sock.incoming), old(sock.room), output, sock.incoming), ok)
    // success means that the flag was not seen set
    ensures ok ==> fileName in disk.files && |Left(disk.files[fileName], previouslySent)| <= BLOCK * (stopAfter + 1)
  {
    output := [];
    if fileName !in disk.files { return false, output; }
    var content := disk.files[fileName];
    var header := Header(fileName, previouslySent, Remaining(|content|, previouslySent));
    var sent := DefaultTcpSend(sock, header, max);
    output := Sent(header, max, old(sock.room));
    if !sent { return false, output; }
    var received, isRecvAvailable := DefaultTcpRecv(sock, [], max);
    if !received || isRecvAvailable == BAD { return false, output; }
    ghost var t;
    ok, t := SendBlocks(sock, content, previouslySent, stopAfter);
    assert (output + t)[|output|..] == t;
    output := output + t;
  }

  // ----- receiving

  /** Opening for appending creates what is not there. */
  function Opened(files: Files, name: Text): Files { if name in files then files else files[name := []] }

  function Grown(files: Files, tmp: Text, written: seq<byte>): Files {
    Opened(files, tmp)[tmp := Opened(files, tmp)[tmp] + written]
  }

  /** The files after a session: the temporary file has grown, or, when all was there, has
      become a file under a free name. */
  ghost predicate Stored(files: Files, name: Text, c: Collected, after: Files, result: Result) {
    var tmp := TmpName(name);
    var grown := Grown(files, tmp, c.written);
    if c.done then
      && result == Succeeded
      && exists free :: IsFreeName(grown, name, free) && after == (grown - {tmp})[free := grown[tmp]]
    else
      after == grown && result == Failed
  }

  ghost predicate RecvFileDoes(files: Files, nameOf: Text -> Text, canOpen: bool, stopAfter: nat, max: nat, io: Io,
                               after: Files, result: Result)
  {
    match Receive(io.input, max)
    case Message(info, r) => HeaderDoes(files, nameOf, canOpen, stopAfter, max, info, io.(input := r), after, result)
    case TooLong(r) => after == files && io.output == [] && io.rest == r && result == Failed
    case Cut => after == files && io.output == [] && io.rest == [] && result == Failed
  }

  /** What the receiver does with a header. */
  ghost predicate HeaderDoes(files: Files, nameOf: Text -> Text, canOpen: bool, stopAfter: nat, max: nat, info: Text, io: Io,
                             after: Files, result: Result)
  {
    match ParseHeader(info)
    case Malformed => after == files && io.output == Sent(BAD, max, io.room) && io.rest == io.input && result == Failed
    case NumberTooLarge => after == files && io.output == [] && io.rest == io.input && result == Thrown
    case HeaderFields(path, _, amount) =>
      if canOpen then
        var c := Collect(io.input, amount, stopAfter);
        Stored(files, nameOf(path), c, after, result) && io.output == Sent(OK, max, io.room) && io.rest == c.rest
      else
        after == files && io.output == Sent(BAD, max, io.room) && io.rest == io.input && result == Failed
  }

  /** The transfer itself and the renaming that ends it. */
  method RecvOpened(sock: Socket, disk: Disk, fileName: Text, amount: nat, stopAfter: nat) returns (result: Result)
    modifies sock`incoming, disk
    ensures var c := Collect(old(sock.incoming), amount, stopAfter);
            Stored(old(disk.files), fileName, c, disk.files, result) && sock.incoming == c.rest
  {
    var tmp := TmpName(fileName);
    ghost var c := Collect(sock.incoming, amount, stopAfter);
    ghost var grown := Grown(disk.files, tmp, c.written);
    if tmp !in disk.files { disk.files := disk.files[tmp := []]; }
    var ok := RecvBlocks(sock, disk, tmp, amount, stopAfter);
    assert disk.files == grown;
    if !ok { return Failed; }
    var newFileName := FindFreeName(disk.files, fileName);
    disk.files := (disk.files - {tmp})[newFileName := disk.files[tmp]];
    result := Succeeded;
  }

  method RecvFile(sock: Socket, disk: Disk, canOpen: bool, stopAfter: nat, max: nat, fileNameFunction: Text -> Text)
    returns (result: Result, ghost output: seq<byte>)
    modifies sock, disk
    ensures sock.outgoing == old(sock.outgoing) + output
    ensures RecvFileDoes(old(disk.files), fileNameFunction, canOpen, stopAfter, max,
                         Io(old(sock.incoming), old(sock.room), output, sock.incoming), disk.files, result)
  {
    output := [];
    var received, fileInfo := DefaultTcpRecv(sock, [], max);
    if !received { return Failed, output; }
    SplitByOneByte(fileInfo, SPACE, [fileInfo]);
    var fileInfos := Split(fileInfo, SEP);
    var fileName := fileNameFunction(fileInfos[0]);
    var wellFormed := |fileInfos| == 3;
    var amount := 0;
    if wellFormed {
      var offset := StringToInt(fileInfos[1]);
      if offset.OutOfRange? { return Thrown, output; }
      wellFormed := offset.Value?;
      if wellFormed {
        var size := StringToInt(fileInfos[2]);
        if size.OutOfRange? { return Thrown, output; }
        wellFormed := size.Value?;
        if wellFormed { amount := size.n; }
      }
    }
    if !wellFormed || !canOpen {
      output := Sent(BAD, max, sock.room);
      var _ := DefaultTcpSend(sock, BAD, max);
      return Failed, output;
    }
    output := Sent(OK, max, sock.room);
    var _ := DefaultTcpSend(sock, OK, max);
    result := RecvOpened(sock, disk, fileName, amount, stopAfter);
  }
}
