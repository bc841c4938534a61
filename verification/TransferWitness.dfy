/** Sessions that are not cut do happen: for every file, every name without spaces and whatever
    part is there already, two ends that fit together exist. */
module TransferWitness {
  import opened Options
  import opened Sequences
  import opened Sockets
  import opened Framing
  import opened Fields
  import opened FileNames
  import opened FileBlocks
  import opened FileTransfer
  import opened TransferTheorems
  import opened Negotiation
  import opened NegotiationTheorems
  import opened TransferRuns

  /** The file from the offset on, padded to whole blocks. */
  function Blocks(source: seq<byte>, offset: nat): seq<byte>
    requires offset <= |source|
  {
    PaddedAmount(|source| - offset);
    source[offset..] + seq(Padded(|source| - offset) - (|source| - offset), _ => 0)
  }

  lemma BlocksAreWhole(source: seq<byte>, offset: nat)
    requires offset <= |source|
    ensures |Blocks(source, offset)| == Padded(|source| - offset)
    ensures Agrees(Blocks(source, offset), Left(source, offset))
  {
    PaddedAmount(|source| - offset);
  }

  lemma StoredExists(files: Files, name: Text, written: seq<byte>) returns (after: Files)
    ensures Stored(files, name, Collected(written, [], true), after, Succeeded)
  {
    var tmp := TmpName(name);
    var grown := Grown(files, tmp, written);
    var free := FreeNameExists(grown, name);
    after := (grown - {tmp})[free := grown[tmp]];
  }

  lemma HeaderAccepted(files: Files, name: Text, offset: nat, amount: nat, stop: nat, max: nat, room: nat, t: seq<byte>, written: seq<byte>,
                       after: Files)
    requires SPACE !in name && offset < WORD && amount < WORD && 3 <= max && |Frame(BAD)| <= room
    requires Collect(t, amount, stop) == Collected(written, [], true)
    requires Stored(files, BaseName(name), Collected(written, [], true), after, Succeeded)
    ensures HeaderDoes(files, BaseName, true, stop, max, Header(name, offset, amount), Io(t, room, Frame(OK), []), after, Succeeded)
  {
    HeaderReadsBack(name, offset, amount);
    AnswerFits(OK, max, room);
    var nameOf: Text -> Text := BaseName;
    assert nameOf(name) == BaseName(name);
  }

  /** The header and the blocks. */
  function Transmission(name: Text, source: seq<byte>, offset: nat): seq<byte>
    requires offset <= |source|
  {
    Frame(Header(name, offset, |source| - offset)) + Blocks(source, offset)
  }

  lemma ReceiverExists(files: Files, name: Text, source: seq<byte>, offset: nat, max: nat, room: nat, body: seq<byte>) returns (after: Files)
    requires SPACE !in name && offset <= |source| < WORD && 3 <= max && |Frame(BAD)| <= room
    requires |Header(name, offset, |source| - offset)| <= max && |Frame(Header(name, offset, |source| - offset))| < INT_LIMIT
    requires body == Transmission(name, source, offset)
    ensures RecvFileDoes(files, BaseName, true, Passes(|source| - offset), max, Io(body, room, Frame(OK), []), after, Succeeded)
  {
    var header, t, stop := Header(name, offset, |source| - offset), Blocks(source, offset), Passes(|source| - offset);
    BlocksAreWhole(source, offset);
    AllBlocksThere(source, offset, t, [], stop);
    Nothing(t);
    after := StoredExists(files, BaseName(name), source[offset..]);
    HeaderAccepted(files, name, offset, |source| - offset, stop, max, room, t, source[offset..], after);
    ReceivedHeader(files, header, t, stop, max, Io(body, room, Frame(OK), []), after);
  }

  lemma ReceivedHeader(files: Files, header: Text, t: seq<byte>, stop: nat, max: nat, io: Io, after: Files)
    requires |header| <= max && |header| < INT_LIMIT && io.input == Frame(header) + t
    requires HeaderDoes(files, BaseName, true, stop, max, header, io.(input := t), after, Succeeded)
    ensures RecvFileDoes(files, BaseName, true, stop, max, io, after, Succeeded)
  {
    FrameIsReceived(header, t, max);
  }

  lemma SenderExists(source: seq<byte>, name: Text, offset: nat, max: nat, body: seq<byte>)
    requires offset <= |source| < WORD && 3 <= max
    requires |Header(name, offset, |source| - offset)| <= max && |Frame(Header(name, offset, |source| - offset))| < INT_LIMIT
    requires body == Transmission(name, source, offset)
    ensures SendFileDoes(source, name, offset, Passes(|source| - offset), max, Io(Frame(OK), |body|, body, []), true)
  {
    var header, t := Header(name, offset, |source| - offset), Blocks(source, offset);
    var hf := Frame(header);
    BlocksAgree(|source|, offset);
    BlocksAreWhole(source, offset);
    WholeFrame(header, max, |body|);
    FrameIsReceived(OK, [], max);
    Nothing(Frame(OK));
    assert body[|hf|..] == t;
    assert OK != BAD;
    assert SendsBody(source, offset, Passes(|source| - offset), |t|, t, true);
  }

  function UploadClient(files: Files, name: Text, body: seq<byte>): Io {
    var w := Frame(WAS + SEP + name);
    Io(Frame(Resume(files, name)) + Frame(OK), |w| + |body|, w + body, [])
  }

  function UploadServer(files: Files, name: Text, body: seq<byte>): Io {
    var first := Frame(Resume(files, name));
    Io(Frame(WAS + SEP + name) + body, |first| + |Frame(BAD)|, first + Frame(OK), [])
  }

  lemma ServerAnswers(files: Files, name: Text, max: nat, body: seq<byte>, stop: nat, after: Files)
    requires SPACE !in name && AnswersFit(max) && |WAS + SEP + name| <= max && |WAS + SEP + name| < INT_LIMIT && |Resume(files, name)| <= 23
    requires RecvFileDoes(files, BaseName, true, stop, max, Io(body, |Frame(BAD)|, Frame(OK), []), after, Succeeded)
    ensures ServeDoes(files, true, stop, max, UploadServer(files, name, body), after, Succeeded)
  {
    var was, first, server := WAS + SEP + name, Frame(Resume(files, name)), UploadServer(files, name, body);
    FrameIsReceived(was, body, max);
    WasIsWellFormed(files, name);
    WholeFrame(Resume(files, name), max, server.room);
    AfterFirst(body, server.room, first, Frame(OK), [], body);
    assert RecvsRest(files, name, true, stop, max, server.(input := body), after, Succeeded);
  }

  lemma UploadServed(files: Files, name: Text, source: seq<byte>, max: nat, body: seq<byte>) returns (after: Files)
    requires SPACE !in name && Progress(files, name) <= |source| < WORD && AnswersFit(max)
    requires |Header(name, Progress(files, name), |source| - Progress(files, name))| <= max
    requires |Frame(Header(name, Progress(files, name), |source| - Progress(files, name)))| < INT_LIMIT
    requires body == Transmission(name, source, Progress(files, name))
    ensures ServeDoes(files, true, Passes(|source| - Progress(files, name)), max, UploadServer(files, name, body), after, Succeeded)
  {
    var offset := Progress(files, name);
    assert |Resume(files, name)| <= 23 by { ResumeIsSane(files, name); }
    RequestIsShorter(name, offset, |source| - offset);
    after := ReceiverExists(files, name, source, offset, max, |Frame(BAD)|, body);
    ServerAnswers(files, name, max, body, Passes(|source| - offset), after);
  }

  lemma UploadSent(files: Files, name: Text, source: seq<byte>, max: nat, last: Text, body: seq<byte>)
    requires Progress(files, name) <= |source| < WORD && AnswersFit(max)
    requires |Header(name, Progress(files, name), |source| - Progress(files, name))| <= max
    requires |Frame(Header(name, Progress(files, name), |source| - Progress(files, name)))| < INT_LIMIT
    requires body == Transmission(name, source, Progress(files, name))
    ensures SendCommandDoes(source, name, last, Passes(|source| - Progress(files, name)), max, UploadClient(files, name, body), true)
  {
    var offset := Progress(files, name);
    var stop := Passes(|source| - offset);
    assert |WAS + SEP + name| <= max by { RequestIsShorter(name, offset, |source| - offset); }
    assert SendFileDoes(source, name, offset, stop, max, Io(Frame(OK), |body|, body, []), true) by {
      SenderExists(source, name, offset, max, body);
    }
    ClientSends(files, name, source, max, last, UploadClient(files, name, body), body, Frame(OK), stop);
  }

  lemma UploadIsAmple(files: Files, name: Text, source: seq<byte>, max: nat, body: seq<byte>, stop: nat)
    requires Progress(files, name) <= |source| < WORD && AnswersFit(max)
    requires |Header(name, Progress(files, name), |source| - Progress(files, name))| <= max
    requires |Frame(Header(name, Progress(files, name), |source| - Progress(files, name)))| < INT_LIMIT
    requires body == Transmission(name, source, Progress(files, name)) && stop == Passes(|source| - Progress(files, name))
    ensures Ample(files, name, source, max, stop, UploadClient(files, name, body), stop, UploadServer(files, name, body))
  {
    BlocksAreWhole(source, Progress(files, name));
  }

  /** An upload that is not cut, from any progress. */
  lemma UploadHappens(files: Files, name: Text, source: seq<byte>, max: nat, last: Text)
    returns (client: Io, server: Io, after: Files)
    requires SPACE !in name && Progress(files, name) <= |source| < WORD && AnswersFit(max)
    requires |Header(name, Progress(files, name), |source| - Progress(files, name))| <= max
    requires |Frame(Header(name, Progress(files, name), |source| - Progress(files, name)))| < INT_LIMIT
    ensures client.input == server.output && server.input == client.output
    ensures var stop := Passes(|source| - Progress(files, name));
            && Ample(files, name, source, max, stop, client, stop, server)
            && SendCommandDoes(source, name, last, stop, max, client, true)
            && ServeDoes(files, true, stop, max, server, after, Succeeded)
  {
    var body := Transmission(name, source, Progress(files, name));
    UploadIsAmple(files, name, source, max, body, Passes(|source| - Progress(files, name)));
    UploadSent(files, name, source, max, last, body);
    after := UploadServed(files, name, source, max, body);
    client, server := UploadClient(files, name, body), UploadServer(files, name, body);
  }

  lemma ClientSends(files: Files, name: Text, source: seq<byte>, max: nat, last: Text, client: Io, body: seq<byte>, answer: seq<byte>, stop: nat)
    requires AnswersFit(max) && |WAS + SEP + name| <= max && |WAS + SEP + name| < INT_LIMIT && Progress(files, name) < WORD
    requires client == Io(Frame(Resume(files, name)) + answer, |Frame(WAS + SEP + name)| + |body|, Frame(WAS + SEP + name) + body, [])
    requires SendFileDoes(source, name, Progress(files, name), stop, max, Io(answer, |body|, body, []), true)
    ensures SendCommandDoes(source, name, last, stop, max, client, true)
  {
    var was := WAS + SEP + name;
    ResumeIsSane(files, name);
    FrameIsReceived(Resume(files, name), answer, max);
    WholeFrame(was, max, client.room);
    AfterFirst(client.input, client.room, Frame(was), body, [], answer);
  }

  /** A download that is not cut, from any progress. */
  lemma DownloadHappens(files: Files, name: Text, source: seq<byte>, max: nat, last: Text, serverFiles: Files)
    returns (client: Io, server: Io, after: Files)
    requires SPACE !in name && Progress(files, name) <= |source| < WORD && AnswersFit(max)
    requires |Header(name, Progress(files, name), |source| - Progress(files, name))| <= max
    requires |Frame(Header(name, Progress(files, name), |source| - Progress(files, name)))| < INT_LIMIT
    requires |Request(files, name)| <= max && |Request(files, name)| < INT_LIMIT
    requires name in serverFiles && serverFiles[name] == source
    ensures client.input == server.output && server.input == client.output
    ensures var stop := Passes(|source| - Progress(files, name));
            && AmpleDownload(files, name, source, max, stop, client, stop, server)
            && GetCommandDoes(files, name, last, true, stop, max, client, after, Succeeded)
            && ServeDoes(serverFiles, true, stop, max, server, serverFiles, Succeeded)
  {
    var offset, request := Progress(files, name), Request(files, name);
    var body, stop := Transmission(name, source, offset), Passes(|source| - offset);
    BlocksAreWhole(source, offset);
    client := Io(Frame(OK) + body, |Frame(request)| + |Frame(BAD)|, Frame(request) + Frame(OK), []);
    server := Io(Frame(request) + Frame(OK), |Frame(OK)| + |body|, Frame(OK) + body, []);
    assert |body| == |Frame(Header(name, offset, |source| - offset))| + Padded(|source| - offset);
    after := ReceiverExists(files, name, source, offset, max, |Frame(BAD)|, body);
    SenderExists(source, name, offset, max, body);
    ServerSends(files, name, source, max, server, body, Frame(OK), stop, serverFiles);
    ClientGets(files, name, max, last, client, body, Frame(OK), stop, after);
  }

  lemma ClientGets(files: Files, name: Text, max: nat, last: Text, client: Io, body: seq<byte>, reply: seq<byte>, stop: nat, after: Files)
    requires AnswersFit(max) && |Request(files, name)| <= max && |Request(files, name)| < INT_LIMIT
    requires client == Io(Frame(OK) + body, |Frame(Request(files, name))| + |Frame(BAD)|, Frame(Request(files, name)) + reply, [])
    requires RecvFileDoes(files, BaseName, true, stop, max, Io(body, |Frame(BAD)|, reply, []), after, Succeeded)
    ensures GetCommandDoes(files, name, last, true, stop, max, client, after, Succeeded)
  {
    var request := Request(files, name);
    FrameIsReceived(OK, body, max);
    WholeFrame(request, max, client.room);
    AfterFirst(client.input, client.room, Frame(request), reply, [], body);
  }

  lemma SendsAfterOk(name: Text, offset: nat, source: seq<byte>, max: nat, body: seq<byte>, answer: seq<byte>, stop: nat, serverFiles: Files)
    requires AnswersFit(max) && name in serverFiles && serverFiles[name] == source
    requires SendFileDoes(source, name, offset, stop, max, Io(answer, |body|, body, []), true)
    ensures SendsFrom(serverFiles, name, Some(offset), stop, max, Io(answer, |Frame(OK)| + |body|, Frame(OK) + body, []), Succeeded)
  {
    var room := |Frame(OK)| + |body|;
    WholeFrame(OK, max, room);
    AfterFirst(answer, room, Frame(OK), body, [], answer);
  }

  lemma ServerSends(files: Files, name: Text, source: seq<byte>, max: nat, server: Io, body: seq<byte>, answer: seq<byte>, stop: nat,
                    serverFiles: Files)
    requires SPACE !in name && AnswersFit(max) && |Request(files, name)| <= max && |Request(files, name)| < INT_LIMIT && Progress(files, name) < WORD
    requires name in serverFiles && serverFiles[name] == source
    requires server == Io(Frame(Request(files, name)) + answer, |Frame(OK)| + |body|, Frame(OK) + body, [])
    requires SendFileDoes(source, name, Progress(files, name), stop, max, Io(answer, |body|, body, []), true)
    ensures ServeDoes(serverFiles, true, stop, max, server, serverFiles, Succeeded)
  {
    var request := Request(files, name);
    FrameIsReceived(request, answer, max);
    RequestIsWellFormed(files, name, serverFiles);
    SendsAfterOk(name, Progress(files, name), source, max, body, answer, stop, serverFiles);
    assert server.(input := answer) == Io(answer, |Frame(OK)| + |body|, Frame(OK) + body, []);
  }
}
